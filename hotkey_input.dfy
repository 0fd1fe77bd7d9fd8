/** The hotkey recorder of the settings screen (src/components/HotkeyInput.tsx):
    it collects the keys held while recording, formats them as a hotkey
    string such as "Ctrl+Shift+R", and commits that string on key-up once a
    modifier and a regular key are held. */
module HotkeyInput {
  import opened Wrappers
  import opened Text
  import opened Hotkeys

  /** The browser name of a modifier key and the name the formatted string
      uses for it: Control→Ctrl, Meta→Cmd, Alt→Alt, Shift→Shift. */
  function ModifierLabel(key: string): (r: Option<string>)
    ensures r.Some? <==> key in {"Control", "Meta", "Alt", "Shift"}
  {
    if key == "Control" then Some("Ctrl")
    else if key == "Meta" then Some("Cmd")
    else if key == "Alt" then Some("Alt")
    else if key == "Shift" then Some("Shift")
    else None
  }

  predicate IsModifierKey(key: string) {
    key in {"Control", "Meta", "Alt", "Shift"}
  }

  /** The labels of the modifier keys held, in the order they were added
      (the `modifiers` array). */
  function Labels(keys: seq<string>): seq<string> {
    if keys == [] then []
    else
      var last := keys[|keys| - 1];
      Labels(keys[..|keys| - 1]) + (if IsModifierKey(last) then [ModifierLabel(last).value] else [])
  }

  /** The other keys, upper-cased, in the order they were added (the
      `regularKeys` array). */
  function RegularKeys(keys: seq<string>): seq<string> {
    if keys == [] then []
    else
      var last := keys[|keys| - 1];
      RegularKeys(keys[..|keys| - 1]) + (if IsModifierKey(last) then [] else [Upper(last)])
  }

  /** `['Ctrl', 'Alt', 'Shift', 'Cmd'].filter(m => labels.includes(m))`. */
  function Ordered(labels: seq<string>): (r: seq<string>)
    ensures forall l :: l in r <==> l in labels && l in {"Ctrl", "Alt", "Shift", "Cmd"}
  {
    (if "Ctrl" in labels then ["Ctrl"] else []) +
    (if "Alt" in labels then ["Alt"] else []) +
    (if "Shift" in labels then ["Shift"] else []) +
    (if "Cmd" in labels then ["Cmd"] else [])
  }

  /** The string `formatHotkey` returns. */
  function Format(keys: seq<string>): string {
    Join(Ordered(Labels(keys)) + RegularKeys(keys), "+")
  }

  /** `formatHotkey`: one pass over the held keys (a JavaScript `Set`, so
      in insertion order), then the modifiers in the fixed order
      Ctrl, Alt, Shift, Cmd, then the regular keys, joined by '+'. */
  method FormatHotkey(keys: seq<string>) returns (s: string)
    ensures s == Format(keys)
  {
    var modifiers: seq<string> := [];
    var regularKeys: seq<string> := [];
    for i := 0 to |keys|
      invariant modifiers == Labels(keys[..i])
      invariant regularKeys == RegularKeys(keys[..i])
    {
      var key := keys[i];
      assert keys[..i + 1][..i] == keys[..i];
      if key == "Control" {
        modifiers := modifiers + ["Ctrl"];
      } else if key == "Meta" {
        modifiers := modifiers + ["Cmd"];
      } else if key == "Alt" {
        modifiers := modifiers + ["Alt"];
      } else if key == "Shift" {
        modifiers := modifiers + ["Shift"];
      } else {
        regularKeys := regularKeys + [Upper(key)];
      }
    }
    assert keys[..|keys|] == keys;
    s := Join(Ordered(modifiers) + regularKeys, "+");
  }

  /** A held modifier key shows up under its name. */
  lemma {:induction false} LabelsOf(keys: seq<string>, name: string)
    ensures name in Labels(keys) <==>
            exists i :: 0 <= i < |keys| && ModifierLabel(keys[i]) == Some(name)
  {
    if keys != [] {
      var init := keys[..|keys| - 1];
      LabelsOf(init, name);
      assert forall i :: 0 <= i < |init| ==> init[i] == keys[i];
    }
  }

  /** The regular keys are exactly the non-modifier keys, upper-cased and
      in order: a modifier key is never written as a regular key. */
  lemma {:induction false} RegularKeysOf(keys: seq<string>)
    ensures |RegularKeys(keys)| <= |keys|
    ensures forall r :: r in RegularKeys(keys) ==>
              exists i :: 0 <= i < |keys| && !IsModifierKey(keys[i]) && r == Upper(keys[i])
    ensures (forall i :: 0 <= i < |keys| ==> IsModifierKey(keys[i])) ==> RegularKeys(keys) == []
  {
    if keys != [] {
      var init := keys[..|keys| - 1];
      RegularKeysOf(init);
      assert forall i :: 0 <= i < |init| ==> init[i] == keys[i];
    }
  }

  /** With exactly one regular key held, it is the only regular key
      written. */
  lemma {:induction false} SingleRegularKey(keys: seq<string>, k: nat)
    requires k < |keys| && !IsModifierKey(keys[k])
    requires forall j :: 0 <= j < |keys| && j != k ==> IsModifierKey(keys[j])
    ensures RegularKeys(keys) == [Upper(keys[k])]
  {
    var init := keys[..|keys| - 1];
    assert forall i :: 0 <= i < |init| ==> init[i] == keys[i];
    if k == |keys| - 1 {
      RegularKeysOf(init);
    } else {
      SingleRegularKey(init, k);
    }
  }

  // ---------------------------------------------------------------------
  // The recorder

  /** A keyboard event: the key name and the four modifier flags. */
  datatype KeyEvent = KeyEvent(key: string, ctrl: bool, meta: bool, alt: bool, shift: bool)

  /** A JavaScript `Set` of strings: insertion order, no duplicates. */
  predicate Distinct(s: seq<string>) {
    forall i, j :: 0 <= i < j < |s| ==> s[i] != s[j]
  }

  /** `set.add(x)`. */
  function Add(s: seq<string>, x: string): (r: seq<string>)
    ensures Distinct(s) ==> Distinct(r)
    ensures forall y :: y in r <==> y in s || y == x
  {
    if x in s then s else s + [x]
  }

  /** The key name recorded for a key-down: " " is recorded as "Space". */
  function RecordedKey(key: string): string {
    if key == " " then "Space" else key
  }

  /** The held-key set after a key-down. */
  function KeyDownKeys(prev: seq<string>, e: KeyEvent): (r: seq<string>)
    ensures Distinct(prev) ==> Distinct(r)
    ensures forall y :: y in r <==>
              y in prev || (y == "Control" && e.ctrl) || (y == "Meta" && e.meta) ||
              (y == "Alt" && e.alt) || (y == "Shift" && e.shift) ||
              (y == RecordedKey(e.key) && !IsModifierKey(RecordedKey(e.key)))
  {
    var k0 := if e.ctrl then Add(prev, "Control") else prev;
    var k1 := if e.meta then Add(k0, "Meta") else k0;
    var k2 := if e.alt then Add(k1, "Alt") else k1;
    var k3 := if e.shift then Add(k2, "Shift") else k2;
    var key := RecordedKey(e.key);
    if !IsModifierKey(key) then Add(k3, key) else k3
  }

  predicate HasModifier(keys: seq<string>) {
    "Control" in keys || "Meta" in keys || "Alt" in keys || "Shift" in keys
  }

  predicate HasKey(keys: seq<string>) {
    exists i :: 0 <= i < |keys| && !IsModifierKey(keys[i])
  }

  class HotkeyRecorder {
    var isRecording: bool
    var currentKeys: seq<string>

    predicate Valid()
      reads this
    {
      Distinct(currentKeys) && (!isRecording ==> currentKeys == [])
    }

    constructor ()
      ensures Valid() && !isRecording && currentKeys == []
    {
      isRecording := false;
      currentKeys := [];
    }

    /** A click starts recording with no key held, unless disabled. */
    method Click(disabled: bool)
      requires Valid()
      modifies this
      ensures Valid()
      ensures disabled ==> isRecording == old(isRecording) && currentKeys == old(currentKeys)
      ensures !disabled ==> isRecording && currentKeys == []
    {
      if disabled {
        return;
      }
      isRecording := true;
      currentKeys := [];
    }

    /** "Annuler" stops recording and forgets the keys held. */
    method Cancel()
      modifies this
      ensures Valid() && !isRecording && currentKeys == []
    {
      isRecording := false;
      currentKeys := [];
    }

    /** Key-down adds the modifiers flagged and the key itself unless it is
      a modifier; it is ignored unless recording. */
    method KeyDown(e: KeyEvent)
      requires Valid()
      modifies this
      ensures Valid()
      ensures isRecording == old(isRecording)
      ensures currentKeys == if old(isRecording) then KeyDownKeys(old(currentKeys), e) else old(currentKeys)
    {
      if !isRecording {
        return;
      }
      currentKeys := KeyDownKeys(currentKeys, e);
    }

    /** Key-up commits the formatted keys, stops recording and clears the
      keys when a modifier and a regular key are held; otherwise recording
      goes on. Returns the value handed to `onChange`, if any. */
    method KeyUp() returns (committed: Option<string>)
      requires Valid()
      modifies this
      ensures Valid()
      ensures committed.Some? <==> old(isRecording) && HasModifier(old(currentKeys)) && HasKey(old(currentKeys))
      ensures committed.Some? ==> committed.value == Format(old(currentKeys)) && !isRecording && currentKeys == []
      ensures committed.None? ==> isRecording == old(isRecording) && currentKeys == old(currentKeys)
    {
      committed := None;
      if !isRecording {
        return;
      }
      var hasModifier := "Control" in currentKeys || "Meta" in currentKeys ||
                         "Alt" in currentKeys || "Shift" in currentKeys;
      var hasKey := HasKey(currentKeys);
      if hasModifier && hasKey {
        var formatted := FormatHotkey(currentKeys);
        committed := Some(formatted);
        isRecording := false;
        currentKeys := [];
      }
    }
  }

  // ---------------------------------------------------------------------
  // Round trip with the hotkey parser

  /** The parser's modifier for a browser modifier key name. */
  function ModifierOfKey(key: string): Modifier
    requires IsModifierKey(key)
  {
    if key == "Control" then Control
    else if key == "Meta" then Meta
    else if key == "Alt" then Alt
    else Shift
  }

  /** The modifiers held, as the parser names them. */
  function HeldModifiers(keys: seq<string>): set<Modifier> {
    set i | 0 <= i < |keys| && IsModifierKey(keys[i]) :: ModifierOfKey(keys[i])
  }

  /** A classification that reads the four labels as their modifiers. */
  predicate ReadsLabels(cls: string -> Option<Modifier>) {
    cls("Ctrl") == Some(Control) && cls("Alt") == Some(Alt) &&
    cls("Shift") == Some(Shift) && cls("Cmd") == Some(Meta)
  }

  lemma ParserReadsLabels(macos: bool)
    ensures ReadsLabels(Classifier(macos))
  {
    CtrlToken(macos);
    AltToken(macos);
    ShiftToken(macos);
    CmdToken(macos);
  }

  lemma UpperKeepsPlus(t: string)
    requires '+' !in t
    ensures '+' !in Upper(t)
  {
    forall i | 0 <= i < |t| ensures Upper(t)[i] != '+' {
      assert t[i] != '+';
    }
  }

  function LabelOf(m: Modifier): string {
    match m
    case Control => "Ctrl"
    case Alt => "Alt"
    case Shift => "Shift"
    case Meta => "Cmd"
  }

  function KeyOf(m: Modifier): string {
    match m
    case Control => "Control"
    case Alt => "Alt"
    case Shift => "Shift"
    case Meta => "Meta"
  }

  lemma NamedIsHeld(keys: seq<string>, cls: string -> Option<Modifier>, m: Modifier)
    requires ReadsLabels(cls)
    requires Names(Ordered(Labels(keys)), cls, m)
    ensures m in HeldModifiers(keys)
  {
    var o := Ordered(Labels(keys));
    var j :| 0 <= j < |o| && cls(o[j]) == Some(m);
    assert o[j] in Labels(keys);
    LabelsOf(keys, o[j]);
    var i :| 0 <= i < |keys| && ModifierLabel(keys[i]) == Some(o[j]);
    assert ModifierOfKey(keys[i]) == m;
  }

  lemma HeldIsNamed(keys: seq<string>, cls: string -> Option<Modifier>, m: Modifier)
    requires ReadsLabels(cls)
    requires m in HeldModifiers(keys)
    ensures Names(Ordered(Labels(keys)), cls, m)
  {
    var o := Ordered(Labels(keys));
    var name := LabelOf(m);
    var i :| 0 <= i < |keys| && IsModifierKey(keys[i]) && ModifierOfKey(keys[i]) == m;
    assert ModifierLabel(keys[i]) == Some(name);
    LabelsOf(keys, name);
    assert name in o;
    var j :| 0 <= j < |o| && o[j] == name;
    assert cls(o[j]) == Some(m);
  }

  /** The label tokens name exactly the modifiers held. */
  lemma OrderedNames(keys: seq<string>, cls: string -> Option<Modifier>, m: Modifier)
    requires ReadsLabels(cls)
    ensures Names(Ordered(Labels(keys)), cls, m) <==> m in HeldModifiers(keys)
  {
    if Names(Ordered(Labels(keys)), cls, m) {
      NamedIsHeld(keys, cls, m);
    }
    if m in HeldModifiers(keys) {
      HeldIsNamed(keys, cls, m);
    }
  }

  /** The fold over a formatted hotkey with one regular key. */
  lemma FoldOfFormat(keys: seq<string>, k: nat, cls: string -> Option<Modifier>, key: string -> Option<Code>)
    requires k < |keys| && !IsModifierKey(keys[k])
    requires forall j :: 0 <= j < |keys| && j != k ==> IsModifierKey(keys[j])
    requires ReadsLabels(cls) && cls(Upper(keys[k])).None?
    ensures Fold(Ordered(Labels(keys)) + [Upper(keys[k])], cls, key) ==
            Parsed(HeldModifiers(keys), key(Upper(keys[k])))
  {
    var o := Ordered(Labels(keys));
    var parts := o + [Upper(keys[k])];
    assert LastKeyPart(parts, cls) == Some(|parts| - 1);
    FoldKey(parts, cls, key);
    forall m ensures m in Fold(parts, cls, key).mods <==> m in HeldModifiers(keys) {
      FoldMods(parts, cls, key, m);
      OrderedNames(keys, cls, m);
      NamesBeforeKey(o, Upper(keys[k]), cls, m);
    }
    assert Fold(parts, cls, key).mods == HeldModifiers(keys);
  }

  /** A token that names no modifier adds none. */
  lemma NamesBeforeKey(o: seq<string>, x: string, cls: string -> Option<Modifier>, m: Modifier)
    requires cls(x).None?
    ensures Names(o + [x], cls, m) <==> Names(o, cls, m)
  {
    if Names(o + [x], cls, m) {
      var i :| 0 <= i < |o + [x]| && cls((o + [x])[i]) == Some(m);
      assert i < |o| && (o + [x])[i] == o[i];
    }
    if Names(o, cls, m) {
      var i :| 0 <= i < |o| && cls(o[i]) == Some(m);
      assert (o + [x])[i] == o[i];
    }
  }

  /** Some modifier is held. */
  lemma HeldNotEmpty(keys: seq<string>)
    requires HasModifier(keys)
    ensures HeldModifiers(keys) != {}
  {
    var i :| 0 <= i < |keys| && IsModifierKey(keys[i]);
    assert ModifierOfKey(keys[i]) in HeldModifiers(keys);
  }

  /** A committed hotkey with one regular key is the label tokens and
      that key, joined by '+', none of them holding a '+'. */
  lemma FormatParts(keys: seq<string>, k: nat)
    requires k < |keys| && !IsModifierKey(keys[k])
    requires forall j :: 0 <= j < |keys| && j != k ==> IsModifierKey(keys[j])
    requires '+' !in keys[k]
    ensures var parts := Ordered(Labels(keys)) + [Upper(keys[k])];
            Format(keys) == Join(parts, "+") &&
            forall j :: 0 <= j < |parts| ==> '+' !in parts[j]
  {
    SingleRegularKey(keys, k);
    UpperKeepsPlus(keys[k]);
    OrderedHasNoPlus(Labels(keys));
    NoPlusParts(Ordered(Labels(keys)), Upper(keys[k]));
  }

  /** No label token holds a '+'. */
  lemma OrderedHasNoPlus(labels: seq<string>)
    ensures forall j :: 0 <= j < |Ordered(labels)| ==> '+' !in Ordered(labels)[j]
  {
    var o := Ordered(labels);
    forall j | 0 <= j < |o| ensures '+' !in o[j] {
      assert o[j] in o;
      LabelHasNoPlus(o[j]);
    }
  }

  lemma LabelHasNoPlus(w: string)
    requires w in {"Ctrl", "Alt", "Shift", "Cmd"}
    ensures '+' !in w
  {
  }

  lemma NoPlusParts(o: seq<string>, u: string)
    requires forall j :: 0 <= j < |o| ==> '+' !in o[j]
    requires '+' !in u
    ensures forall j :: 0 <= j < |o + [u]| ==> '+' !in (o + [u])[j]
  {
  }

  /** A committed hotkey with one regular key that the parser knows parses
      back to the modifiers held and that key. */
  lemma FormatThenParse(keys: seq<string>, k: nat, macos: bool)
    requires k < |keys| && !IsModifierKey(keys[k])
    requires forall j :: 0 <= j < |keys| && j != k ==> IsModifierKey(keys[j])
    requires HasModifier(keys)
    requires '+' !in keys[k] && KeyCode(keys[k]).Some?
    ensures ParseSpec(Format(keys), macos) == Some(Shortcut(Some(HeldModifiers(keys)), KeyCode(keys[k]).value))
  {
    var cls := Classifier(macos);
    var u := Upper(keys[k]);
    var parts := Ordered(Labels(keys)) + [u];
    FormatParts(keys, k);
    ParseJoined(parts, macos);
    KeyCodeOfUpper(keys[k]);
    KeyTokenIsNotModifier(u, macos);
    ParserReadsLabels(macos);
    FoldOfFormat(keys, k, cls, KeyCode);
    HeldNotEmpty(keys);
    assert ParseParts(parts, macos) == Build(Parsed(HeldModifiers(keys), KeyCode(u)));
  }

  /** The '+' key recorded with Shift formats as "Shift++". */
  lemma PlusKeyFormat()
    ensures Format(["Shift", "+"]) == "Shift++"
  {
    assert Labels(["Shift", "+"]) == ["Shift"] by {
      assert ["Shift", "+"][..1] == ["Shift"];
      assert ["Shift"][..0] == [];
    }
    assert RegularKeys(["Shift", "+"]) == ["+"] by {
      assert ["Shift", "+"][..1] == ["Shift"];
      assert ["Shift"][..0] == [];
      assert Upper("+") == "+";
    }
    assert Ordered(["Shift"]) == ["Shift"];
    assert Join(["Shift", "+"], "+") == "Shift" + "+" + "+";
  }

  lemma ShiftPlusParts()
    ensures Split("Shift++", '+') == ["Shift", "", ""]
  {
    var parts := ["Shift", "", ""];
    JoinThree("Shift", "", "", "+");
    assert Join(parts, "+") == "Shift++";
    SplitJoin(parts, '+');
  }

  lemma ShiftPlusPlusRejected(macos: bool)
    ensures ParseParts(["Shift", "", ""], macos) == None
  {
    var parts := ["Shift", "", ""];
    var cls := Classifier(macos);
    EmptyToken(macos);
    assert cls(parts[2]) == None;
    assert LastKeyPart(parts, cls) == Some(2);
    UnknownLastKeyNone(parts, macos);
  }

  /** ... and the parser rejects "Shift++": its last token is empty. */
  lemma PlusKeyNotParsed(macos: bool)
    ensures ParseSpec("Shift++", macos) == None
  {
    ShiftPlusParts();
    ShiftPlusPlusRejected(macos);
  }
}
