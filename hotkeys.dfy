/** Parsing of hotkey strings such as "Ctrl+Shift+R" into a global shortcut:
    a set of modifiers and one key code (src-tauri/src/hotkeys.rs). */
module Hotkeys {
  import opened Wrappers
  import opened Text

  datatype Modifier = Control | Meta | Alt | Shift

  /** The key codes the parser knows: letters A–Z, digits 0–9, five named
      keys and the function keys F1–F12. */
  datatype Code =
    | Letter(letter: char)
    | Digit(digit: char)
    | Space
    | Enter
    | Tab
    | Escape
    | Backspace
    | Delete
    | Function(number: nat)

  predicate ValidCode(c: Code) {
    match c
    case Letter(l) => 'A' <= l <= 'Z'
    case Digit(d) => '0' <= d <= '9'
    case Function(n) => 1 <= n <= 12
    case _ => true
  }

  /** A global shortcut as built by the parser: `None` stands for "built
      without a modifier set". */
  datatype Shortcut = Shortcut(mods: Option<set<Modifier>>, code: Code)

  /** The modifier a trimmed, lower-cased token names. "commandorcontrol" is
      Meta on macOS and Control on every other platform. */
  function ModifierOf(token: string, macos: bool): Option<Modifier> {
    if token == "ctrl" || token == "control" then Some(Control)
    else if token == "cmd" || token == "command" || token == "meta" then Some(Meta)
    else if token == "commandorcontrol" then Some(if macos then Meta else Control)
    else if token == "alt" || token == "option" then Some(Alt)
    else if token == "shift" then Some(Shift)
    else None
  }

  /** "commandorcontrol" follows the platform, and each modifier is named
      only by its own tokens. */
  lemma ModifierTokens(token: string, macos: bool)
    ensures token == "commandorcontrol" ==> ModifierOf(token, macos) == Some(if macos then Meta else Control)
    ensures ModifierOf(token, macos) == Some(Control) ==> token in {"ctrl", "control", "commandorcontrol"}
    ensures ModifierOf(token, macos) == Some(Meta) ==> token in {"cmd", "command", "meta", "commandorcontrol"}
    ensures ModifierOf(token, macos) == Some(Alt) ==> token in {"alt", "option"}
    ensures ModifierOf(token, macos) == Some(Shift) ==> token == "shift"
  {
  }

  /** Modifier tokens are compared trimmed and lower-cased. */
  function PartModifier(part: string, macos: bool): Option<Modifier> {
    ModifierOf(Lower(Trim(part)), macos)
  }

  /** The key a token names, compared upper-cased and NOT trimmed. */
  function KeyCode(part: string): (r: Option<Code>)
    ensures r.Some? ==> ValidCode(r.value)
  {
    var u := Upper(part);
    if |u| == 1 && 'A' <= u[0] <= 'Z' then Some(Letter(u[0]))
    else if |u| == 1 && '0' <= u[0] <= '9' then Some(Digit(u[0]))
    else if u == "SPACE" then Some(Space)
    else if u == "ENTER" || u == "RETURN" then Some(Enter)
    else if u == "TAB" then Some(Tab)
    else if u == "ESCAPE" || u == "ESC" then Some(Escape)
    else if u == "BACKSPACE" then Some(Backspace)
    else if u == "DELETE" then Some(Delete)
    else if |u| == 2 && u[0] == 'F' && '1' <= u[1] <= '9' then Some(Function(u[1] as int - '0' as int))
    else if u == "F10" then Some(Function(10))
    else if u == "F11" then Some(Function(11))
    else if u == "F12" then Some(Function(12))
    else None
  }

  /** The canonical (upper-case) token of a key code. */
  function CodeName(c: Code): string {
    match c
    case Letter(l) => [l]
    case Digit(d) => [d]
    case Space => "SPACE"
    case Enter => "ENTER"
    case Tab => "TAB"
    case Escape => "ESCAPE"
    case Backspace => "BACKSPACE"
    case Delete => "DELETE"
    case Function(n) =>
      if n < 10 then ['F', ('0' as int + n) as char]
      else if n == 10 then "F10" else if n == 11 then "F11" else "F12"
  }

  /** Every key code is recognised from its canonical token. */
  lemma KeyCodeOfName(c: Code)
    requires ValidCode(c)
    ensures KeyCode(CodeName(c)) == Some(c)
  {
    var u := Upper(CodeName(c));
    match c {
      case Letter(l) => assert u == [l];
      case Digit(d) => assert u == [d];
      case Function(n) =>
        if n < 10 {
          assert u == CodeName(c);
        } else {
          assert u == CodeName(c);
        }
      case _ => assert u == CodeName(c);
    }
  }

  lemma UpperOfLowerChar(c: char)
    ensures UpperChar(LowerChar(c)) == UpperChar(c)
  {
  }

  /** Key tokens are case-insensitive: tokens equal up to case name the
      same key (or none). */
  lemma KeyCodeIgnoresCase(a: string, b: string)
    requires Lower(a) == Lower(b)
    ensures KeyCode(a) == KeyCode(b)
  {
    assert |a| == |b|;
    forall i | 0 <= i < |a| ensures Upper(a)[i] == Upper(b)[i] {
      assert Lower(a)[i] == Lower(b)[i];
      UpperOfLowerChar(a[i]);
      UpperOfLowerChar(b[i]);
    }
    assert Upper(a) == Upper(b);
  }

  lemma LowerOfUpperChar(c: char)
    ensures LowerChar(UpperChar(c)) == LowerChar(c)
  {
  }

  lemma UpperIdempotent(s: string)
    ensures Upper(Upper(s)) == Upper(s)
  {
    forall i | 0 <= i < |s| ensures Upper(Upper(s))[i] == Upper(s)[i] {
      var c := s[i];
      assert UpperChar(UpperChar(c)) == UpperChar(c);
    }
  }

  /** Upper-casing a token does not change the key it names. */
  lemma KeyCodeOfUpper(t: string)
    ensures KeyCode(Upper(t)) == KeyCode(t)
  {
    UpperIdempotent(t);
  }

  /** The names the key table accepts, upper-cased. */
  predicate KeyName(u: string) {
    (|u| == 1 && ('A' <= u[0] <= 'Z' || '0' <= u[0] <= '9')) ||
    (|u| == 2 && u[0] == 'F' && '1' <= u[1] <= '9') ||
    u in {"SPACE", "ENTER", "RETURN", "TAB", "ESCAPE", "ESC", "BACKSPACE", "DELETE", "F10", "F11", "F12"}
  }

  lemma KeyCodeName(t: string)
    ensures KeyCode(t).Some? <==> KeyName(Upper(t))
  {
  }

  lemma LowerOfUpper(t: string)
    ensures Lower(Upper(t)) == Lower(t)
  {
    forall i | 0 <= i < |t| ensures Lower(Upper(t))[i] == Lower(t)[i] {
      LowerOfUpperChar(t[i]);
    }
  }

  /** The modifier words have lengths 3, 4, 5, 6, 7 and 16; the key names
      of lengths 3, 5 and 6 differ from them in one letter. */
  lemma KeyNameNotModifierWord(u: string, macos: bool)
    requires KeyName(u)
    ensures ModifierOf(Lower(u), macos).None?
  {
    var l := Lower(u);
    assert |l| == |u|;
    if |u| == 3 {
      assert u[0] in {'T', 'E', 'F'};
      assert l[0] in {'t', 'e', 'f'};
    } else if |u| == 5 {
      assert u[1] in {'P', 'N'};
      assert l[1] in {'p', 'n'};
    } else if |u| == 6 {
      assert u[0] in {'R', 'E', 'D'};
      assert l[0] in {'r', 'e', 'd'};
    }
  }

  /** No key token is also a modifier token, so a key is never swallowed
      as a modifier. */
  lemma KeyTokenIsNotModifier(t: string, macos: bool)
    requires KeyCode(t).Some?
    ensures PartModifier(t, macos).None?
  {
    var u := Upper(t);
    KeyCodeName(t);
    assert !IsWhite(u[0]) && !IsWhite(u[|u| - 1]);
    assert Trimmed(t);
    TrimOfTrimmed(t);
    LowerOfUpper(t);
    KeyNameNotModifierWord(u, macos);
  }

  /** Key tokens are not trimmed: a key written with a leading space is
      not recognised. */
  lemma SpacedKeyRejected(c: Code)
    requires ValidCode(c)
    ensures KeyCode(" " + CodeName(c)) == None
  {
    var u := Upper(" " + CodeName(c));
    assert u[0] == ' ';
    assert |u| == 1 + |CodeName(c)|;
  }

  /** What the parser accumulates: the OR of the modifiers seen and the
      key code of the last non-modifier token. */
  datatype Parsed = Parsed(mods: set<Modifier>, key: Option<Code>)

  /** One iteration: a token `cls` classifies as a modifier is OR-ed in,
      any other token overwrites the key code with `key` of it. The fold is
      stated for any classification so that its lemmas do not depend on the
      token tables. */
  function Step(acc: Parsed, part: string, cls: string -> Option<Modifier>,
                key: string -> Option<Code>): Parsed {
    match cls(part)
    case Some(m) => acc.(mods := acc.mods + {m})
    case None => acc.(key := key(part))
  }

  /** The loop over the parts, as a left fold. */
  function Fold(parts: seq<string>, cls: string -> Option<Modifier>,
                key: string -> Option<Code>): Parsed {
    if parts == [] then Parsed({}, None)
    else Step(Fold(parts[..|parts| - 1], cls, key), parts[|parts| - 1], cls, key)
  }

  /** The token classification `parse_hotkey` uses on a platform. */
  function Classifier(macos: bool): string -> Option<Modifier> {
    part => PartModifier(part, macos)
  }

  /** Building the shortcut: none without a key; no modifier set when no
      modifier was seen. */
  function Build(p: Parsed): (r: Option<Shortcut>)
    ensures r.None? <==> p.key.None?
    ensures r.Some? ==> r.value.code == p.key.value
    ensures r.Some? ==> (r.value.mods.None? <==> p.mods == {})
    ensures r.Some? && r.value.mods.Some? ==> r.value.mods.value == p.mods
  {
    match p.key
    case None => None
    case Some(code) => Some(Shortcut(if p.mods == {} then None else Some(p.mods), code))
  }

  function ParseParts(parts: seq<string>, macos: bool): Option<Shortcut> {
    Build(Fold(parts, Classifier(macos), KeyCode))
  }

  /** `parse_hotkey` as a function. `split('+')` never yields an empty list,
      so the source's empty-list check never fires. */
  function ParseSpec(hotkey: string, macos: bool): Option<Shortcut> {
    ParseParts(Split(hotkey, '+'), macos)
  }

  /** `parse_hotkey`; `macos` is the platform it was compiled for. */
  method ParseHotkey(hotkey: string, macos: bool) returns (r: Option<Shortcut>)
    ensures r == ParseSpec(hotkey, macos)
  {
    var parts := Split(hotkey, '+');
    var modifiers: set<Modifier> := {};
    var keyCode: Option<Code> := None;
    for i := 0 to |parts|
      invariant Parsed(modifiers, keyCode) == Fold(parts[..i], Classifier(macos), KeyCode)
    {
      var part := parts[i];
      assert parts[..i + 1][..i] == parts[..i];
      match ModifierOf(Lower(Trim(part)), macos) {
        case Some(m) => modifiers := modifiers + {m};
        case None => keyCode := KeyCode(part);
      }
    }
    assert parts[..|parts|] == parts;
    match keyCode {
      case None => r := None;
      case Some(code) =>
        if modifiers == {} {
          r := Some(Shortcut(None, code));
        } else {
          r := Some(Shortcut(Some(modifiers), code));
        }
    }
  }

  // ---------------------------------------------------------------------
  // What the fold computes

  /** Some token of `parts` names modifier `m`. */
  predicate Names(parts: seq<string>, cls: string -> Option<Modifier>, m: Modifier) {
    exists i :: 0 <= i < |parts| && cls(parts[i]) == Some(m)
  }

  /** The modifier set is exactly the modifiers some token names: order and
      repetition do not matter. */
  lemma {:induction false} FoldMods(parts: seq<string>, cls: string -> Option<Modifier>,
                                    key: string -> Option<Code>, m: Modifier)
    ensures m in Fold(parts, cls, key).mods <==> Names(parts, cls, m)
  {
    if parts != [] {
      var init := parts[..|parts| - 1];
      FoldMods(init, cls, key, m);
      assert forall i :: 0 <= i < |init| ==> init[i] == parts[i];
    }
  }

  /** Index of the last token that is not a modifier, if any. */
  function LastKeyPart(parts: seq<string>, cls: string -> Option<Modifier>): (r: Option<nat>)
    ensures r.None? <==> forall i :: 0 <= i < |parts| ==> cls(parts[i]).Some?
    ensures r.Some? ==> r.value < |parts| && cls(parts[r.value]).None?
    ensures r.Some? ==> forall j :: r.value < j < |parts| ==> cls(parts[j]).Some?
  {
    if parts == [] then None
    else if cls(parts[|parts| - 1]).None? then Some(|parts| - 1)
    else
      var r := LastKeyPart(parts[..|parts| - 1], cls);
      assert forall i :: 0 <= i < |parts| - 1 ==> parts[..|parts| - 1][i] == parts[i];
      r
  }

  /** The key of the last non-modifier token, if there is one. */
  function LastKey(parts: seq<string>, cls: string -> Option<Modifier>,
                   key: string -> Option<Code>): Option<Code> {
    match LastKeyPart(parts, cls)
    case None => None
    case Some(i) => key(parts[i])
  }

  /** The key code is decided by the last non-modifier token alone; with no
      such token there is none. */
  lemma {:induction false} FoldKey(parts: seq<string>, cls: string -> Option<Modifier>,
                                   key: string -> Option<Code>)
    ensures Fold(parts, cls, key).key == LastKey(parts, cls, key)
  {
    if parts != [] {
      var init := parts[..|parts| - 1];
      FoldKey(init, cls, key);
      if cls(parts[|parts| - 1]).Some? {
        assert LastKeyPart(parts, cls) == LastKeyPart(init, cls);
        match LastKeyPart(init, cls) {
          case None =>
          case Some(i) => assert parts[i] == init[i];
        }
      }
    }
  }

  /** Two token lists naming the same modifiers and the same last key parse
      alike, whatever the order or repetition of their modifier tokens. */
  lemma SameModifiersSameFold(a: seq<string>, b: seq<string>, cls: string -> Option<Modifier>,
                              key: string -> Option<Code>)
    requires forall m :: Names(a, cls, m) <==> Names(b, cls, m)
    requires LastKey(a, cls, key) == LastKey(b, cls, key)
    ensures Fold(a, cls, key) == Fold(b, cls, key)
  {
    forall m: Modifier ensures m in Fold(a, cls, key).mods <==> m in Fold(b, cls, key).mods {
      FoldMods(a, cls, key, m);
      FoldMods(b, cls, key, m);
    }
    assert Fold(a, cls, key).mods == Fold(b, cls, key).mods;
    FoldKey(a, cls, key);
    FoldKey(b, cls, key);
  }

  /** The last key token of a concatenation lies in its second half if
      that has one. */
  lemma {:induction false} LastKeyAppend(p: seq<string>, q: seq<string>, cls: string -> Option<Modifier>)
    ensures LastKeyPart(p + q, cls) ==
            match LastKeyPart(q, cls)
            case Some(j) => Some(|p| + j)
            case None => LastKeyPart(p, cls)
  {
    if q == [] {
      assert p + q == p;
    } else {
      var pq := p + q;
      assert pq[|pq| - 1] == q[|q| - 1];
      if cls(q[|q| - 1]).Some? {
        assert pq[..|pq| - 1] == p + q[..|q| - 1];
        LastKeyAppend(p, q[..|q| - 1], cls);
      }
    }
  }

  lemma LastKeyUnderSwap(pre: seq<string>, x: string, y: string, post: seq<string>,
                         cls: string -> Option<Modifier>)
    requires cls(x).Some? && cls(y).Some?
    ensures LastKeyPart(pre + [x, y] + post, cls).None? <==> LastKeyPart(pre + [y, x] + post, cls).None?
    ensures LastKeyPart(pre + [x, y] + post, cls).Some? ==>
            (pre + [x, y] + post)[LastKeyPart(pre + [x, y] + post, cls).value] ==
            (pre + [y, x] + post)[LastKeyPart(pre + [y, x] + post, cls).value]
  {
    var a := pre + [x, y] + post;
    var b := pre + [y, x] + post;
    LastKeyAppend(pre + [x, y], post, cls);
    LastKeyAppend(pre + [y, x], post, cls);
    match LastKeyPart(post, cls) {
      case Some(j) =>
        assert a[|pre| + 2 + j] == post[j] && b[|pre| + 2 + j] == post[j];
      case None =>
        LastKeyAppend(pre, [x, y], cls);
        LastKeyAppend(pre, [y, x], cls);
        assert LastKeyPart([x, y], cls) == None;
        assert LastKeyPart([y, x], cls) == None;
        match LastKeyPart(pre, cls) {
          case None =>
          case Some(i) => assert a[i] == pre[i] && b[i] == pre[i];
        }
    }
  }

  /** Swapping two adjacent modifier tokens changes nothing. */
  lemma SwapModifiers(pre: seq<string>, x: string, y: string, post: seq<string>, macos: bool)
    requires PartModifier(x, macos).Some? && PartModifier(y, macos).Some?
    ensures ParseParts(pre + [x, y] + post, macos) == ParseParts(pre + [y, x] + post, macos)
  {
    SwapFold(pre, x, y, post, Classifier(macos), KeyCode);
  }

  /** The fold under a swap of two adjacent tokens `cls` takes for
      modifiers. */
  lemma SwapFold(pre: seq<string>, x: string, y: string, post: seq<string>,
                 cls: string -> Option<Modifier>, key: string -> Option<Code>)
    requires cls(x).Some? && cls(y).Some?
    ensures Fold(pre + [x, y] + post, cls, key) == Fold(pre + [y, x] + post, cls, key)
  {
    var a := pre + [x, y] + post;
    var b := pre + [y, x] + post;
    var n := |pre|;
    forall m ensures Names(a, cls, m) <==> Names(b, cls, m) {
      if i :| 0 <= i < |a| && cls(a[i]) == Some(m) {
        var j := if i == n then n + 1 else if i == n + 1 then n else i;
        assert b[j] == a[i];
      }
      if i :| 0 <= i < |b| && cls(b[i]) == Some(m) {
        var j := if i == n then n + 1 else if i == n + 1 then n else i;
        assert a[j] == b[i];
      }
    }
    LastKeyUnderSwap(pre, x, y, post, cls);
    SameModifiersSameFold(a, b, cls, key);
  }

  lemma LastKeyUnderRepeat(pre: seq<string>, x: string, post: seq<string>,
                           cls: string -> Option<Modifier>)
    requires cls(x).Some?
    ensures LastKeyPart(pre + [x] + post, cls).None? <==> LastKeyPart(pre + [x, x] + post, cls).None?
    ensures LastKeyPart(pre + [x] + post, cls).Some? ==>
            (pre + [x] + post)[LastKeyPart(pre + [x] + post, cls).value] ==
            (pre + [x, x] + post)[LastKeyPart(pre + [x, x] + post, cls).value]
  {
    var a := pre + [x] + post;
    var b := pre + [x, x] + post;
    LastKeyAppend(pre + [x], post, cls);
    LastKeyAppend(pre + [x, x], post, cls);
    match LastKeyPart(post, cls) {
      case Some(j) =>
        assert a[|pre| + 1 + j] == post[j] && b[|pre| + 2 + j] == post[j];
      case None =>
        LastKeyAppend(pre, [x], cls);
        LastKeyAppend(pre, [x, x], cls);
        assert LastKeyPart([x], cls) == None;
        assert LastKeyPart([x, x], cls) == None;
        match LastKeyPart(pre, cls) {
          case None =>
          case Some(i) => assert a[i] == pre[i] && b[i] == pre[i];
        }
    }
  }

  /** Repeating a modifier token changes nothing. */
  lemma RepeatModifier(pre: seq<string>, x: string, post: seq<string>, macos: bool)
    requires PartModifier(x, macos).Some?
    ensures ParseParts(pre + [x] + post, macos) == ParseParts(pre + [x, x] + post, macos)
  {
    RepeatFold(pre, x, post, Classifier(macos), KeyCode);
  }

  /** The fold under the repetition of a token `cls` takes for a
      modifier. */
  lemma RepeatFold(pre: seq<string>, x: string, post: seq<string>,
                   cls: string -> Option<Modifier>, key: string -> Option<Code>)
    requires cls(x).Some?
    ensures Fold(pre + [x] + post, cls, key) == Fold(pre + [x, x] + post, cls, key)
  {
    var a := pre + [x] + post;
    var b := pre + [x, x] + post;
    var n := |pre|;
    forall m ensures Names(a, cls, m) <==> Names(b, cls, m) {
      if i :| 0 <= i < |a| && cls(a[i]) == Some(m) {
        var j := if i <= n then i else i + 1;
        assert b[j] == a[i];
      }
      if i :| 0 <= i < |b| && cls(b[i]) == Some(m) {
        var j := if i <= n then i else i - 1;
        assert a[j] == b[i];
      }
    }
    LastKeyUnderRepeat(pre, x, post, cls);
    SameModifiersSameFold(a, b, cls, key);
  }

  /** A hotkey without any key token parses to nothing. */
  lemma NoKeyNoShortcut(parts: seq<string>, macos: bool)
    requires forall i :: 0 <= i < |parts| ==> PartModifier(parts[i], macos).Some?
    ensures ParseParts(parts, macos) == None
  {
    FoldKey(parts, Classifier(macos), KeyCode);
  }

  /** An unknown last key token makes the whole hotkey invalid, whatever
      key an earlier token named. */
  lemma UnknownLastKeyNone(parts: seq<string>, macos: bool)
    requires LastKeyPart(parts, Classifier(macos)).Some?
    requires KeyCode(parts[LastKeyPart(parts, Classifier(macos)).value]) == None
    ensures ParseParts(parts, macos) == None
  {
    FoldKey(parts, Classifier(macos), KeyCode);
  }

  /** The shortcut is there exactly when the last non-modifier token names
      a key; it carries that key and, when some token named one, the OR of
      the modifiers named. */
  lemma ParsePartsMeaning(parts: seq<string>, macos: bool)
    ensures ParseParts(parts, macos).Some? <==> LastKey(parts, Classifier(macos), KeyCode).Some?
    ensures ParseParts(parts, macos).Some? ==>
            ParseParts(parts, macos).value.code == LastKey(parts, Classifier(macos), KeyCode).value
    ensures forall m :: ParseParts(parts, macos).Some? && ParseParts(parts, macos).value.mods.Some? ==>
            (m in ParseParts(parts, macos).value.mods.value <==> Names(parts, Classifier(macos), m))
  {
    var cls := Classifier(macos);
    FoldKey(parts, cls, KeyCode);
    forall m ensures m in Fold(parts, cls, KeyCode).mods <==> Names(parts, cls, m) {
      FoldMods(parts, cls, KeyCode, m);
    }
  }

  // ---------------------------------------------------------------------
  // Whole strings

  /** The empty string has no key token. */
  lemma EmptyHotkey(macos: bool)
    ensures ParseSpec("", macos) == None
  {
    assert Split("", '+') == [""];
    assert KeyCode("") == None;
    assert Fold([""], Classifier(macos), KeyCode).key == None by {
      assert [""][..0] == [];
    }
  }

  /** A hotkey string made of the given tokens parses like the tokens. */
  lemma ParseJoined(parts: seq<string>, macos: bool)
    requires |parts| >= 1
    requires forall k :: 0 <= k < |parts| ==> '+' !in parts[k]
    ensures ParseSpec(Join(parts, "+"), macos) == ParseParts(parts, macos)
  {
    SplitJoin(parts, '+');
  }

  // ---------------------------------------------------------------------
  // Examples

  lemma CtrlToken(macos: bool)
    ensures PartModifier("Ctrl", macos) == Some(Control)
  {
    TrimOfTrimmed("Ctrl");
    LowerIs("Ctrl", "ctrl");
  }

  lemma ShiftToken(macos: bool)
    ensures PartModifier("Shift", macos) == Some(Shift)
  {
    TrimOfTrimmed("Shift");
    LowerIs("Shift", "shift");
  }

  lemma AltToken(macos: bool)
    ensures PartModifier("Alt", macos) == Some(Alt)
  {
    TrimOfTrimmed("Alt");
    LowerIs("Alt", "alt");
  }

  lemma CmdToken(macos: bool)
    ensures PartModifier("Cmd", macos) == Some(Meta)
  {
    TrimOfTrimmed("Cmd");
    LowerIs("Cmd", "cmd");
  }

  lemma CommandOrControlToken(macos: bool)
    ensures PartModifier("CommandOrControl", macos) == Some(if macos then Meta else Control)
  {
    TrimOfTrimmed("CommandOrControl");
    LowerIs("CommandOrControl", "commandorcontrol");
  }

  /** A token whose length no modifier word has is not a modifier. */
  lemma NotModifierByLength(t: string, macos: bool)
    requires Trimmed(t) && |t| !in {3, 4, 5, 6, 7, 16}
    ensures PartModifier(t, macos) == None
  {
    TrimOfTrimmed(t);
    assert |Lower(t)| == |t|;
  }

  lemma LetterToken()
    ensures PartModifier("R", false) == None && PartModifier("R", true) == None
    ensures KeyCode("R") == Some(Letter('R'))
  {
    NotModifierByLength("R", false);
    NotModifierByLength("R", true);
    var u := Upper("R");
    assert |u| == 1 && u[0] == 'R';
  }

  lemma SpaceToken()
    ensures PartModifier("Space", false) == None && PartModifier("Space", true) == None
    ensures KeyCode("Space") == Some(Space)
  {
    TrimOfTrimmed("Space");
    var l := Lower("Space");
    assert |l| == 5 && l[1] == 'p';
    assert l != "shift" by {
      assert "shift"[1] == 'h';
    }
    UpperIs("Space", "SPACE");
  }

  /** The empty token is neither a modifier nor a key. */
  lemma EmptyToken(macos: bool)
    ensures PartModifier("", macos) == None && KeyCode("") == None
  {
    assert Trim("") == "";
    assert Lower("") == "";
  }

  /** Three tokens fold to the modifiers of the first two and the key of
      the last when the last is the only key token. */
  lemma FoldThree(t0: string, t1: string, t2: string, cls: string -> Option<Modifier>,
                  key: string -> Option<Code>)
    requires cls(t0).Some? && cls(t1).Some? && cls(t2).None?
    ensures Fold([t0, t1, t2], cls, key) == Parsed({cls(t0).value, cls(t1).value}, key(t2))
  {
    var ts := [t0, t1, t2];
    assert ts[..2] == [t0, t1] && [t0, t1][..1] == [t0] && [t0][..0] == [];
    var p0 := Fold([t0], cls, key);
    assert p0 == Step(Fold([], cls, key), t0, cls, key);
    assert p0.mods == {} + {cls(t0).value} && p0.key == None;
    var p1 := Fold([t0, t1], cls, key);
    assert p1 == Step(p0, t1, cls, key);
    assert Fold(ts, cls, key) == Step(p1, t2, cls, key);
  }

  lemma JoinThree(a: string, b: string, c: string, sep: string)
    ensures Join([a, b, c], sep) == a + sep + b + sep + c
  {
    assert [a, b, c][1..] == [b, c] && [b, c][1..] == [c];
    assert Join([b, c], sep) == b + sep + c;
    assert Join([a, b, c], sep) == a + sep + (b + sep + c);
  }

  /** "Ctrl+Shift+R" is Control and Shift with the R key. */
  lemma CtrlShiftR(macos: bool)
    ensures ParseSpec("Ctrl+Shift+R", macos) == Some(Shortcut(Some({Control, Shift}), Letter('R')))
  {
    JoinThree("Ctrl", "Shift", "R", "+");
    assert "Ctrl" + "+" + "Shift" + "+" + "R" == "Ctrl+Shift+R";
    ParseJoined(["Ctrl", "Shift", "R"], macos);
    CtrlToken(macos);
    ShiftToken(macos);
    LetterToken();
    FoldThree("Ctrl", "Shift", "R", Classifier(macos), KeyCode);
  }

  lemma DefaultPushToTalkParts()
    ensures Split("CommandOrControl+Shift+Space", '+') == ["CommandOrControl", "Shift", "Space"]
  {
    var parts := ["CommandOrControl", "Shift", "Space"];
    JoinThree("CommandOrControl", "Shift", "Space", "+");
    assert "CommandOrControl" + "+" + "Shift" + "+" + "Space" == "CommandOrControl+Shift+Space";
    assert '+' !in parts[0] && '+' !in parts[1] && '+' !in parts[2];
    SplitJoin(parts, '+');
  }

  lemma DefaultPushToTalkFold(macos: bool)
    ensures ParseParts(["CommandOrControl", "Shift", "Space"], macos) ==
            Some(Shortcut(Some({if macos then Meta else Control, Shift}), Space))
  {
    var cls := Classifier(macos);
    CommandOrControlToken(macos);
    ShiftToken(macos);
    SpaceToken();
    assert cls("CommandOrControl") == Some(if macos then Meta else Control);
    assert cls("Shift") == Some(Shift);
    assert cls("Space") == None;
    FoldThree("CommandOrControl", "Shift", "Space", cls, KeyCode);
  }

  /** The default push-to-talk hotkey is Cmd+Shift+Space on macOS and
      Ctrl+Shift+Space elsewhere. */
  lemma DefaultPushToTalk(macos: bool)
    ensures ParseSpec("CommandOrControl+Shift+Space", macos) ==
            Some(Shortcut(Some({if macos then Meta else Control, Shift}), Space))
  {
    DefaultPushToTalkParts();
    DefaultPushToTalkFold(macos);
  }

  /** "Ctrl+Shift" has no key token. */
  lemma ModifiersOnly(macos: bool)
    ensures ParseSpec("Ctrl+Shift", macos) == None
  {
    ModifiersOnlyParts();
    CtrlToken(macos);
    ShiftToken(macos);
    NoKeyTwo("Ctrl", "Shift", macos);
  }

  /** Two modifier tokens and nothing else parse to nothing. */
  lemma NoKeyTwo(a: string, b: string, macos: bool)
    requires PartModifier(a, macos).Some? && PartModifier(b, macos).Some?
    ensures ParseParts([a, b], macos) == None
  {
    NoKeyNoShortcut([a, b], macos);
  }

  lemma ModifiersOnlyParts()
    ensures Split("Ctrl+Shift", '+') == ["Ctrl", "Shift"]
  {
    var parts := ["Ctrl", "Shift"];
    assert Join(parts, "+") == "Ctrl" + "+" + Join(["Shift"], "+") by {
      assert parts[1..] == ["Shift"];
    }
    assert "Ctrl" + "+" + "Shift" == "Ctrl+Shift";
    assert '+' !in parts[0] && '+' !in parts[1];
    SplitJoin(parts, '+');
  }
}
