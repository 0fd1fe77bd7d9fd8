/** The display string the onboarding shortcuts step shows for a hotkey
    (src/components/onboarding/ShortcutsStep.tsx): a chain of first-occurrence
    rewrites of the token names into symbols, then a space on each side of
    every '+'. */
module ShortcutsStep {
  import opened Wrappers
  import opened Text

  /** JavaScript's `s.replace(pattern, replacement)` with a string pattern:
      only the first occurrence is rewritten. */
  function ReplaceFirst(s: string, pattern: string, replacement: string): string {
    match Find(s, pattern)
    case None => s
    case Some(i) =>
      FindFromSpec(s, pattern, 0);
      s[..i] + replacement + s[i + |pattern|..]
  }

  /** Without an occurrence nothing changes; otherwise exactly the first
      occurrence is rewritten and everything after it, later occurrences
      included, is kept. */
  lemma ReplaceFirstSpec(s: string, pattern: string, replacement: string)
    ensures !Contains(s, pattern) ==> ReplaceFirst(s, pattern, replacement) == s
    ensures Contains(s, pattern) ==>
              exists i :: 0 <= i <= |s| - |pattern| && OccursAt(s, pattern, i) &&
                (forall j :: 0 <= j < i ==> !OccursAt(s, pattern, j)) &&
                ReplaceFirst(s, pattern, replacement) == s[..i] + replacement + s[i + |pattern|..]
  {
    FindIffContains(s, pattern);
    FindFromSpec(s, pattern, 0);
    if Find(s, pattern).Some? {
      var i := Find(s, pattern).value;
      assert OccursAt(s, pattern, i) && forall j :: 0 <= j < i ==> !OccursAt(s, pattern, j);
      assert ReplaceFirst(s, pattern, replacement) == s[..i] + replacement + s[i + |pattern|..];
    }
  }

  /** The pattern at the very start is the occurrence rewritten. */
  lemma ReplaceAtStart(pattern: string, rest: string, replacement: string)
    ensures ReplaceFirst(pattern + rest, pattern, replacement) == replacement + rest
  {
    var s := pattern + rest;
    assert OccursAt(s, pattern, 0) by {
      assert s[0..|pattern|] == pattern;
    }
    FindFromFirst(s, pattern, 0, 0);
    assert s[..0] + replacement + s[|pattern|..] == replacement + rest by {
      assert s[|pattern|..] == rest;
    }
  }

  /** `s.replace(/\+/g, ' + ')`: every '+' gets a space on each side. */
  function SpacePlus(s: string): string {
    if s == [] then []
    else (if s[0] == '+' then " + " else [s[0]]) + SpacePlus(s[1..])
  }

  /** Text without '+' is left as it is. */
  lemma {:induction false} SpacePlusWithoutPlus(s: string)
    requires '+' !in s
    ensures SpacePlus(s) == s
  {
    if s != [] {
      assert '+' !in s[1..] by {
        assert forall k :: 0 <= k < |s[1..]| ==> s[1..][k] == s[k + 1];
      }
      SpacePlusWithoutPlus(s[1..]);
      assert s == [s[0]] + s[1..];
    }
  }

  lemma {:induction false} SpacePlusAppend(a: string, b: string)
    ensures SpacePlus(a + b) == SpacePlus(a) + SpacePlus(b)
  {
    if a != [] {
      var head := if a[0] == '+' then " + " else [a[0]];
      assert SpacePlus(a) == head + SpacePlus(a[1..]);
      assert (a + b)[0] == a[0] && (a + b)[1..] == a[1..] + b;
      assert SpacePlus(a + b) == head + SpacePlus(a[1..] + b);
      SpacePlusAppend(a[1..], b);
    } else {
      assert a + b == b;
    }
  }

  /** Spacing the separators of joined pieces joins them with " + ". */
  lemma {:induction false} SpacePlusJoin(parts: seq<string>)
    requires forall k :: 0 <= k < |parts| ==> '+' !in parts[k]
    ensures SpacePlus(Join(parts, "+")) == Join(parts, " + ")
  {
    if |parts| == 1 {
      SpacePlusWithoutPlus(parts[0]);
    } else if |parts| > 1 {
      assert forall k :: 0 <= k < |parts[1..]| ==> parts[1..][k] == parts[k + 1];
      SpacePlusJoin(parts[1..]);
      SpacePlusJoinStep(parts);
    }
  }

  lemma SpacePlusJoinStep(parts: seq<string>)
    requires |parts| > 1 && '+' !in parts[0]
    requires SpacePlus(Join(parts[1..], "+")) == Join(parts[1..], " + ")
    ensures SpacePlus(Join(parts, "+")) == Join(parts, " + ")
  {
    JoinUnfold(parts, "+");
    JoinUnfold(parts, " + ");
    SpacePlusCons(parts[0], Join(parts[1..], "+"));
  }

  /** A piece without '+' followed by a '+' and the rest. */
  lemma SpacePlusCons(first: string, rest: string)
    requires '+' !in first
    ensures SpacePlus(first + ("+" + rest)) == first + (" + " + SpacePlus(rest))
  {
    SpacePlusAppend(first, "+" + rest);
    SpacePlusWithoutPlus(first);
    SpacePlusOfPlus(rest);
  }

  lemma SpacePlusOfPlus(rest: string)
    ensures SpacePlus("+" + rest) == " + " + SpacePlus(rest)
  {
    SpacePlusAppend("+", rest);
    assert SpacePlus("+") == " + ";
  }

  /** `formatHotkey` of the shortcuts step. "CommandOrControl" is rewritten
      before "Command" and "Control", so it becomes one symbol. */
  function DisplayHotkey(hotkey: string): string {
    var s1 := ReplaceFirst(hotkey, "CommandOrControl", "⌘");
    var s2 := ReplaceFirst(s1, "Command", "⌘");
    var s3 := ReplaceFirst(s2, "Control", "Ctrl");
    var s4 := ReplaceFirst(s3, "Shift", "⇧");
    var s5 := ReplaceFirst(s4, "Alt", "⌥");
    var s6 := ReplaceFirst(s5, "Space", "Espace");
    SpacePlus(s6)
  }

  /** A pattern whose first character is absent from `a` does not occur
      before the end of `a` in `a + rest`. */
  lemma NotBefore(a: string, rest: string, pattern: string)
    requires pattern != [] && pattern[0] !in a
    ensures forall j :: 0 <= j < |a| ==> !OccursAt(a + rest, pattern, j)
  {
    forall j | 0 <= j < |a| ensures !OccursAt(a + rest, pattern, j) {
      if j + |pattern| <= |a + rest| {
        assert (a + rest)[j..j + |pattern|][0] == a[j];
      }
    }
  }

  /** For every hotkey whose only capital C is that of one "CommandOrControl"
      token: the first three rules turn the token into the one symbol ⌘,
      and the "Command" and "Control" rules find nothing left to rewrite, so
      it never becomes "⌘OrControl" nor "CommandOrCtrl". */
  lemma CommandOrControlOneSymbol(a: string, b: string)
    requires 'C' !in a && 'C' !in b
    ensures var s1 := ReplaceFirst(a + "CommandOrControl" + b, "CommandOrControl", "⌘");
            ReplaceFirst(ReplaceFirst(s1, "Command", "⌘"), "Control", "Ctrl") == a + "⌘" + b
  {
    var p := "CommandOrControl";
    var s := a + p + b;
    assert s == a + (p + b);
    NotBefore(a, p + b, p);
    assert s[|a|..|a| + |p|] == p;
    FindFromFirst(s, p, 0, |a|);
    assert s[..|a|] == a && s[|a| + |p|..] == b;
    var s1 := a + "⌘" + b;
    assert ReplaceFirst(s, p, "⌘") == s1;
    assert 'C' !in s1;
    AbsentCharNoMatch(s1, "Command", 0);
    AbsentCharNoMatch(s1, "Control", 0);
  }

  // ---------------------------------------------------------------------
  // The default push-to-talk hotkey, step by step

  lemma DefaultStep1()
    ensures ReplaceFirst("CommandOrControl+Shift+Space", "CommandOrControl", "⌘") ==
            "⌘+Shift+Space"
  {
    var s := "CommandOrControl+Shift+Space";
    assert s[..16] == "CommandOrControl";
    assert s[16..] == "+Shift+Space";
    assert s == s[..16] + s[16..];
    ReplaceAtStart("CommandOrControl", "+Shift+Space", "⌘");
  }

  /** Neither "Command" nor "Control" is left once the first rule ran:
      their capital C is gone. */
  lemma DefaultSteps2And3()
    ensures ReplaceFirst("⌘+Shift+Space", "Command", "⌘") == "⌘+Shift+Space"
    ensures ReplaceFirst("⌘+Shift+Space", "Control", "Ctrl") == "⌘+Shift+Space"
  {
    assert 'C' !in "⌘+Shift+Space";
    AbsentCharNoMatch("⌘+Shift+Space", "Command", 0);
    AbsentCharNoMatch("⌘+Shift+Space", "Control", 0);
  }

  lemma DefaultStep4()
    ensures ReplaceFirst("⌘+Shift+Space", "Shift", "⇧") == "⌘+⇧+Space"
  {
    var t := "⌘+Shift+Space";
    assert t[2..7] == "Shift";
    assert t[0] != 'S' && t[1] != 'S';
    assert forall j :: 0 <= j < 2 ==> !OccursAt(t, "Shift", j) by {
      forall j | 0 <= j < 2 ensures !OccursAt(t, "Shift", j) {
        assert t[j..j + 5][0] == t[j];
      }
    }
    FindFromFirst(t, "Shift", 0, 2);
    assert t[..2] + "⇧" + t[7..] == "⌘+⇧+Space";
  }

  lemma DefaultStep5()
    ensures ReplaceFirst("⌘+⇧+Space", "Alt", "⌥") == "⌘+⇧+Space"
  {
    assert 'A' !in "⌘+⇧+Space";
    AbsentCharNoMatch("⌘+⇧+Space", "Alt", 0);
  }

  lemma DefaultStep6()
    ensures ReplaceFirst("⌘+⇧+Space", "Space", "Espace") == "⌘+⇧+Espace"
  {
    var t := "⌘+⇧+Space";
    assert t[4..9] == "Space";
    assert forall j :: 0 <= j < 4 ==> !OccursAt(t, "Space", j) by {
      forall j | 0 <= j < 4 ensures !OccursAt(t, "Space", j) {
        assert t[j..j + 5][0] == t[j];
      }
    }
    FindFromFirst(t, "Space", 0, 4);
    assert t[..4] + "Espace" + t[9..] == "⌘+⇧+Espace";
  }

  lemma DefaultStep7()
    ensures SpacePlus("⌘+⇧+Espace") == "⌘ + ⇧ + Espace"
  {
    var parts := ["⌘", "⇧", "Espace"];
    assert parts[1..] == ["⇧", "Espace"] && parts[1..][1..] == ["Espace"];
    assert Join(parts, "+") == "⌘+⇧+Espace";
    assert Join(parts, " + ") == "⌘ + ⇧ + Espace";
    SpacePlusJoin(parts);
  }

  /** "CommandOrControl+Shift+Space" is shown as "⌘ + ⇧ + Espace". */
  lemma DefaultPushToTalkDisplay()
    ensures DisplayHotkey("CommandOrControl+Shift+Space") == "⌘ + ⇧ + Espace"
  {
    DefaultStep1();
    DefaultSteps2And3();
    DefaultStep4();
    DefaultStep5();
    DefaultStep6();
    DefaultStep7();
  }
}
