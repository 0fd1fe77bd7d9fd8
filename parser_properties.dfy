/** What the voice-command parser promises: tidy output, the order and number
    of actions, mode gating of contextual phrases, and text that contains no
    command coming back unchanged. */
module VoiceParserProperties {
  import opened Wrappers
  import opened Text
  import opened Types
  import opened VoiceParser

  // ---------------------------------------------------------------------------
  // Whitespace cleanup

  /** Two adjacent characters that cleanup never leaves side by side: a double
      space, or a space next to a newline. */
  predicate BadPair(a: char, b: char) {
    (a == ' ' && (b == ' ' || b == '\n')) || (a == '\n' && b == ' ')
  }

  /** No double space and no space before or after a newline. */
  predicate Tidy(s: string) {
    forall k :: 0 <= k < |s| - 1 ==> !BadPair(s[k], s[k + 1])
  }

  function LastChar(s: string): char
    requires s != []
  {
    s[|s| - 1]
  }

  /** What the cleanup loop keeps true of its state. */
  predicate CleanInvariant(st: CleanState) {
    && Tidy(st.out)
    && !(st.prevWasSpace && st.prevWasNewline)
    && (st.out != [] && LastChar(st.out) == ' ' ==> st.prevWasSpace)
    && (st.out != [] && LastChar(st.out) == '\n' ==> st.prevWasSpace || st.prevWasNewline)
    && (st.prevWasNewline ==> st.out != [] && LastChar(st.out) == '\n')
    && (st.prevWasSpace ==> st.out != [] && (LastChar(st.out) == ' ' || LastChar(st.out) == '\n'))
  }

  lemma CleanStepPreserves(st: CleanState, c: char)
    requires CleanInvariant(st)
    ensures CleanInvariant(CleanStep(st, c))
  {
    var out := st.out;
    var next := CleanStep(st, c);
    if c == '\n' && st.prevWasSpace {
      var p := Pop(out);
      assert p == out[..|out| - 1];
      if |out| >= 2 {
        assert !BadPair(out[|out| - 2], out[|out| - 1]);
      }
      assert next.out == p + ['\n'];
      forall k | 0 <= k < |next.out| - 1
        ensures !BadPair(next.out[k], next.out[k + 1])
      {
        if k < |p| - 1 {
          assert next.out[k] == out[k] && next.out[k + 1] == out[k + 1];
        }
      }
    } else if c == '\n' {
      assert next.out == out + ['\n'];
      forall k | 0 <= k < |next.out| - 1
        ensures !BadPair(next.out[k], next.out[k + 1])
      {
        if k < |out| - 1 {
          assert next.out[k] == out[k] && next.out[k + 1] == out[k + 1];
        }
      }
    } else if c != ' ' || (!st.prevWasSpace && !st.prevWasNewline) {
      assert next.out == out + [c];
      forall k | 0 <= k < |next.out| - 1
        ensures !BadPair(next.out[k], next.out[k + 1])
      {
        if k < |out| - 1 {
          assert next.out[k] == out[k] && next.out[k + 1] == out[k + 1];
        }
      }
    }
  }

  lemma {:induction false} CleanRunInvariant(text: string)
    ensures CleanInvariant(CleanRun(text))
    decreases |text|
  {
    if text != [] {
      CleanRunInvariant(text[..|text| - 1]);
      CleanStepPreserves(CleanRun(text[..|text| - 1]), text[|text| - 1]);
    }
  }

  lemma TidySlice(s: string, i: nat, j: nat)
    requires Tidy(s) && i <= j <= |s|
    ensures Tidy(s[i..j])
  {
    forall k | 0 <= k < j - i - 1
      ensures !BadPair(s[i..j][k], s[i..j][k + 1])
    {
      assert s[i..j][k] == s[i + k] && s[i..j][k + 1] == s[i + k + 1];
    }
  }

  lemma TrimKeepsTidy(s: string)
    requires Tidy(s)
    ensures Tidy(Trim(s))
  {
    TidySlice(s, LeadingWhite(s), |s|);
    TidySlice(TrimStart(s), 0, TrailingEnd(TrimStart(s)));
  }

  /** The cleaned text is trimmed and has no double space and no space next
      to a newline. */
  lemma CleanSpecTidy(text: string)
    ensures Tidy(CleanSpec(text)) && Trimmed(CleanSpec(text))
  {
    CleanRunInvariant(text);
    TrimKeepsTidy(CleanRun(text).out);
    TrimIsTrimmed(CleanRun(text).out);
  }

  lemma {:induction false} CleanRunOfTidy(text: string)
    requires Tidy(text)
    ensures CleanRun(text) ==
      CleanState(text, text != [] && LastChar(text) == ' ', text != [] && LastChar(text) == '\n')
    decreases |text|
  {
    if text != [] {
      var init := text[..|text| - 1];
      TidySlice(text, 0, |text| - 1);
      CleanRunOfTidy(init);
      if |text| >= 2 {
        assert !BadPair(text[|text| - 2], text[|text| - 1]);
        assert LastChar(init) == text[|text| - 2];
      }
      assert init + [text[|text| - 1]] == text;
    }
  }

  /** Tidy, trimmed text is left as it is. */
  lemma CleanSpecOfTidy(text: string)
    requires Tidy(text) && Trimmed(text)
    ensures CleanSpec(text) == text
  {
    CleanRunOfTidy(text);
    TrimOfTrimmed(text);
  }

  /** Every bad pair holds a space, so text without one is tidy. */
  lemma NoSpaceTidy(s: string)
    requires forall j :: 0 <= j < |s| ==> s[j] != ' '
    ensures Tidy(s)
  {
  }

  /** Two tidy pieces joined by one space stay tidy when neither touches
      the space with whitespace of its own. */
  lemma TidySpaced(x: string, y: string)
    requires Tidy(x) && Tidy(y)
    requires x != [] && x[|x| - 1] != ' ' && x[|x| - 1] != '\n'
    requires y != [] && y[0] != ' ' && y[0] != '\n'
    ensures Tidy(x + " " + y)
  {
    var s := x + " " + y;
    forall k | 0 <= k < |s| - 1 ensures !BadPair(s[k], s[k + 1]) {
      if k + 1 < |x| {
        assert s[k] == x[k] && s[k + 1] == x[k + 1];
      } else if k + 1 == |x| {
        assert s[k] == x[k] && s[k + 1] == ' ';
      } else if k == |x| {
        assert s[k + 1] == y[0];
      } else {
        assert s[k] == y[k - |x| - 1] && s[k + 1] == y[k - |x|];
      }
    }
  }

  lemma CleanIdempotent(text: string)
    ensures CleanSpec(CleanSpec(text)) == CleanSpec(text)
  {
    CleanSpecTidy(text);
    CleanSpecOfTidy(CleanSpec(text));
  }

  // ---------------------------------------------------------------------------
  // Edit and contextual phrases

  /** `xs` is `ys` with some elements left out, order kept. */
  predicate IsSubsequence<T(==)>(xs: seq<T>, ys: seq<T>)
    decreases |ys|
  {
    if ys == [] then xs == []
    else
      (xs != [] && xs[|xs| - 1] == ys[|ys| - 1] && IsSubsequence(xs[..|xs| - 1], ys[..|ys| - 1]))
      || IsSubsequence(xs, ys[..|ys| - 1])
  }

  lemma {:induction false} SubsequenceBounds<T>(xs: seq<T>, ys: seq<T>)
    requires IsSubsequence(xs, ys)
    ensures |xs| <= |ys|
    ensures forall x :: x in xs ==> x in ys
    decreases |ys|
  {
    if ys != [] {
      if xs != [] && xs[|xs| - 1] == ys[|ys| - 1] && IsSubsequence(xs[..|xs| - 1], ys[..|ys| - 1]) {
        SubsequenceBounds(xs[..|xs| - 1], ys[..|ys| - 1]);
        assert xs == xs[..|xs| - 1] + [xs[|xs| - 1]];
        assert ys == ys[..|ys| - 1] + [ys[|ys| - 1]];
      } else {
        SubsequenceBounds(xs, ys[..|ys| - 1]);
        assert ys == ys[..|ys| - 1] + [ys[|ys| - 1]];
      }
    }
  }

  /** Each phrase raises its action at most once, and the actions follow the
      table's order. */
  lemma {:induction false} ExtractTableActions(text: string, table: CommandTable)
    ensures IsSubsequence(ExtractTable(text, table).actions, TableActions(table))
    decreases |table|
  {
    if table != [] {
      var init := table[..|table| - 1];
      ExtractTableActions(text, init);
      assert TableActions(table)[..|table| - 1] == TableActions(init);
      var prev := ExtractTable(text, init);
      var e := ExtractCommand(prev.text, table[|table| - 1].0);
      var ys := TableActions(table);
      if e.found {
        var xs := prev.actions + [table[|table| - 1].1];
        assert xs[..|xs| - 1] == prev.actions;
        assert xs[|xs| - 1] == ys[|ys| - 1];
        assert ExtractTable(text, table).actions == xs;
      } else {
        assert ExtractTable(text, table).actions == prev.actions;
      }
    }
  }

  /** No phrase of the table occurs in `text`, ignoring case. */
  predicate NoPhraseOf(text: string, table: CommandTable) {
    forall k :: 0 <= k < |table| ==> !Contains(Lower(text), Lower(table[k].0))
  }

  lemma {:induction false} ExtractTableUnchanged(text: string, table: CommandTable)
    requires NoPhraseOf(text, table)
    ensures ExtractTable(text, table) == ParseResult(text, [])
    decreases |table|
  {
    if table != [] {
      ExtractTableUnchanged(text, table[..|table| - 1]);
      assert !Contains(Lower(text), Lower(table[|table| - 1].0));
    }
  }

  /** Extracting the phrases of `a + b` is extracting those of `a`, then
      those of `b` from what is left. */
  lemma {:induction false} ExtractTableConcat(text: string, a: CommandTable, b: CommandTable)
    ensures var p := ExtractTable(text, a);
      var q := ExtractTable(p.text, b);
      ExtractTable(text, a + b) == ParseResult(q.text, p.actions + q.actions)
    decreases |b|
  {
    var p := ExtractTable(text, a);
    if b == [] {
      assert a + b == a;
      assert p.actions + [] == p.actions;
    } else {
      var b' := b[..|b| - 1];
      assert (a + b)[..|a + b| - 1] == a + b';
      assert (a + b)[|a + b| - 1] == b[|b| - 1];
      ExtractTableConcat(text, a, b');
      var q' := ExtractTable(p.text, b');
      var e := ExtractCommand(q'.text, b[|b| - 1].0);
      var extra := if e.found then [b[|b| - 1].1] else [];
      assert p.actions + q'.actions + extra == p.actions + (q'.actions + extra);
    }
  }

  // ---------------------------------------------------------------------------
  // App-open triggers

  /** The lower-cased triggers. */
  predicate IsTrigger(w: string) {
    exists t :: 0 <= t < |AppTriggers| && w == Lower(AppTriggers[t])
  }

  lemma {:induction false} FirstTriggerFound(lw: seq<string>, triggers: seq<string>)
    ensures var r := FirstTrigger(lw, triggers);
      r.Some? ==> exists t :: 0 <= t < |triggers| && lw[r.value] == Lower(triggers[t])
  {
    if triggers != [] {
      match TriggerAt(lw, Lower(triggers[0]), 0)
      case Some(i) =>
        assert lw[i] == Lower(triggers[0]);
      case None =>
        FirstTriggerFound(lw, triggers[1..]);
        var r := FirstTrigger(lw, triggers[1..]);
        if r.Some? {
          var t :| 0 <= t < |triggers[1..]| && lw[r.value] == Lower(triggers[1..][t]);
          assert triggers[1..][t] == triggers[t + 1];
        }
    }
  }

  lemma {:induction false} FirstTriggerNone(lw: seq<string>, triggers: seq<string>)
    requires forall j, t :: 0 <= j < |lw| - 1 && 0 <= t < |triggers| ==> lw[j] != Lower(triggers[t])
    ensures FirstTrigger(lw, triggers) == None
  {
    if triggers != [] {
      assert forall t :: 0 <= t < |triggers[1..]| ==> triggers[1..][t] == triggers[t + 1];
      FirstTriggerNone(lw, triggers[1..]);
    }
  }

  /** The app command found at word `i`: `i` is a whole-word trigger with a
      word after it, that word is the app named, and the text is the other
      words rejoined with single spaces. */
  predicate AppFoundAt(text: string, i: int) {
    && 0 <= i < |Words(text)| - 1 && IsTrigger(Lower(Words(text)[i]))
    && AppCommandSpec(text).actions == [OpenApp(Words(text)[i + 1])]
    && AppCommandSpec(text).text == Join(Words(text)[..i] + Words(text)[i + 2..], " ")
  }

  /** An app command names the word right after a whole-word trigger, leaves
      both out of the text and rejoins the other words with single spaces; at
      most one is produced. */
  lemma AppCommandShape(text: string)
    ensures |AppCommandSpec(text).actions| <= 1
    ensures forall x :: x in AppCommandSpec(text).actions ==> x.OpenApp?
    ensures AppCommandSpec(text).actions == [] ==> AppCommandSpec(text).text == text
    ensures AppCommandSpec(text).actions != [] ==> exists i :: AppFoundAt(text, i)
  {
    var lw := LowerAll(Words(text));
    FirstTriggerFound(lw, AppTriggers);
    var r := FirstTrigger(lw, AppTriggers);
    if r.Some? {
      var i := r.value;
      var t :| 0 <= t < |AppTriggers| && lw[i] == Lower(AppTriggers[t]);
      assert IsTrigger(Lower(Words(text)[i]));
      assert AppFoundAt(text, i);
    }
  }

  /** Text with no trigger word followed by another word has no app command. */
  lemma AppCommandNone(text: string)
    requires forall j :: 0 <= j < |Words(text)| - 1 ==> !IsTrigger(Lower(Words(text)[j]))
    ensures AppCommandSpec(text) == ParseResult(text, [])
  {
    var lw := LowerAll(Words(text));
    forall j, t | 0 <= j < |lw| - 1 && 0 <= t < |AppTriggers|
      ensures lw[j] != Lower(AppTriggers[t])
    {
      assert !IsTrigger(Lower(Words(text)[j]));
    }
    FirstTriggerNone(lw, AppTriggers);
  }

  /** A trigger with nothing after it is not a command. */
  lemma LoneTrigger(text: string)
    requires |Words(text)| <= 1
    ensures AppCommandSpec(text) == ParseResult(text, [])
  {
    AppCommandNone(text);
  }

  // ---------------------------------------------------------------------------
  // Punctuation words

  lemma ReplaceNoMatch(text: string, m: PunctuationMapping)
    requires WellFormed(m)
    requires !Contains(Lower(text), Lower(m.command))
    ensures ReplacePunctuation(text, m) == text
  {
    FindIffContains(Lower(text), Lower(m.command));
    FindFromSpec(Lower(text), Lower(m.command), 0);
    assert FindFrom(Lower(text), Lower(m.command), 0) == None;
    assert text[0..] == text;
  }

  /** No punctuation word occurs in `text`, ignoring case. */
  predicate NoPunctuationWord(text: string) {
    forall k :: 0 <= k < |PunctuationCommands| ==> !Contains(Lower(text), Lower(PunctuationCommands[k].command))
  }

  lemma {:induction false} ReplaceAllUnchanged(text: string, table: seq<PunctuationMapping>)
    requires forall k :: 0 <= k < |table| ==> WellFormed(table[k])
    requires forall k :: 0 <= k < |table| ==> !Contains(Lower(text), Lower(table[k].command))
    ensures ReplaceAll(text, table) == text
    decreases |table|
  {
    if table != [] {
      ReplaceAllUnchanged(text, table[..|table| - 1]);
      ReplaceNoMatch(text, table[|table| - 1]);
    }
  }

  // ---------------------------------------------------------------------------
  // The whole pipeline

  /** The parsed text is trimmed, has no double space and no space next to a
      newline. */
  lemma ParseOutputTidy(text: string, mode: DictationMode)
    ensures Tidy(ParseSpec(text, mode).text) && Trimmed(ParseSpec(text, mode).text)
  {
    TablesWellFormed();
    var ctx := ExtractTable(text, ContextualCommands(mode));
    var edit := ExtractTable(ctx.text, EditCommands);
    CleanSpecTidy(ReplaceAll(AppCommandSpec(edit.text).text, PunctuationCommands));
  }

  /** Contextual actions come first (a subsequence of the mode's table), then
      edit actions (a subsequence of the edit table), then at most one
      `OpenApp`; there are at most 2 + 6 + 1 of them. */
  lemma ParseActionsShape(text: string, mode: DictationMode)
    ensures var r := ParseSpec(text, mode);
      exists ctx: seq<Action>, edit: seq<Action>, app: seq<Action> ::
        && r.actions == ctx + edit + app
        && IsSubsequence(ctx, TableActions(ContextualCommands(mode)))
        && IsSubsequence(edit, TableActions(EditCommands))
        && |app| <= 1 && (forall a :: a in app ==> a.OpenApp?)
    ensures |ParseSpec(text, mode).actions| <= 9
  {
    var c := ExtractTable(text, ContextualCommands(mode));
    var e := ExtractTable(c.text, EditCommands);
    var a := AppCommandSpec(e.text);
    StagesShape(text, mode, c, e, a);
    ParseActionsParts(text, mode);
    ActionsInThreeParts(ParseSpec(text, mode).actions, c.actions, e.actions, a.actions, mode);
  }

  /** What each of the three stages contributes. */
  lemma StagesShape(text: string, mode: DictationMode, c: ParseResult, e: ParseResult, a: ParseResult)
    requires c == ExtractTable(text, ContextualCommands(mode))
    requires e == ExtractTable(c.text, EditCommands)
    requires a == AppCommandSpec(e.text)
    ensures IsSubsequence(c.actions, TableActions(ContextualCommands(mode))) && |c.actions| <= 2
    ensures IsSubsequence(e.actions, TableActions(EditCommands)) && |e.actions| <= 6
    ensures |a.actions| <= 1 && forall x :: x in a.actions ==> x.OpenApp?
  {
    ExtractTableActions(text, ContextualCommands(mode));
    ExtractTableActions(c.text, EditCommands);
    AppCommandShape(e.text);
    SubsequenceBounds(c.actions, TableActions(ContextualCommands(mode)));
    SubsequenceBounds(e.actions, TableActions(EditCommands));
  }

  /** The actions of `parse` are those of the three stages, in order. */
  lemma ParseActionsParts(text: string, mode: DictationMode)
    ensures ParseSpec(text, mode).actions ==
              ExtractTable(text, ContextualCommands(mode)).actions
              + ExtractTable(ExtractTable(text, ContextualCommands(mode)).text, EditCommands).actions
              + AppCommandSpec(ExtractTable(ExtractTable(text, ContextualCommands(mode)).text, EditCommands).text).actions
  {
  }

  /** The witnesses of `ParseActionsShape`'s three parts. */
  lemma ActionsInThreeParts(all: seq<Action>, ctx: seq<Action>, edit: seq<Action>, app: seq<Action>, mode: DictationMode)
    requires all == ctx + edit + app
    requires IsSubsequence(ctx, TableActions(ContextualCommands(mode)))
    requires IsSubsequence(edit, TableActions(EditCommands))
    requires |app| <= 1 && forall a :: a in app ==> a.OpenApp?
    ensures exists ctx': seq<Action>, edit': seq<Action>, app': seq<Action> ::
        && all == ctx' + edit' + app'
        && IsSubsequence(ctx', TableActions(ContextualCommands(mode)))
        && IsSubsequence(edit', TableActions(EditCommands))
        && |app'| <= 1 && (forall a :: a in app' ==> a.OpenApp?)
  {
  }

  /** In General mode no contextual action is ever produced. */
  lemma GeneralModeHasNoContextualActions(text: string)
    ensures forall a :: a in ParseSpec(text, General).actions ==> !IsContextual(a)
  {
    var c := ExtractTable(text, ContextualCommands(General));
    var e := ExtractTable(c.text, EditCommands);
    ExtractTableActions(text, ContextualCommands(General));
    ExtractTableActions(c.text, EditCommands);
    SubsequenceBounds(c.actions, TableActions(ContextualCommands(General)));
    SubsequenceBounds(e.actions, TableActions(EditCommands));
    AppCommandShape(e.text);
    EditActionsNotContextual();
    ParseActionsParts(text, General);
  }

  /** No edit action is contextual. */
  lemma EditActionsNotContextual()
    ensures forall a :: a in TableActions(EditCommands) ==> !IsContextual(a)
  {
    var edits := TableActions(EditCommands);
    assert forall k :: 0 <= k < |edits| ==> !IsContextual(edits[k]);
  }

  /** Text that holds no command phrase, no trigger followed by a word and no
      punctuation word, and that is already tidy and trimmed, comes back as it
      is, with no actions. */
  lemma ParseUnchanged(text: string, mode: DictationMode)
    requires NoPhraseOf(text, ContextualCommands(mode)) && NoPhraseOf(text, EditCommands)
    requires forall j :: 0 <= j < |Words(text)| - 1 ==> !IsTrigger(Lower(Words(text)[j]))
    requires NoPunctuationWord(text)
    requires Tidy(text) && Trimmed(text)
    ensures ParseSpec(text, mode) == ParseResult(text, [])
  {
    TablesWellFormed();
    ExtractTableUnchanged(text, ContextualCommands(mode));
    ExtractTableUnchanged(text, EditCommands);
    AppCommandNone(text);
    ReplaceAllUnchanged(text, PunctuationCommands);
    CleanSpecOfTidy(text);
  }

  /** The empty string parses to the empty string with no actions. */
  lemma ParseEmpty(mode: DictationMode)
    ensures ParseSpec("", mode) == ParseResult("", [])
  {
    ParseUnchanged("", mode);
  }
}
