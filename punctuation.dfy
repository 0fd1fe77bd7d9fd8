/** What one punctuation mapping does to a text: how the symbol is spaced
    for each rule, how the first match splits the text, and why running the
    table from the longest command to the shortest leaves no punctuation word
    behind. Commands are matched ignoring case; every piece of the output
    that is not a symbol is a slice of the original text, so it keeps its
    own case. */
module VoicePunctuation {
  import opened Wrappers
  import opened Text
  import opened VoiceParser
  import opened VoiceParserProperties

  // ---------------------------------------------------------------------------
  // One match

  /** The text after a command, with the one space the loop skips removed. */
  function DropSpace(s: string): (r: string)
    ensures r == s || (s != [] && s[0] == ' ' && r == s[1..])
  {
    if s != [] && s[0] == ' ' then s[1..] else s
  }

  /** What follows the command matched at `pos`, one space skipped. */
  function TextAfter(text: string, m: PunctuationMapping, pos: nat): string
    requires pos + |m.command| <= |text|
  {
    DropSpace(text[pos + |m.command|..])
  }

  lemma AfterStartIsTextAfter(text: string, m: PunctuationMapping, pos: nat)
    requires pos + |m.command| <= |text|
    ensures text[AfterStart(text, pos + |m.command|)..] == TextAfter(text, m, pos)
    ensures AfterStart(text, pos + |m.command|) < |text| <==> TextAfter(text, m, pos) != []
  {
  }

  /** The command occurs in `text` at `pos` and nowhere else, ignoring case. */
  predicate OnlyMatchAt(text: string, m: PunctuationMapping, pos: nat) {
    OccursAt(Lower(text), Lower(m.command), pos) &&
    forall j :: 0 <= j <= |text| && j != pos ==> !OccursAt(Lower(text), Lower(m.command), j)
  }

  /** No match is left at or after `from`. */
  lemma NoMatchFrom(text: string, m: PunctuationMapping, from: nat)
    requires forall j: nat :: from <= j ==> !OccursAt(Lower(text), Lower(m.command), j)
    ensures FindFrom(Lower(text), Lower(m.command), from) == None
  {
    FindFromSpec(Lower(text), Lower(m.command), from);
  }

  /** With a single match, the loop runs once: the `Emit` for that match,
      then the rest of the text as it is. */
  lemma ReplaceOnlyEmit(text: string, m: PunctuationMapping, pos: nat)
    requires WellFormed(m) && OnlyMatchAt(text, m, pos)
    ensures pos + |m.command| <= |text|
    ensures ReplacePunctuation(text, m)
         == Emit([], text[..pos], m, TextAfter(text, m, pos) != []) + TextAfter(text, m, pos)
  {
    var lt, lc := Lower(text), Lower(m.command);
    var end := pos + |m.command|;
    FindFromFirst(lt, lc, 0, pos);
    ReplaceFromStep(text, m, 0, 0, [], pos);
    NoMatchFrom(text, m, end);
    var a := AfterStart(text, end);
    AfterStartIsTextAfter(text, m, pos);
    assert text[0..pos] == text[..pos];
    ReplaceFromDone(text, m, end, a, Emit([], text[..pos], m, a < |text|));
  }

  /** A text in which the command occurs once, at `pos`, ignoring case. The
      text before the command and the text after it (one space skipped) are
      kept as written. A closing symbol is glued to the text before it, and
      `CloseWithSpace` adds one space exactly when text follows; a newline
      is glued the same way with nothing added after it; an opening symbol
      keeps the text before it, gets one space before it unless that text is
      empty or already ends with a space, and none after it. */
  lemma ReplaceOnly(text: string, m: PunctuationMapping, pos: nat)
    requires WellFormed(m) && OnlyMatchAt(text, m, pos)
    ensures pos + |m.command| <= |text|
    ensures m.spacing.CloseWithSpace? ==>
              ReplacePunctuation(text, m) == TrimEnd(text[..pos]) + m.replacement
                + (if TextAfter(text, m, pos) != [] then " " else "") + TextAfter(text, m, pos)
    ensures m.spacing.CloseNoSpace? || m.spacing.Newline? ==>
              ReplacePunctuation(text, m) == TrimEnd(text[..pos]) + m.replacement + TextAfter(text, m, pos)
    ensures m.spacing.OpenNoSpace? ==>
              ReplacePunctuation(text, m) == text[..pos]
                + (if pos > 0 && text[pos - 1] != ' ' then " " else "") + m.replacement + TextAfter(text, m, pos)
  {
    ReplaceOnlyEmit(text, m, pos);
    var before := text[..pos];
    EmitForms(before, m, TextAfter(text, m, pos) != []);
    if pos > 0 {
      assert before[|before| - 1] == text[pos - 1];
    }
  }

  /** `Emit` at the start of the output, rule by rule. */
  lemma EmitForms(before: string, m: PunctuationMapping, more: bool)
    ensures m.spacing.CloseWithSpace? ==>
              Emit([], before, m, more) == TrimEnd(before) + m.replacement + (if more then " " else "")
    ensures m.spacing.CloseNoSpace? || m.spacing.Newline? ==>
              Emit([], before, m, more) == TrimEnd(before) + m.replacement
    ensures m.spacing.OpenNoSpace? ==>
              Emit([], before, m, more)
              == before + (if before != [] && before[|before| - 1] != ' ' then " " else "") + m.replacement
  {
    assert [] + before == before;
    assert [] + TrimEnd(before) == TrimEnd(before);
  }

  /** For every rule but the opening one, `Emit` only appends to the output. */
  lemma EmitAcc(acc: string, before: string, m: PunctuationMapping, more: bool)
    requires !m.spacing.OpenNoSpace?
    ensures Emit(acc, before, m, more) == acc + Emit([], before, m, more)
  {
    var t, sp := TrimEnd(before), if m.spacing.CloseWithSpace? && more then " " else "";
    assert [] + t == t;
    assert acc + t + m.replacement + sp == acc + (t + m.replacement + sp);
  }

  /** The equalities `ReplaceFromAcc` chains, over plain values. */
  lemma AccChain(whole: string, acc: string, rest: string, e0: string, e1: string, tail: string)
    requires whole == e1 + tail && e1 == acc + e0 && rest == e0 + tail
    ensures whole == acc + rest
  {
  }

  // ---------------------------------------------------------------------------
  // The first match splits the text

  /** For every rule but the opening one, the output so far is only a prefix:
      the rest of the loop does not depend on it. */
  lemma {:induction false} ReplaceFromAcc(text: string, m: PunctuationMapping, from: nat, lastEnd: nat, acc: string)
    requires WellFormed(m) && !m.spacing.OpenNoSpace?
    requires from <= |text| && lastEnd <= |text|
    requires lastEnd == from || (lastEnd == from + 1 && text[from] == ' ')
    ensures ReplaceFrom(text, m, from, lastEnd, acc) == acc + ReplaceFrom(text, m, from, lastEnd, [])
    decreases |text| - from
  {
    match FindFrom(Lower(text), Lower(m.command), from)
    case None =>
      AccDone(text, m, from, lastEnd, acc);
    case Some(start) =>
      MatchBounds(text, m, from, lastEnd, start);
      var end := start + |m.command|;
      var a := AfterStart(text, end);
      AfterBounds(text, end);
      ReplaceFromAcc(text, m, end, a, Emit(acc, text[lastEnd..start], m, a < |text|));
      ReplaceFromAcc(text, m, end, a, Emit([], text[lastEnd..start], m, a < |text|));
      AccStep(text, m, from, lastEnd, acc, start, end, a);
  }

  /** `ReplaceFromAcc` once no match is left. */
  lemma AccDone(text: string, m: PunctuationMapping, from: nat, lastEnd: nat, acc: string)
    requires WellFormed(m)
    requires from <= |text| && lastEnd <= |text|
    requires lastEnd == from || (lastEnd == from + 1 && text[from] == ' ')
    requires FindFrom(Lower(text), Lower(m.command), from) == None
    ensures ReplaceFrom(text, m, from, lastEnd, acc) == acc + ReplaceFrom(text, m, from, lastEnd, [])
  {
    ReplaceFromDone(text, m, from, lastEnd, acc);
    ReplaceFromDone(text, m, from, lastEnd, []);
    assert [] + text[lastEnd..] == text[lastEnd..];
  }

  /** `ReplaceFromAcc` at a match, given it for what follows the match. */
  lemma AccStep(text: string, m: PunctuationMapping, from: nat, lastEnd: nat, acc: string, start: nat,
                end: nat, a: nat)
    requires WellFormed(m) && !m.spacing.OpenNoSpace?
    requires from <= |text| && lastEnd <= |text|
    requires lastEnd == from || (lastEnd == from + 1 && text[from] == ' ')
    requires FindFrom(Lower(text), Lower(m.command), from) == Some(start)
    requires end == start + |m.command| && a == AfterStart(text, end)
    requires lastEnd <= start && end <= |text| && a <= |text|
    requires ReplaceFrom(text, m, end, a, Emit(acc, text[lastEnd..start], m, a < |text|))
             == Emit(acc, text[lastEnd..start], m, a < |text|) + ReplaceFrom(text, m, end, a, [])
    requires ReplaceFrom(text, m, end, a, Emit([], text[lastEnd..start], m, a < |text|))
             == Emit([], text[lastEnd..start], m, a < |text|) + ReplaceFrom(text, m, end, a, [])
    ensures ReplaceFrom(text, m, from, lastEnd, acc) == acc + ReplaceFrom(text, m, from, lastEnd, [])
  {
    ReplaceFromStep(text, m, from, lastEnd, acc, start);
    ReplaceFromStep(text, m, from, lastEnd, [], start);
    var e0 := Emit([], text[lastEnd..start], m, a < |text|);
    var e1 := Emit(acc, text[lastEnd..start], m, a < |text|);
    EmitAcc(acc, text[lastEnd..start], m, a < |text|);
    AccChain(ReplaceFrom(text, m, end, a, e1), acc, ReplaceFrom(text, m, end, a, e0), e0, e1,
             ReplaceFrom(text, m, end, a, []));
  }

  /** A space just skipped cannot start a match, since no command starts with one. */
  lemma ReplaceFromSkippedSpace(text: string, m: PunctuationMapping, from: nat, acc: string)
    requires WellFormed(m) && from < |text| && text[from] == ' '
    ensures ReplaceFrom(text, m, from, from + 1, acc) == ReplaceFrom(text, m, from + 1, from + 1, acc)
  {
    var lt, lc := Lower(text), Lower(m.command);
    assert lt[from] == ' ' && lc[0] != ' ';
    assert !MatchAt(lt, lc, from);
    assert FindFrom(lt, lc, from) == FindFrom(lt, lc, from + 1);
  }

  /** `p` occurs in a suffix exactly where it occurs in the whole text. */
  lemma OccursShift(t: string, p: string, a: nat, j: nat)
    requires a <= |t|
    ensures OccursAt(t[a..], p, j) <==> OccursAt(t, p, a + j)
  {
    if OccursAt(t, p, a + j) {
      assert t[a..][j..j + |p|] == t[a + j..a + j + |p|];
    }
    if OccursAt(t[a..], p, j) {
      assert t[a..][j..j + |p|] == t[a + j..a + j + |p|];
    }
  }

  /** Searching a suffix finds the same matches, shifted. */
  lemma FindFromShift(t: string, p: string, a: nat, from: nat)
    requires a <= from <= |t|
    ensures FindFrom(t, p, from).None? <==> FindFrom(t[a..], p, from - a).None?
    ensures FindFrom(t, p, from).Some? ==> FindFrom(t[a..], p, from - a) == Some(FindFrom(t, p, from).value - a)
  {
    FindFromSpec(t, p, from);
    FindFromSpec(t[a..], p, from - a);
    match FindFrom(t, p, from)
    case Some(i) =>
      OccursShift(t, p, a, i - a);
      forall j: nat | from - a <= j < i - a ensures !OccursAt(t[a..], p, j) {
        OccursShift(t, p, a, j);
      }
      FindFromFirst(t[a..], p, from - a, i - a);
    case None =>
      match FindFrom(t[a..], p, from - a)
      case Some(i) =>
        OccursShift(t, p, a, i);
        assert false;
      case None =>
  }

  /** The loop on a text from `from` on is the loop on its suffix `rest`,
      which starts at `a`, from `from'` on: each position is shifted by `a`. */
  lemma {:induction false} ReplaceFromShift(text: string, rest: string, m: PunctuationMapping, a: nat,
                                            from: nat, lastEnd: nat, from': nat, lastEnd': nat, acc: string)
    requires WellFormed(m)
    requires a <= |text| && rest == text[a..]
    requires from == from' + a && lastEnd == lastEnd' + a
    requires from <= |text| && lastEnd <= |text|
    requires lastEnd == from || (lastEnd == from + 1 && text[from] == ' ')
    ensures from' <= |rest| && lastEnd' <= |rest|
    ensures lastEnd' == from' || (lastEnd' == from' + 1 && rest[from'] == ' ')
    ensures ReplaceFrom(text, m, from, lastEnd, acc) == ReplaceFrom(rest, m, from', lastEnd', acc)
    decreases |text| - from, 1
  {
    match FindFrom(Lower(text), Lower(m.command), from)
    case None =>
      ShiftDone(text, rest, m, a, from, lastEnd, from', lastEnd', acc);
    case Some(start) =>
      ShiftMatch(text, rest, m, a, from, lastEnd, from', lastEnd', acc, start);
  }

  /** `ReplaceFromShift` at a match: the shift holds for what follows the
      match, and the match itself is emitted the same way. */
  lemma {:induction false} ShiftMatch(text: string, rest: string, m: PunctuationMapping, a: nat,
                                      from: nat, lastEnd: nat, from': nat, lastEnd': nat, acc: string, start: nat)
    requires WellFormed(m)
    requires a <= |text| && rest == text[a..]
    requires from == from' + a && lastEnd == lastEnd' + a
    requires from <= |text| && lastEnd <= |text|
    requires lastEnd == from || (lastEnd == from + 1 && text[from] == ' ')
    requires FindFrom(Lower(text), Lower(m.command), from) == Some(start)
    ensures from' <= |rest| && lastEnd' <= |rest|
    ensures lastEnd' == from' || (lastEnd' == from' + 1 && rest[from'] == ' ')
    ensures ReplaceFrom(text, m, from, lastEnd, acc) == ReplaceFrom(rest, m, from', lastEnd', acc)
    decreases |text| - from, 0
  {
    MatchBounds(text, m, from, lastEnd, start);
    var start': nat := start - a;
    ShiftNext(text, rest, m, a, from, lastEnd, from', lastEnd', start, start');
    var end, end' := start + |m.command|, start' + |m.command|;
    AfterShift(text, rest, a, end, end');
    var after, after' := AfterStart(text, end), AfterStart(rest, end');
    ReplaceFromShift(text, rest, m, a, end, after, end', after', Emit(acc, text[lastEnd..start], m, after < |text|));
    StepAt(text, m, from, lastEnd, acc, start, end, after);
    StepAt(rest, m, from', lastEnd', acc, start', end', after');
    EmitShift(text, rest, m, a, acc, lastEnd, start, after, lastEnd', start', after');
  }

  /** `ReplaceFromStep` with the end of the match and the resumption point named. */
  lemma StepAt(text: string, m: PunctuationMapping, from: nat, lastEnd: nat, acc: string,
               start: nat, end: nat, after: nat)
    requires WellFormed(m)
    requires from <= |text| && lastEnd <= |text|
    requires lastEnd == from || (lastEnd == from + 1 && text[from] == ' ')
    requires FindFrom(Lower(text), Lower(m.command), from) == Some(start)
    requires end == start + |m.command| && after == AfterStart(text, end)
    requires lastEnd <= start && end <= |text| && after <= |text|
    requires after == end || (after == end + 1 && text[end] == ' ')
    ensures ReplaceFrom(text, m, from, lastEnd, acc)
         == ReplaceFrom(text, m, end, after, Emit(acc, text[lastEnd..start], m, after < |text|))
  {
    ReplaceFromStep(text, m, from, lastEnd, acc, start);
  }

  /** The output of one match is the same in the text and in its suffix. */
  lemma EmitShift(text: string, rest: string, m: PunctuationMapping, a: nat, acc: string,
                  lastEnd: nat, start: nat, after: nat, lastEnd': nat, start': nat, after': nat)
    requires a <= |text| && rest == text[a..]
    requires lastEnd == lastEnd' + a && start == start' + a && after == after' + a
    requires lastEnd <= start <= |text|
    ensures Emit(acc, text[lastEnd..start], m, after < |text|)
         == Emit(acc, rest[lastEnd'..start'], m, after' < |rest|)
  {
    assert rest[lastEnd'..start'] == text[lastEnd..start];
  }

  /** `ReplaceFromShift` once no match is left. */
  lemma ShiftDone(text: string, rest: string, m: PunctuationMapping, a: nat,
                  from: nat, lastEnd: nat, from': nat, lastEnd': nat, acc: string)
    requires WellFormed(m)
    requires a <= |text| && rest == text[a..]
    requires from == from' + a && lastEnd == lastEnd' + a
    requires from <= |text| && lastEnd <= |text|
    requires lastEnd == from || (lastEnd == from + 1 && text[from] == ' ')
    requires FindFrom(Lower(text), Lower(m.command), from) == None
    ensures from' <= |rest| && lastEnd' <= |rest|
    ensures lastEnd' == from' || (lastEnd' == from' + 1 && rest[from'] == ' ')
    ensures ReplaceFrom(text, m, from, lastEnd, acc) == ReplaceFrom(rest, m, from', lastEnd', acc)
  {
    LowerSuffix(text, a);
    FindFromShift(Lower(text), Lower(m.command), a, from);
    ReplaceFromDone(text, m, from, lastEnd, acc);
    ReplaceFromDone(rest, m, from', lastEnd', acc);
    assert text[lastEnd..] == rest[lastEnd'..];
  }

  /** At a match in the text, the suffix has the same match, shifted. */
  lemma ShiftNext(text: string, rest: string, m: PunctuationMapping, a: nat,
                  from: nat, lastEnd: nat, from': nat, lastEnd': nat, start: nat, start': nat)
    requires WellFormed(m)
    requires a <= |text| && rest == text[a..]
    requires from == from' + a && lastEnd == lastEnd' + a
    requires from <= |text| && lastEnd <= |text|
    requires lastEnd == from || (lastEnd == from + 1 && text[from] == ' ')
    requires FindFrom(Lower(text), Lower(m.command), from) == Some(start) && start' == start - a
    ensures from' <= |rest| && lastEnd' <= |rest|
    ensures lastEnd' == from' || (lastEnd' == from' + 1 && rest[from'] == ' ')
    ensures FindFrom(Lower(rest), Lower(m.command), from') == Some(start')
  {
    LowerSuffix(text, a);
    FindFromShift(Lower(text), Lower(m.command), a, from);
  }

  /** A match lies after the unconsumed text starts and inside the text. */
  lemma MatchBounds(text: string, m: PunctuationMapping, from: nat, lastEnd: nat, start: nat)
    requires WellFormed(m)
    requires from <= |text| && lastEnd <= |text|
    requires lastEnd == from || (lastEnd == from + 1 && text[from] == ' ')
    requires FindFrom(Lower(text), Lower(m.command), from) == Some(start)
    ensures lastEnd <= start && start + |m.command| <= |text|
  {
    FindFromSpec(Lower(text), Lower(m.command), from);
    assert Lower(text)[start] == Lower(m.command)[0];
  }

  /** Skipping one space after a command stays inside the text. */
  lemma AfterBounds(text: string, end: nat)
    requires end <= |text|
    ensures end <= AfterStart(text, end) <= |text|
    ensures AfterStart(text, end) == end || (AfterStart(text, end) == end + 1 && text[end] == ' ')
  {
  }

  /** Skipping one space after a command, in the text and in its suffix. */
  lemma AfterShift(text: string, rest: string, a: nat, end: nat, end': nat)
    requires a <= |text| && rest == text[a..]
    requires end == end' + a && end <= |text|
    ensures AfterStart(text, end) == AfterStart(rest, end') + a
    ensures AfterStart(text, end) <= |text|
    ensures AfterStart(text, end) == end || (AfterStart(text, end) == end + 1 && text[end] == ' ')
  {
  }

  /** The lower-cased suffix is the suffix of the lower-cased text. */
  lemma LowerSuffix(text: string, a: nat)
    requires a <= |text|
    ensures Lower(text[a..]) == Lower(text)[a..]
  {
    LowerSlice(text, a, |text|);
    assert text[a..|text|] == text[a..];
    assert Lower(text)[a..|text|] == Lower(text)[a..];
  }

  /** For every rule but the opening one, the first match (ignoring case)
      splits the text into what precedes it, trimmed at its end, then the
      symbol, then a space when the rule is `CloseWithSpace` and text follows,
      and then the text after the command (one space skipped) with the
      mapping applied to it alone. With `ReplaceNoMatch` this describes the
      whole output, match by match. */
  lemma ReplaceFirst(text: string, m: PunctuationMapping, pos: nat)
    requires WellFormed(m) && !m.spacing.OpenNoSpace?
    requires FirstAt(Lower(text), Lower(m.command), pos)
    ensures pos + |m.command| <= |text|
    ensures ReplacePunctuation(text, m)
         == TrimEnd(text[..pos]) + m.replacement
            + (if m.spacing.CloseWithSpace? && TextAfter(text, m, pos) != [] then " " else "")
            + ReplacePunctuation(TextAfter(text, m, pos), m)
  {
    var end := pos + |m.command|;
    var a := AfterStart(text, end);
    var rest := text[a..];
    FindIsFirst(Lower(text), Lower(m.command), pos);
    ReplaceFromStep(text, m, 0, 0, [], pos);
    assert text[0..pos] == text[..pos];
    var e := Emit([], text[..pos], m, a < |text|);
    var r1 := ReplaceFrom(text, m, end, a, e);
    var r2 := ReplaceFrom(text, m, end, a, []);
    var r3 := ReplaceFrom(text, m, a, a, []);
    assert ReplacePunctuation(text, m) == r1;
    ReplaceFromAcc(text, m, end, a, e);
    assert r1 == e + r2;
    if a == end + 1 {
      ReplaceFromSkippedSpace(text, m, end, []);
    }
    assert r2 == r3;
    ReplaceFromShift(text, rest, m, a, a, a, 0, 0, []);
    assert r3 == ReplacePunctuation(rest, m);
    AfterStartIsTextAfter(text, m, pos);
    assert rest == TextAfter(text, m, pos);
    assert (a < |text|) == (rest != []);
    EmitForms(text[..pos], m, a < |text|);
    assert e == TrimEnd(text[..pos]) + m.replacement
             + (if m.spacing.CloseWithSpace? && rest != [] then " " else "");
  }

  // ---------------------------------------------------------------------------
  // A phrase that is absent stays absent

  /** A phrase that neither starts nor ends with a space. */
  predicate Phrase(q: string) {
    q != [] && q[0] != ' ' && q[|q| - 1] != ' '
  }

  /** No character of `s` is one of `q`. */
  predicate Foreign(s: string, q: string) {
    forall i :: 0 <= i < |s| ==> s[i] !in q
  }

  /** No occurrence of `q` can straddle the end of `s`: `s` is empty or
      ends with a character foreign to `q`, possibly followed by one space. */
  predicate Sealed(s: string, q: string) {
    s == [] || s[|s| - 1] !in q || (s[|s| - 1] == ' ' && |s| >= 2 && s[|s| - 2] !in q)
  }

  /** A slice that holds `q` holds it where the whole holds it. */
  lemma SliceOccurs(s: string, q: string, lo: nat, hi: nat, j: nat)
    requires lo <= hi <= |s| && OccursAt(s[lo..hi], q, j)
    ensures OccursAt(s, q, lo + j) && lo + j + |q| <= hi
  {
    var w := s[lo..hi];
    assert j + |q| <= |w| && w[j..j + |q|] == q;
    forall k | 0 <= k < |q| ensures s[lo + j + k] == q[k] {
      assert w[j..j + |q|][k] == w[j + k] == s[lo + j + k];
    }
    assert s[lo + j..lo + j + |q|] == q;
  }

  /** A window of `s` holding no occurrence of `q` gives a slice without `q`. */
  lemma WindowAbsent(s: string, q: string, lo: nat, hi: nat)
    requires lo <= hi <= |s|
    requires forall j: nat :: lo <= j && j + |q| <= hi ==> !OccursAt(s, q, j)
    ensures !Contains(s[lo..hi], q)
  {
    forall j | 0 <= j <= hi - lo ensures !OccursAt(s[lo..hi], q, j) {
      if OccursAt(s[lo..hi], q, j) {
        SliceOccurs(s, q, lo, hi, j);
      }
    }
  }

  lemma PrefixAbsent(s: string, q: string, k: nat)
    requires k <= |s| && !Contains(s, q)
    ensures !Contains(s[..k], q)
  {
    assert s[..k] == s[0..k];
    WindowAbsent(s, q, 0, k);
  }

  /** Joining two texts without `q` gives none when the first is sealed. */
  lemma AppendSealed(x: string, y: string, q: string)
    requires Phrase(q) && !Contains(x, q) && !Contains(y, q) && Sealed(x, q)
    ensures !Contains(x + y, q)
  {
    var s := x + y;
    forall j | 0 <= j <= |s| && j + |q| <= |s| ensures !OccursAt(s, q, j) {
      if j + |q| <= |x| {
        assert s[j..j + |q|] == x[j..j + |q|];
        assert !OccursAt(x, q, j);
      } else if j >= |x| {
        assert s[j..j + |q|] == y[j - |x|..j - |x| + |q|];
        assert !OccursAt(y, q, j - |x|);
      } else if x[|x| - 1] !in q {
        assert s[j..j + |q|][|x| - 1 - j] == x[|x| - 1];
      } else if j == |x| - 1 {
        assert s[j..j + |q|][0] == ' ';
      } else {
        assert s[j..j + |q|][|x| - 2 - j] == x[|x| - 2];
      }
    }
  }

  /** Appending characters foreign to `q` adds no occurrence and seals the end. */
  lemma AppendForeign(x: string, y: string, q: string)
    requires q != [] && !Contains(x, q) && y != [] && Foreign(y, q)
    ensures !Contains(x + y, q) && Sealed(x + y, q) && (x + y)[|x + y| - 1] !in q
  {
    var s := x + y;
    forall j | 0 <= j <= |s| && j + |q| <= |s| ensures !OccursAt(s, q, j) {
      if j + |q| <= |x| {
        assert s[j..j + |q|] == x[j..j + |q|];
        assert !OccursAt(x, q, j);
      } else {
        var p := if j < |x| then |x| else j;
        assert s[p] == y[p - |x|];
        assert s[j..j + |q|][p - j] == s[p];
      }
    }
    assert s[|s| - 1] == y[|y| - 1];
  }

  /** A trailing space adds no occurrence of a phrase, which cannot end with one. */
  lemma AppendSpace(x: string, q: string)
    requires Phrase(q) && !Contains(x, q)
    ensures !Contains(x + " ", q)
    ensures x != [] && x[|x| - 1] !in q ==> Sealed(x + " ", q)
  {
    var s := x + " ";
    forall j | 0 <= j <= |s| && j + |q| <= |s| ensures !OccursAt(s, q, j) {
      if j + |q| <= |x| {
        assert s[j..j + |q|] == x[j..j + |q|];
        assert !OccursAt(x, q, j);
      } else {
        assert s[j..j + |q|][|q| - 1] == ' ';
      }
    }
  }

  /** The output for one match keeps `q` out and stays sealed, when the
      text between the matches holds no `q`. */
  lemma EmitKeepsAbsent(acc: string, gap: string, m: PunctuationMapping, more: bool, q: string)
    requires Phrase(q) && Lower(m.replacement) != [] && Foreign(Lower(m.replacement), q)
    requires !Contains(Lower(acc), q) && Sealed(Lower(acc), q)
    requires !Contains(Lower(gap), q)
    ensures !Contains(Lower(Emit(acc, gap, m, more)), q) && Sealed(Lower(Emit(acc, gap, m, more)), q)
  {
    if m.spacing.OpenNoSpace? {
      LowerAppend(acc, gap);
      AppendSealed(Lower(acc), Lower(gap), q);
      OpeningKeepsAbsent(acc + gap, m.replacement, q);
    } else {
      GluedKeepsAbsent(acc, gap, m.replacement, m.spacing.CloseWithSpace? && more, q);
    }
  }

  lemma LowerSpace()
    ensures Lower(" ") == " "
  {
    LowerIs(" ", " ");
  }

  /** A space, then an opening symbol, keep `q` out. */
  lemma OpeningKeepsAbsent(r: string, sym: string, q: string)
    requires Phrase(q) && Lower(sym) != [] && Foreign(Lower(sym), q)
    requires !Contains(Lower(r), q)
    ensures !Contains(Lower(EmitOpening(r, sym)), q) && Sealed(Lower(EmitOpening(r, sym)), q)
  {
    var spaced := r + (if r != [] && r[|r| - 1] != ' ' then " " else "");
    if r != [] && r[|r| - 1] != ' ' {
      LowerAppend(r, " ");
      LowerSpace();
      AppendSpace(Lower(r), q);
    } else {
      assert spaced == r;
    }
    LowerAppend(spaced, sym);
    AppendForeign(Lower(spaced), Lower(sym), q);
  }

  /** Trimmed text, then a symbol and maybe a space, keep `q` out. */
  lemma GluedKeepsAbsent(acc: string, gap: string, sym: string, space: bool, q: string)
    requires Phrase(q) && Lower(sym) != [] && Foreign(Lower(sym), q)
    requires !Contains(Lower(acc), q) && Sealed(Lower(acc), q)
    requires !Contains(Lower(gap), q)
    ensures !Contains(Lower(EmitGlued(acc, gap, sym, space)), q) && Sealed(Lower(EmitGlued(acc, gap, sym, space)), q)
  {
    var k := TrailingEnd(gap);
    var trimmed := TrimEnd(gap);
    LowerSlice(gap, 0, k);
    assert gap[0..k] == trimmed;
    assert Lower(gap)[0..k] == Lower(gap)[..k];
    PrefixAbsent(Lower(gap), q, k);
    var x1 := acc + trimmed;
    LowerAppend(acc, trimmed);
    AppendSealed(Lower(acc), Lower(trimmed), q);
    var x2 := x1 + sym;
    LowerAppend(x1, sym);
    AppendForeign(Lower(x1), Lower(sym), q);
    if space {
      LowerAppend(x2, " ");
      LowerSpace();
      AppendSpace(Lower(x2), q);
      assert EmitGlued(acc, gap, sym, space) == x2 + " ";
    } else {
      assert EmitGlued(acc, gap, sym, space) == x2;
    }
  }

  /** The loop keeps `q` out of its output when `q` is the command itself
      (every match is consumed) or does not occur in the unconsumed text. */
  lemma {:induction false} ReplaceFromKeepsAbsent(text: string, m: PunctuationMapping, from: nat, lastEnd: nat,
                                                  acc: string, q: string)
    requires WellFormed(m)
    requires from <= |text| && lastEnd <= |text|
    requires lastEnd == from || (lastEnd == from + 1 && text[from] == ' ')
    requires Phrase(q) && Lower(m.replacement) != [] && Foreign(Lower(m.replacement), q)
    requires !Contains(Lower(acc), q) && Sealed(Lower(acc), q)
    requires q == Lower(m.command) || forall j: nat :: lastEnd <= j ==> !OccursAt(Lower(text), q, j)
    ensures !Contains(Lower(ReplaceFrom(text, m, from, lastEnd, acc)), q)
    decreases |text| - from
  {
    match FindFrom(Lower(text), Lower(m.command), from)
    case None =>
      AbsentDone(text, m, from, lastEnd, acc, q);
    case Some(start) =>
      MatchBounds(text, m, from, lastEnd, start);
      var end := start + |m.command|;
      var a := AfterStart(text, end);
      AfterBounds(text, end);
      AbsentNext(text, m, from, lastEnd, acc, q, start, a);
      ReplaceFromKeepsAbsent(text, m, end, a, Emit(acc, text[lastEnd..start], m, a < |text|), q);
      StepAt(text, m, from, lastEnd, acc, start, end, a);
  }

  /** `ReplaceFromKeepsAbsent` once no match is left. */
  lemma AbsentDone(text: string, m: PunctuationMapping, from: nat, lastEnd: nat, acc: string, q: string)
    requires WellFormed(m)
    requires from <= |text| && lastEnd <= |text|
    requires lastEnd == from || (lastEnd == from + 1 && text[from] == ' ')
    requires Phrase(q) && !Contains(Lower(acc), q) && Sealed(Lower(acc), q)
    requires q == Lower(m.command) || forall j: nat :: lastEnd <= j ==> !OccursAt(Lower(text), q, j)
    requires FindFrom(Lower(text), Lower(m.command), from) == None
    ensures !Contains(Lower(ReplaceFrom(text, m, from, lastEnd, acc)), q)
  {
    var lt := Lower(text);
    FindFromSpec(lt, Lower(m.command), from);
    ReplaceFromDone(text, m, from, lastEnd, acc);
    WindowAbsent(lt, q, lastEnd, |text|);
    LowerSlice(text, lastEnd, |text|);
    assert text[lastEnd..|text|] == text[lastEnd..];
    LowerAppend(acc, text[lastEnd..]);
    AppendSealed(Lower(acc), Lower(text[lastEnd..]), q);
  }

  /** The output after one more match still lacks `q` and cannot complete it. */
  lemma AbsentNext(text: string, m: PunctuationMapping, from: nat, lastEnd: nat, acc: string, q: string,
                   start: nat, a: nat)
    requires WellFormed(m)
    requires from <= |text| && lastEnd <= |text|
    requires lastEnd == from || (lastEnd == from + 1 && text[from] == ' ')
    requires Phrase(q) && Lower(m.replacement) != [] && Foreign(Lower(m.replacement), q)
    requires !Contains(Lower(acc), q) && Sealed(Lower(acc), q)
    requires q == Lower(m.command) || forall j: nat :: lastEnd <= j ==> !OccursAt(Lower(text), q, j)
    requires FindFrom(Lower(text), Lower(m.command), from) == Some(start)
    requires lastEnd <= start && start + |m.command| <= a <= |text|
    ensures !Contains(Lower(Emit(acc, text[lastEnd..start], m, a < |text|)), q)
    ensures Sealed(Lower(Emit(acc, text[lastEnd..start], m, a < |text|)), q)
    ensures q == Lower(m.command) || forall j: nat :: a <= j ==> !OccursAt(Lower(text), q, j)
  {
    var lt := Lower(text);
    FindFromSpec(lt, Lower(m.command), from);
    WindowAbsent(lt, q, lastEnd, start);
    LowerSlice(text, lastEnd, start);
    EmitKeepsAbsent(acc, text[lastEnd..start], m, a < |text|, q);
  }

  /** After a mapping runs, its command no longer occurs, in any case:
      every match was replaced by a symbol foreign to it. */
  lemma ReplaceConsumesCommand(text: string, m: PunctuationMapping)
    requires WellFormed(m) && Phrase(Lower(m.command))
    requires Lower(m.replacement) != [] && Foreign(Lower(m.replacement), Lower(m.command))
    ensures !Contains(Lower(ReplacePunctuation(text, m)), Lower(m.command))
  {
    ReplaceFromKeepsAbsent(text, m, 0, 0, [], Lower(m.command));
  }

  /** A mapping never creates a phrase that was absent, when its symbol is
      foreign to that phrase. */
  lemma ReplaceKeepsAbsent(text: string, m: PunctuationMapping, q: string)
    requires WellFormed(m) && Phrase(q)
    requires Lower(m.replacement) != [] && Foreign(Lower(m.replacement), q)
    requires !Contains(Lower(text), q)
    ensures !Contains(Lower(ReplacePunctuation(text, m)), q)
  {
    ReplaceFromKeepsAbsent(text, m, 0, 0, [], q);
  }

  // ---------------------------------------------------------------------------
  // The table

  /** The characters commands are written with. */
  predicate CommandChar(c: char) {
    'a' <= c <= 'z' || c == ' ' || c == '\'' || c == 'à' || c == 'è'
  }

  /** Lower-case letters, spaces and apostrophes, neither starting nor ending
      with a space. */
  predicate CommandText(s: string) {
    Phrase(s) && forall i :: 0 <= i < |s| ==> CommandChar(s[i])
  }

  /** Characters no command uses, which lower-casing keeps. */
  predicate SymbolText(s: string) {
    s != [] && forall i :: 0 <= i < |s| ==> !CommandChar(s[i]) && LowerChar(s[i]) == s[i]
  }

  predicate EntryAlphabet(m: PunctuationMapping) {
    CommandText(m.command) && SymbolText(m.replacement)
  }

  lemma TableAlphabet()
    ensures forall k :: 0 <= k < |PunctuationCommands| ==> EntryAlphabet(PunctuationCommands[k])
  {
    TableAlphabet01();
    TableAlphabet23();
    TableAlphabet45();
    TableAlphabet67();
    TableAlphabet89();
    TableAlphabet1011();
  }

  lemma TableAlphabet01()
    ensures EntryAlphabet(PunctuationCommands[0]) && EntryAlphabet(PunctuationCommands[1])
  {
    TableAlphabet0();
    assert EntryAlphabet(PunctuationCommands[1]);
  }

  lemma TableAlphabet0()
    ensures EntryAlphabet(PunctuationCommands[0])
  {
    assert PunctuationCommands[0].command == "point d'interrogation";
  }

  lemma TableAlphabet23()
    ensures EntryAlphabet(PunctuationCommands[2]) && EntryAlphabet(PunctuationCommands[3])
  {
    assert EntryAlphabet(PunctuationCommands[2]);
  }

  lemma TableAlphabet45()
    ensures EntryAlphabet(PunctuationCommands[4]) && EntryAlphabet(PunctuationCommands[5])
  {
    assert EntryAlphabet(PunctuationCommands[4]);
  }

  lemma TableAlphabet67()
    ensures EntryAlphabet(PunctuationCommands[6]) && EntryAlphabet(PunctuationCommands[7])
  {
    assert EntryAlphabet(PunctuationCommands[6]);
  }

  lemma TableAlphabet89()
    ensures EntryAlphabet(PunctuationCommands[8]) && EntryAlphabet(PunctuationCommands[9])
  {
    assert EntryAlphabet(PunctuationCommands[8]);
  }

  lemma TableAlphabet1011()
    ensures EntryAlphabet(PunctuationCommands[10]) && EntryAlphabet(PunctuationCommands[11])
  {
    assert EntryAlphabet(PunctuationCommands[10]);
  }

  lemma LowerOfCommand(s: string)
    requires CommandText(s)
    ensures Lower(s) == s
  {
    LowerIs(s, s);
  }

  lemma LowerOfSymbol(s: string)
    requires SymbolText(s)
    ensures Lower(s) == s
  {
    LowerIs(s, s);
  }

  /** The symbol of one entry is foreign to the command of any entry. */
  lemma EntriesSeparate(m: PunctuationMapping, n: PunctuationMapping)
    requires EntryAlphabet(m) && EntryAlphabet(n)
    ensures WellFormed(m) && Phrase(Lower(n.command))
    ensures Lower(m.replacement) != [] && Foreign(Lower(m.replacement), Lower(n.command))
  {
    LowerOfCommand(n.command);
    LowerOfSymbol(m.replacement);
    forall i | 0 <= i < |m.replacement| ensures m.replacement[i] !in n.command {
      assert forall j :: 0 <= j < |n.command| ==> n.command[j] != m.replacement[i];
    }
  }

  /** The first `n` mappings leave none of their commands behind. */
  lemma {:induction false} PrefixConsumed(text: string, n: nat)
    requires n <= |PunctuationCommands|
    ensures forall k :: 0 <= k < n ==>
              !Contains(Lower(ReplaceAll(text, PunctuationCommands[..n])), Lower(PunctuationCommands[k].command))
    decreases n
  {
    if n > 0 {
      PrefixConsumed(text, n - 1);
      PrefixExtend(text, n);
    }
  }

  /** One more mapping: it consumes its own command and brings none of the
      earlier ones back. */
  lemma PrefixExtend(text: string, n: nat)
    requires 0 < n <= |PunctuationCommands|
    requires forall k :: 0 <= k < n - 1 ==>
               !Contains(Lower(ReplaceAll(text, PunctuationCommands[..n - 1])), Lower(PunctuationCommands[k].command))
    ensures forall k :: 0 <= k < n ==>
              !Contains(Lower(ReplaceAll(text, PunctuationCommands[..n])), Lower(PunctuationCommands[k].command))
  {
    TablesWellFormed();
    var table := PunctuationCommands;
    assert table[..n][..n - 1] == table[..n - 1];
    var prev := ReplaceAll(text, table[..n - 1]);
    assert ReplaceAll(text, table[..n]) == ReplacePunctuation(prev, table[n - 1]);
    forall k | 0 <= k < n
      ensures !Contains(Lower(ReplacePunctuation(prev, table[n - 1])), Lower(table[k].command))
    {
      PrefixKeeps(prev, n, k);
    }
  }

  /** Mapping `n - 1` of the table removes its command and keeps absent the
      command of mapping `k`. */
  lemma PrefixKeeps(prev: string, n: nat, k: nat)
    requires 0 <= k < n <= |PunctuationCommands|
    requires k < n - 1 ==> !Contains(Lower(prev), Lower(PunctuationCommands[k].command))
    ensures WellFormed(PunctuationCommands[n - 1])
    ensures !Contains(Lower(ReplacePunctuation(prev, PunctuationCommands[n - 1])), Lower(PunctuationCommands[k].command))
  {
    TableAlphabet();
    var m := PunctuationCommands[n - 1];
    EntriesSeparate(m, PunctuationCommands[k]);
    if k == n - 1 {
      ReplaceConsumesCommand(prev, m);
    } else {
      ReplaceKeepsAbsent(prev, m, Lower(PunctuationCommands[k].command));
    }
  }

  /** The table runs from the longest command to the shortest, and this is
      what it buys: the text the bare "point" mapping receives holds none of
      the commands before it, ignoring case, so "point d'interrogation",
      "point d'exclamation", "point virgule" and "deux points" are never split
      into "." and a leftover word. */
  lemma PunctuationLongestFirst(text: string)
    ensures forall i, j :: 0 <= i < j < |PunctuationCommands| ==>
              |PunctuationCommands[i].command| >= |PunctuationCommands[j].command|
    ensures forall k :: 0 <= k < 11 ==>
              !Contains(Lower(ReplaceAll(text, PunctuationCommands[..11])), Lower(PunctuationCommands[k].command))
  {
    PrefixConsumed(text, 11);
  }

  /** After the punctuation stage no punctuation word is left, in any case. */
  lemma AllPunctuationConsumed(text: string)
    ensures NoPunctuationWord(ReplaceAll(text, PunctuationCommands))
  {
    PrefixConsumed(text, |PunctuationCommands|);
    assert PunctuationCommands[..|PunctuationCommands|] == PunctuationCommands;
  }
}
