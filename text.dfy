/** Character and string helpers shared by the model: the pieces of Rust's
    `str` API (and of JavaScript's `String`) that the modelled code relies on.
    Strings are sequences of characters; lower- and upper-casing act on one
    character at a time and preserve length. */
module Text {
  import opened Wrappers

  /** Rust's `char::is_whitespace` (Unicode White_Space). */
  predicate IsWhite(c: char) {
    c == ' ' || ('\t' <= c <= '\r') || c == '\U{85}' || c == '\U{A0}' || c == '\U{1680}' ||
    ('\U{2000}' <= c <= '\U{200A}') || c == '\U{2028}' || c == '\U{2029}' || c == '\U{202F}' ||
    c == '\U{205F}' || c == '\U{3000}'
  }

  /** Lower-casing of ASCII and Latin-1 capitals; every other character is kept. */
  function LowerChar(c: char): char {
    if 'A' <= c <= 'Z' || ('À' <= c <= 'Þ' && c != '×') then (c as int + 32) as char
    else c
  }

  /** Upper-casing of ASCII and Latin-1 small letters; every other character is kept. */
  function UpperChar(c: char): char {
    if 'a' <= c <= 'z' || ('à' <= c <= 'þ' && c != '÷') then (c as int - 32) as char
    else c
  }

  function Lower(s: string): (r: string)
    ensures |r| == |s|
    ensures forall i :: 0 <= i < |s| ==> r[i] == LowerChar(s[i])
  {
    seq(|s|, i requires 0 <= i < |s| => LowerChar(s[i]))
  }

  function Upper(s: string): (r: string)
    ensures |r| == |s|
    ensures forall i :: 0 <= i < |s| ==> r[i] == UpperChar(s[i])
  {
    seq(|s|, i requires 0 <= i < |s| => UpperChar(s[i]))
  }

  /** A string lower-cases to `l` when each of its characters does. */
  lemma LowerIs(s: string, l: string)
    requires |s| == |l| && forall i :: 0 <= i < |s| ==> LowerChar(s[i]) == l[i]
    ensures Lower(s) == l
  {
  }

  /** A string upper-cases to `u` when each of its characters does. */
  lemma UpperIs(s: string, u: string)
    requires |s| == |u| && forall i :: 0 <= i < |s| ==> UpperChar(s[i]) == u[i]
    ensures Upper(s) == u
  {
  }

  lemma LowerIdempotent(s: string)
    ensures Lower(Lower(s)) == Lower(s)
  {
    forall i | 0 <= i < |s| ensures Lower(Lower(s))[i] == Lower(s)[i] {
      var c := s[i];
      if 'A' <= c <= 'Z' || ('À' <= c <= 'Þ' && c != '×') {
        assert LowerChar(LowerChar(c)) == LowerChar(c);
      }
    }
  }

  lemma LowerAppend(a: string, b: string)
    ensures Lower(a + b) == Lower(a) + Lower(b)
  {
    assert forall i :: 0 <= i < |a + b| ==> Lower(a + b)[i] == (Lower(a) + Lower(b))[i];
  }

  lemma LowerSlice(s: string, i: nat, j: nat)
    requires i <= j <= |s|
    ensures Lower(s[i..j]) == Lower(s)[i..j]
  {
  }

  /** Number of leading whitespace characters. */
  function LeadingWhite(s: string): (k: nat)
    ensures k <= |s|
    ensures forall j {:trigger IsWhite(s[j])} :: 0 <= j < k ==> IsWhite(s[j])
    ensures k == |s| || !IsWhite(s[k])
  {
    if s == [] || !IsWhite(s[0]) then 0 else 1 + LeadingWhite(s[1..])
  }

  /** Length of `s` once its trailing whitespace is removed. */
  function TrailingEnd(s: string): (k: nat)
    ensures k <= |s|
    ensures forall j {:trigger IsWhite(s[j])} :: k <= j < |s| ==> IsWhite(s[j])
    ensures k == 0 || !IsWhite(s[k - 1])
  {
    if s == [] || !IsWhite(s[|s| - 1]) then |s| else TrailingEnd(s[..|s| - 1])
  }

  /** `str::trim_start`. */
  function TrimStart(s: string): string {
    s[LeadingWhite(s)..]
  }

  /** `str::trim_end`. */
  function TrimEnd(s: string): string {
    s[..TrailingEnd(s)]
  }

  /** `str::trim`. */
  function Trim(s: string): string {
    TrimEnd(TrimStart(s))
  }

  /** True when `s` has no whitespace at either end. */
  predicate Trimmed(s: string) {
    s == [] || (!IsWhite(s[0]) && !IsWhite(s[|s| - 1]))
  }

  lemma TrimIsTrimmed(s: string)
    ensures Trimmed(Trim(s))
    ensures |Trim(s)| <= |s|
  {
  }

  lemma TrimOfTrimmed(s: string)
    requires Trimmed(s)
    ensures TrimStart(s) == s && TrimEnd(s) == s && Trim(s) == s
  {
  }

  /** True when `s` consists of whitespace only (`s.trim().is_empty()`). */
  predicate AllWhite(s: string) {
    forall j :: 0 <= j < |s| ==> IsWhite(s[j])
  }

  lemma TrimEmptyIffAllWhite(s: string)
    ensures Trim(s) == [] <==> AllWhite(s)
    ensures TrimStart(s) == [] <==> AllWhite(s)
    ensures TrimEnd(s) == [] <==> AllWhite(s)
  {
    if !AllWhite(s) {
      var j :| 0 <= j < |s| && !IsWhite(s[j]);
      assert LeadingWhite(s) <= j;
      assert TrailingEnd(s) > j;
      assert TrimStart(s)[j - LeadingWhite(s)] == s[j];
      assert TrailingEnd(TrimStart(s)) > j - LeadingWhite(s);
    }
  }

  /** `p` occurs in `t` at position `i`, compared character by character from `k` on. */
  predicate MatchAt(t: string, p: string, i: nat, k: nat := 0)
    decreases |p| - k
  {
    if k >= |p| then i + |p| <= |t|
    else i + k < |t| && t[i + k] == p[k] && MatchAt(t, p, i, k + 1)
  }

  lemma MatchAtIsSlice(t: string, p: string, i: nat, k: nat)
    requires k <= |p|
    ensures MatchAt(t, p, i, k) <==> (i + |p| <= |t| && t[i + k..i + |p|] == p[k..])
    decreases |p| - k
  {
    if k < |p| {
      MatchAtIsSlice(t, p, i, k + 1);
      if i + |p| <= |t| {
        var u, q := t[i + k..i + |p|], p[k..];
        assert u == [t[i + k]] + t[i + k + 1..i + |p|];
        assert q == [p[k]] + p[k + 1..];
        assert u == q <==> (t[i + k] == p[k] && t[i + k + 1..i + |p|] == p[k + 1..]);
      }
    }
  }

  /** `p` occurs in `t` at position `i`. */
  predicate OccursAt(t: string, p: string, i: nat) {
    i + |p| <= |t| && t[i..i + |p|] == p
  }

  /** The first occurrence of `p` in `t` at or after `from` (`str::find` from an offset). */
  function FindFrom(t: string, p: string, from: nat): Option<nat>
    decreases |t| - from
  {
    if from + |p| > |t| then None
    else if MatchAt(t, p, from) then Some(from)
    else FindFrom(t, p, from + 1)
  }

  /** `FindFrom` answers the first position at or after `from` where `p` occurs,
      and `None` exactly when there is none. */
  lemma FindFromSpec(t: string, p: string, from: nat)
    ensures var r := FindFrom(t, p, from);
      && (r.Some? ==> from <= r.value && OccursAt(t, p, r.value))
      && (r.Some? ==> forall j :: from <= j < r.value ==> !OccursAt(t, p, j))
      && (r.None? ==> forall j :: from <= j ==> !OccursAt(t, p, j))
    decreases |t| - from
  {
    MatchAtIsSlice(t, p, from, 0);
    if from + |p| <= |t| && !MatchAt(t, p, from) {
      FindFromSpec(t, p, from + 1);
    }
  }

  /** What `FindFrom` answers is a position at or after `from` where `p` occurs. */
  lemma FindFromFound(t: string, p: string, from: nat)
    ensures FindFrom(t, p, from).Some? ==>
              from <= FindFrom(t, p, from).value && OccursAt(t, p, FindFrom(t, p, from).value)
  {
    FindFromSpec(t, p, from);
  }

  /** The converse of `FindFromSpec`: the first occurrence at or after
      `from` is what `FindFrom` answers. */
  lemma FindFromFirst(t: string, p: string, from: nat, i: nat)
    requires from <= i && OccursAt(t, p, i)
    requires forall j :: from <= j < i ==> !OccursAt(t, p, j)
    ensures FindFrom(t, p, from) == Some(i)
  {
    FindFromSpec(t, p, from);
  }

  /** `i` is the first position where `p` occurs in `t`. */
  predicate FirstAt(t: string, p: string, i: nat) {
    OccursAt(t, p, i) && forall j :: 0 <= j < i ==> !OccursAt(t, p, j)
  }

  /** `str::find`: the first occurrence. */
  function Find(t: string, p: string): Option<nat> {
    FindFrom(t, p, 0)
  }

  /** `Find` answers the first occurrence, and only one position is first. */
  lemma FindIsFirst(t: string, p: string, i: nat)
    requires FirstAt(t, p, i)
    ensures Find(t, p) == Some(i)
  {
    FindFromFirst(t, p, 0, i);
  }

  predicate Contains(t: string, p: string) {
    exists j :: 0 <= j <= |t| && OccursAt(t, p, j)
  }

  lemma FindIffContains(t: string, p: string)
    ensures Find(t, p).Some? <==> Contains(t, p)
    ensures Find(t, p).Some? ==> OccursAt(t, p, Find(t, p).value)
  {
    FindFromSpec(t, p, 0);
    if Find(t, p).Some? {
      assert OccursAt(t, p, Find(t, p).value);
    }
  }

  /** A pattern holding a character that `t` lacks does not occur in `t`. */
  lemma AbsentCharNoMatch(t: string, p: string, k: nat)
    requires k < |p| && p[k] !in t
    ensures !Contains(t, p) && Find(t, p) == None
  {
    forall j | 0 <= j <= |t| ensures !OccursAt(t, p, j) {
      if j + |p| <= |t| {
        assert t[j..j + |p|][k] == t[j + k];
      }
    }
    FindIffContains(t, p);
  }

  /** The first index at or after `i` that holds no whitespace, or `|s|`. */
  function SkipWhite(s: string, i: nat): (j: nat)
    requires i <= |s|
    ensures i <= j <= |s|
    ensures forall k :: i <= k < j ==> IsWhite(s[k])
    ensures j == |s| || !IsWhite(s[j])
    decreases |s| - i
  {
    if i == |s| || !IsWhite(s[i]) then i else SkipWhite(s, i + 1)
  }

  /** The first index at or after `i` that holds whitespace, or `|s|`. */
  function SkipWord(s: string, i: nat): (j: nat)
    requires i <= |s|
    ensures i <= j <= |s|
    ensures forall k :: i <= k < j ==> !IsWhite(s[k])
    ensures j == |s| || IsWhite(s[j])
    decreases |s| - i
  {
    if i == |s| || IsWhite(s[i]) then i else SkipWord(s, i + 1)
  }

  /** A word: non-empty and free of whitespace. */
  predicate IsWord(w: string) {
    w != [] && forall j :: 0 <= j < |w| ==> !IsWhite(w[j])
  }

  /** `str::split_whitespace`: the maximal runs of non-whitespace
      characters of `s`, in order. */
  function Words(s: string): seq<string>
    decreases |s|
  {
    var j := SkipWhite(s, 0);
    if j == |s| then []
    else
      var k := SkipWord(s, j);
      [s[j..k]] + Words(s[k..])
  }

  /** Every piece of `str::split_whitespace` is non-empty and free of
      whitespace. */
  lemma {:induction false} WordsAreWords(s: string)
    ensures forall k :: 0 <= k < |Words(s)| ==> IsWord(Words(s)[k])
    decreases |s|
  {
    var j := SkipWhite(s, 0);
    if j < |s| {
      var k := SkipWord(s, j);
      WordsAreWords(s[k..]);
    }
  }

  lemma WordsEmptyIffAllWhite(s: string)
    ensures Words(s) == [] <==> AllWhite(s)
  {
    var j := SkipWhite(s, 0);
    if j < |s| {
      assert !IsWhite(s[j]);
    }
  }

  /** `SkipWhite` is the first index from `i` on without whitespace. */
  lemma SkipWhiteIs(s: string, i: nat, j: nat)
    requires i <= j <= |s|
    requires forall k :: i <= k < j ==> IsWhite(s[k])
    requires j == |s| || !IsWhite(s[j])
    ensures SkipWhite(s, i) == j
  {
    var m := SkipWhite(s, i);
    if m < j {
      assert false;
    } else if m > j {
      assert false;
    }
  }

  /** `SkipWord` is the first index from `i` on with whitespace. */
  lemma SkipWordIs(s: string, i: nat, j: nat)
    requires i <= j <= |s|
    requires forall k :: i <= k < j ==> !IsWhite(s[k])
    requires j == |s| || IsWhite(s[j])
    ensures SkipWord(s, i) == j
  {
    var m := SkipWord(s, i);
    if m < j {
      assert false;
    } else if m > j {
      assert false;
    }
  }

  /** A word followed by whitespace (or nothing) is the first word. */
  lemma WordsCons(w: string, rest: string)
    requires IsWord(w)
    requires rest == [] || IsWhite(rest[0])
    ensures Words(w + rest) == [w] + Words(rest)
  {
    var s := w + rest;
    assert forall k :: 0 <= k < |w| ==> s[k] == w[k];
    assert rest != [] ==> s[|w|] == rest[0];
    SkipWhiteIs(s, 0, 0);
    SkipWordIs(s, 0, |w|);
    assert s[0..|w|] == w;
    assert s[|w|..] == rest;
  }

  /** Leading whitespace does not change the words. */
  lemma WordsAfterWhite(c: char, s: string)
    requires IsWhite(c)
    ensures Words([c] + s) == Words(s)
  {
    var j := SkipWhite(s, 0);
    SkipWhiteShift(c, s, 0);
    if j < |s| {
      var k := SkipWord(s, j);
      SkipWordShift(c, s, j);
      ConsSlices(c, s, j, k);
      WordsAt([c] + s, j + 1, k + 1);
      WordsAt(s, j, k);
      SameHeadSameTail(Words([c] + s), Words(s), s[j..k], Words(([c] + s)[k + 1..]), Words(s[k..]));
    }
  }

  lemma SameHeadSameTail(xs: seq<string>, ys: seq<string>, head: string, xt: seq<string>, yt: seq<string>)
    requires xs == [head] + xt && ys == [head] + yt && xt == yt
    ensures xs == ys
  {
  }

  /** One step of `Words`, with the first word's bounds given. */
  lemma WordsAt(s: string, j: nat, k: nat)
    requires j == SkipWhite(s, 0) < |s| && k == SkipWord(s, j)
    ensures Words(s) == [s[j..k]] + Words(s[k..])
  {
  }

  /** Skipping whitespace in `s` from `i` is skipping it one further on in
      `[c] + s`. */
  lemma {:induction false} SkipWhiteShift(c: char, s: string, i: nat)
    requires i <= |s|
    ensures SkipWhite([c] + s, i + 1) == SkipWhite(s, i) + 1
    decreases |s| - i
  {
    if i < |s| {
      assert ([c] + s)[i + 1] == s[i];
      if IsWhite(s[i]) {
        SkipWhiteShift(c, s, i + 1);
      }
    }
  }

  /** The same for skipping a word. */
  lemma {:induction false} SkipWordShift(c: char, s: string, i: nat)
    requires i <= |s|
    ensures SkipWord([c] + s, i + 1) == SkipWord(s, i) + 1
    decreases |s| - i
  {
    if i < |s| {
      assert ([c] + s)[i + 1] == s[i];
      if !IsWhite(s[i]) {
        SkipWordShift(c, s, i + 1);
      }
    }
  }

  lemma ConsSlices(c: char, s: string, j: nat, k: nat)
    requires j <= k <= |s|
    ensures ([c] + s)[j + 1..k + 1] == s[j..k]
    ensures ([c] + s)[k + 1..] == s[k..]
  {
  }

  /** `slice.join(sep)`. */
  function Join(ws: seq<string>, sep: string): string {
    if ws == [] then []
    else if |ws| == 1 then ws[0]
    else ws[0] + sep + Join(ws[1..], sep)
  }

  /** The first piece, then the separator, then the others joined. */
  lemma JoinUnfold(parts: seq<string>, sep: string)
    requires |parts| > 1
    ensures Join(parts, sep) == parts[0] + (sep + Join(parts[1..], sep))
  {
    assert parts[0] + sep + Join(parts[1..], sep) == parts[0] + (sep + Join(parts[1..], sep));
  }

  /** Joining words with single spaces and splitting on whitespace gives
      the words back. */
  lemma {:induction false} WordsJoin(ws: seq<string>)
    requires forall k :: 0 <= k < |ws| ==> IsWord(ws[k])
    ensures Words(Join(ws, " ")) == ws
  {
    if |ws| == 1 {
      WordsCons(ws[0], []);
      assert ws[0] + [] == ws[0];
    } else if |ws| > 1 {
      WordsJoin(ws[1..]);
      WordsJoinStep(ws);
    }
  }

  lemma WordsJoinStep(ws: seq<string>)
    requires |ws| > 1 && IsWord(ws[0])
    requires Words(Join(ws[1..], " ")) == ws[1..]
    ensures Words(Join(ws, " ")) == ws
  {
    var rest := Join(ws[1..], " ");
    JoinUnfold(ws, " ");
    WordsAfterWhite(' ', rest);
    WordsCons(ws[0], " " + rest);
    assert [ws[0]] + ws[1..] == ws;
  }

  /** `s.split(sep)`: the pieces between separators; always at least one piece. */
  function Split(s: string, sep: char): (parts: seq<string>)
    ensures |parts| >= 1
    ensures forall k :: 0 <= k < |parts| ==> sep !in parts[k]
    decreases |s|
  {
    if sep in s then
      var i := IndexOf(s, sep);
      [s[..i]] + Split(s[i + 1..], sep)
    else [s]
  }

  /** Index of the first `c` in `s`. */
  function IndexOf(s: string, c: char): (i: nat)
    requires c in s
    ensures i < |s| && s[i] == c && c !in s[..i]
  {
    if s[0] == c then 0 else 1 + IndexOf(s[1..], c)
  }

  lemma JoinSplit(s: string, sep: char)
    ensures Join(Split(s, sep), [sep]) == s
    decreases |s|
  {
    if sep in s {
      var i := IndexOf(s, sep);
      JoinSplit(s[i + 1..], sep);
      JoinCons(s[..i], Split(s[i + 1..], sep), [sep]);
      assert s == s[..i] + [sep] + s[i + 1..];
    }
  }

  /** Joining a piece in front of at least one other. */
  lemma JoinCons(first: string, rest: seq<string>, sep: string)
    requires |rest| >= 1
    ensures Join([first] + rest, sep) == first + sep + Join(rest, sep)
  {
    assert ([first] + rest)[1..] == rest;
  }

  /** The first separator of `a + [sep] + b` sits right after `a` when `a`
      has none. */
  lemma {:induction false} IndexOfAfter(a: string, sep: char, b: string)
    requires sep !in a
    ensures sep in a + [sep] + b
    ensures IndexOf(a + [sep] + b, sep) == |a|
  {
    var s := a + [sep] + b;
    assert s[|a|] == sep;
    if a != [] {
      IndexOfAfter(a[1..], sep, b);
      assert s[1..] == a[1..] + [sep] + b;
    }
  }

  /** Splitting a join on a separator none of the pieces contains gives the
      pieces back. */
  lemma {:induction false} SplitJoin(parts: seq<string>, sep: char)
    requires |parts| >= 1
    requires forall k :: 0 <= k < |parts| ==> sep !in parts[k]
    ensures Split(Join(parts, [sep]), sep) == parts
  {
    if |parts| > 1 {
      var rest := Join(parts[1..], [sep]);
      var s := parts[0] + [sep] + rest;
      assert Join(parts, [sep]) == s;
      IndexOfAfter(parts[0], sep, rest);
      var i := |parts[0]|;
      assert s[..i] == parts[0];
      assert s[i + 1..] == rest;
      assert Split(s, sep) == [s[..i]] + Split(s[i + 1..], sep);
      SplitJoin(parts[1..], sep);
      assert parts == [parts[0]] + parts[1..];
    }
  }
}
