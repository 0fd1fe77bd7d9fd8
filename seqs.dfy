/** Order-preserving filtering, the `iter().filter(..).collect()` and
    `retain` of the Rust code and the `Array.prototype.filter` of the front
    end. */
module Seqs {

  function Filter<T>(xs: seq<T>, keep: T -> bool): seq<T>
    decreases |xs|
  {
    if xs == [] then []
    else (if keep(xs[0]) then [xs[0]] else []) + Filter(xs[1..], keep)
  }

  /** `sub` is `xs` with some elements left out, the rest in their order. */
  predicate IsSubsequence<T(==)>(sub: seq<T>, xs: seq<T>)
    decreases |xs|
  {
    if sub == [] then true
    else if xs == [] then false
    else (sub[0] == xs[0] && IsSubsequence(sub[1..], xs[1..])) || IsSubsequence(sub, xs[1..])
  }

  /** Appending an element keeps every earlier one in its place. */
  lemma SnocKeeps<T>(xs: seq<T>, x: T)
    ensures |xs + [x]| == |xs| + 1 && (xs + [x])[|xs|] == x
    ensures forall k :: 0 <= k < |xs| ==> (xs + [x])[k] == xs[k]
  {
  }

  /** An element is kept exactly when it occurs and passes the test. */
  lemma {:induction false} FilterMembers<T>(xs: seq<T>, keep: T -> bool, x: T)
    ensures x in Filter(xs, keep) <==> x in xs && keep(x)
    decreases |xs|
  {
    if xs != [] {
      FilterMembers(xs[1..], keep, x);
      assert x in xs <==> x == xs[0] || x in xs[1..];
    }
  }

  /** The kept elements keep their relative order. */
  lemma {:induction false} FilterIsSubsequence<T>(xs: seq<T>, keep: T -> bool)
    ensures IsSubsequence(Filter(xs, keep), xs)
    decreases |xs|
  {
    if xs != [] {
      FilterIsSubsequence(xs[1..], keep);
      var r := Filter(xs, keep);
      var rest := Filter(xs[1..], keep);
      if keep(xs[0]) {
        assert r == [xs[0]] + rest;
        assert r[0] == xs[0] && r[1..] == rest;
      } else {
        assert r == rest;
        if r != [] {
          assert IsSubsequence(r, xs[1..]);
        }
      }
    }
  }

  /** Nothing is dropped when every element passes. */
  lemma {:induction false} FilterAllPass<T>(xs: seq<T>, keep: T -> bool)
    requires forall k :: 0 <= k < |xs| ==> keep(xs[k])
    ensures Filter(xs, keep) == xs
    decreases |xs|
  {
    if xs != [] {
      FilterAllPass(xs[1..], keep);
    }
  }

  lemma {:induction false} FilterLength<T>(xs: seq<T>, keep: T -> bool)
    ensures |Filter(xs, keep)| <= |xs|
    decreases |xs|
  {
    if xs != [] {
      FilterLength(xs[1..], keep);
    }
  }

  lemma {:induction false} FilterAppend<T>(a: seq<T>, b: seq<T>, keep: T -> bool)
    ensures Filter(a + b, keep) == Filter(a, keep) + Filter(b, keep)
    decreases |a|
  {
    if a == [] {
      assert a + b == b;
    } else {
      var h := if keep(a[0]) then [a[0]] else [];
      assert (a + b)[0] == a[0] && (a + b)[1..] == a[1..] + b;
      assert Filter(a + b, keep) == h + Filter(a[1..] + b, keep);
      FilterAppend(a[1..], b, keep);
      assert h + (Filter(a[1..], keep) + Filter(b, keep)) == (h + Filter(a[1..], keep)) + Filter(b, keep);
    }
  }

  /** A last element that passes is the last element kept. */
  lemma FilterKeepsLast<T>(xs: seq<T>, keep: T -> bool)
    requires xs != [] && keep(xs[|xs| - 1])
    ensures Filter(xs, keep) != [] && Filter(xs, keep)[|Filter(xs, keep)| - 1] == xs[|xs| - 1]
  {
    var last := xs[|xs| - 1];
    assert xs == xs[..|xs| - 1] + [last];
    FilterAppend(xs[..|xs| - 1], [last], keep);
    assert Filter([last], keep) == [last] + Filter([], keep);
  }
}
