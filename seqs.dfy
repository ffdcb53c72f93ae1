/** Order-preserving filtering of sequences, the `Array.prototype.filter` used by
    the clip store (delete by id) and by the catalogue search. */
module Seqs {

  /** `r` is obtained from `xs` by dropping elements, keeping the order of the rest. */
  ghost predicate IsSubseq<T>(r: seq<T>, xs: seq<T>)
    decreases |xs|
  {
    if r == [] then true
    else if xs == [] then false
    else if r[0] == xs[0] then IsSubseq(r[1..], xs[1..])
    else IsSubseq(r, xs[1..])
  }

  /** The elements of `xs` for which `keep` holds, in their original order. */
  function Filter<T(!new)>(xs: seq<T>, keep: T -> bool): (r: seq<T>)
    ensures |r| <= |xs|
    ensures forall x :: x in r <==> x in xs && keep(x)
    ensures forall x :: multiset(r)[x] == if keep(x) then multiset(xs)[x] else 0
  {
    if xs == [] then []
    else
      var rest := Filter(xs[1..], keep);
      assert xs == [xs[0]] + xs[1..];
      if keep(xs[0]) then [xs[0]] + rest else rest
  }

  lemma {:induction false} FilterIsSubseq<T(!new)>(xs: seq<T>, keep: T -> bool)
    ensures IsSubseq(Filter(xs, keep), xs)
  {
    if xs != [] {
      FilterIsSubseq(xs[1..], keep);
      var rest := Filter(xs[1..], keep);
      if !keep(xs[0]) {
        SubseqDropHead(rest, xs);
      }
    }
  }

  /** Dropping the first element of `xs` keeps every subsequence of the tail a subsequence. */
  lemma {:induction false} SubseqDropHead<T>(r: seq<T>, xs: seq<T>)
    requires xs != []
    requires IsSubseq(r, xs[1..])
    ensures IsSubseq(r, xs)
    decreases |xs|, 1
  {
    if r != [] && r[0] == xs[0] {
      SubseqOfTail(r, xs[1..]);
    }
  }

  /** From `IsSubseq(r, ys)` follows `IsSubseq(r[1..], ys)`. */
  lemma {:induction false} SubseqOfTail<T>(r: seq<T>, ys: seq<T>)
    requires r != []
    requires IsSubseq(r, ys)
    ensures IsSubseq(r[1..], ys)
    decreases |ys|, 2
  {
    if ys != [] {
      if r[0] == ys[0] {
        SubseqDropHead(r[1..], ys);
      } else {
        SubseqOfTail(r, ys[1..]);
        SubseqDropHead(r[1..], ys);
      }
    }
  }

  /** Nothing is dropped exactly when every element passes. */
  lemma {:induction false} FilterKeepsAllIff<T(!new)>(xs: seq<T>, keep: T -> bool)
    ensures Filter(xs, keep) == xs <==> forall x :: x in xs ==> keep(x)
    ensures |Filter(xs, keep)| == |xs| <==> forall x :: x in xs ==> keep(x)
  {
    if xs != [] {
      FilterKeepsAllIff(xs[1..], keep);
      assert xs == [xs[0]] + xs[1..];
      if !keep(xs[0]) {
        assert |Filter(xs, keep)| <= |xs[1..]|;
      }
    }
  }

  /** Filtering twice with the same test is filtering once. */
  lemma {:induction false} FilterIdempotent<T(!new)>(xs: seq<T>, keep: T -> bool)
    ensures Filter(Filter(xs, keep), keep) == Filter(xs, keep)
  {
    FilterKeepsAllIff(Filter(xs, keep), keep);
  }

  /** Two tests that agree everywhere select the same elements. */
  lemma {:induction false} FilterSameTest<T(!new)>(xs: seq<T>, p: T -> bool, q: T -> bool)
    requires forall x :: p(x) == q(x)
    ensures Filter(xs, p) == Filter(xs, q)
  {
    if xs != [] {
      FilterSameTest(xs[1..], p, q);
    }
  }

  /** A stricter test selects a subsequence of what a looser one selects. */
  lemma {:induction false} FilterStricterTest<T(!new)>(xs: seq<T>, p: T -> bool, q: T -> bool)
    requires forall x :: p(x) ==> q(x)
    ensures IsSubseq(Filter(xs, p), Filter(xs, q))
  {
    if xs != [] {
      FilterStricterTest(xs[1..], p, q);
      var rp, rq := Filter(xs[1..], p), Filter(xs[1..], q);
      if !p(xs[0]) && q(xs[0]) {
        SubseqDropHead(rp, [xs[0]] + rq);
      }
    }
  }
}
