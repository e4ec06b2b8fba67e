/** Order-preserving selection from a list: `Array.prototype.filter` and `slice(0, n)`. */
module Sequences {

  /** `ys` can be turned into `xs` by deleting elements: a subsequence, order kept. */
  ghost predicate IsSubsequence<T>(xs: seq<T>, ys: seq<T>)
    decreases |ys|
  {
    xs == []
    || (ys != [] && xs[0] == ys[0] && IsSubsequence(xs[1..], ys[1..]))
    || (ys != [] && IsSubsequence(xs, ys[1..]))
  }

  /** Every list is a subsequence of itself. */
  lemma {:induction false} SubsequenceOfItself<T>(xs: seq<T>)
    ensures IsSubsequence(xs, xs)
    decreases |xs|
  {
    if xs != [] {
      SubsequenceOfItself(xs[1..]);
    }
  }

  /** `xs.filter(p)`: the elements satisfying `p`, in their original order. */
  function Filter<T>(xs: seq<T>, p: T -> bool): (r: seq<T>)
    ensures |r| <= |xs|
    ensures forall i | 0 <= i < |r| :: p(r[i])
    ensures forall x | x in r :: x in xs
    ensures forall x | x in xs && p(x) :: x in r
    ensures IsSubsequence(r, xs)
  {
    if xs == [] then []
    else if p(xs[0]) then [xs[0]] + Filter(xs[1..], p)
    else Filter(xs[1..], p)
  }

  /**
   * `filter` keeps every passing element as often as the input holds it and
   * drops every other: with `IsSubsequence`, the result is determined.
   */
  lemma {:induction false} FilterCounts<T>(xs: seq<T>, p: T -> bool)
    ensures forall x | x in xs :: multiset(Filter(xs, p))[x] == if p(x) then multiset(xs)[x] else 0
    decreases |xs|
  {
    if xs != [] {
      FilterCounts(xs[1..], p);
      assert xs == [xs[0]] + xs[1..];
      forall x | x in xs ensures multiset(Filter(xs, p))[x] == if p(x) then multiset(xs)[x] else 0 {
        if x !in xs[1..] {
          assert multiset(Filter(xs[1..], p))[x] == 0;
        }
      }
    }
  }

  /** Filtering a concatenation filters each part. */
  lemma {:induction false} FilterConcat<T>(a: seq<T>, b: seq<T>, p: T -> bool)
    ensures Filter(a + b, p) == Filter(a, p) + Filter(b, p)
  {
    if a != [] {
      assert (a + b)[1..] == a[1..] + b;
      FilterConcat(a[1..], b, p);
    } else {
      assert a + b == b;
    }
  }

  /** Filtering a list with one more element at the end. */
  lemma FilterSnoc<T>(xs: seq<T>, x: T, p: T -> bool)
    ensures Filter(xs + [x], p) == Filter(xs, p) + (if p(x) then [x] else [])
  {
    FilterConcat(xs, [x], p);
    assert [x][1..] == [];
  }

  /** `ys` pairs up with `xs` element by element under `rel`. */
  predicate Pointwise<A, B>(ys: seq<B>, xs: seq<A>, rel: (B, A) -> bool) {
    |ys| == |xs| && forall k | 0 <= k < |ys| :: rel(ys[k], xs[k])
  }

  /** A related pair pushed in front of pointwise related lists. */
  lemma PointwiseCons<A, B>(y: B, x: A, ys: seq<B>, xs: seq<A>, rel: (B, A) -> bool)
    requires rel(y, x) && Pointwise(ys, xs, rel)
    ensures Pointwise([y] + ys, [x] + xs, rel)
  {
    forall k | 0 <= k < 1 + |ys| ensures rel(([y] + ys)[k], ([x] + xs)[k]) {
      if k > 0 {
        assert ([y] + ys)[k] == ys[k - 1] && ([x] + xs)[k] == xs[k - 1];
      }
    }
  }

  /** A list whose every element passes comes back unchanged. */
  lemma {:induction false} FilterKeepsAll<T>(xs: seq<T>, p: T -> bool)
    requires forall i | 0 <= i < |xs| :: p(xs[i])
    ensures Filter(xs, p) == xs
  {
    if xs != [] {
      FilterKeepsAll(xs[1..], p);
    }
  }

  /** A list whose every element fails comes back empty. */
  lemma {:induction false} FilterDropsAll<T>(xs: seq<T>, p: T -> bool)
    requires forall i | 0 <= i < |xs| :: !p(xs[i])
    ensures Filter(xs, p) == []
  {
    if xs != [] {
      FilterDropsAll(xs[1..], p);
    }
  }

  /** `xs.slice(0, n)`: the first `n` elements, or all of them when there are fewer. */
  function Take<T>(xs: seq<T>, n: nat): (r: seq<T>)
    ensures |r| == if |xs| < n then |xs| else n
    ensures r == xs[..|r|]
  {
    if |xs| < n then xs else xs[..n]
  }

  /** The lists `f` gives for each element, concatenated in order (`for … of` with `concat`). */
  function FlatMap<A, B>(xs: seq<A>, f: A -> seq<B>): seq<B>
    decreases |xs|
  {
    if xs == [] then [] else FlatMap(xs[..|xs| - 1], f) + f(xs[|xs| - 1])
  }

  /** Flat-mapping a concatenation flat-maps each part. */
  lemma {:induction false} FlatMapConcat<A, B>(a: seq<A>, b: seq<A>, f: A -> seq<B>)
    ensures FlatMap(a + b, f) == FlatMap(a, f) + FlatMap(b, f)
    decreases |b|
  {
    if b == [] {
      assert a + b == a;
    } else {
      var b0 := b[..|b| - 1];
      assert (a + b)[..|a + b| - 1] == a + b0 && (a + b)[|a + b| - 1] == b[|b| - 1];
      FlatMapConcat(a, b0, f);
    }
  }

  /** Every element of a flat map comes from the list of one of the inputs. */
  lemma {:induction false} FlatMapMember<A, B>(xs: seq<A>, f: A -> seq<B>, k: nat)
    requires k < |FlatMap(xs, f)|
    ensures exists i | 0 <= i < |xs| :: FlatMap(xs, f)[k] in f(xs[i])
    decreases |xs|
  {
    var n := |xs| - 1;
    var front, last := FlatMap(xs[..n], f), f(xs[n]);
    if k < |front| {
      FlatMapMember(xs[..n], f, k);
      var i :| 0 <= i < n && front[k] in f(xs[..n][i]);
      assert xs[..n][i] == xs[i];
    } else {
      assert (front + last)[k] == last[k - |front|];
    }
  }

  /** Concatenation regrouped; a named step for loops that push onto a prefix. */
  lemma ConcatAssoc<T>(a: seq<T>, b: seq<T>, c: seq<T>)
    ensures (a + b) + c == a + (b + c)
  {
  }

  /** Filters that agree on every element of a list keep the same elements. */
  lemma {:induction false} FilterCongruent<T>(xs: seq<T>, p: T -> bool, q: T -> bool)
    requires forall i | 0 <= i < |xs| :: p(xs[i]) == q(xs[i])
    ensures Filter(xs, p) == Filter(xs, q)
  {
    if xs != [] {
      assert forall i | 0 <= i < |xs| - 1 :: xs[1..][i] == xs[i + 1];
      FilterCongruent(xs[1..], p, q);
    }
  }
}
