/**
 * The JavaScript array operations the core is written with, over Dafny
 * sequences: `filter`, `map`, `slice(-n)` and `slice(0, n)`, and the
 * order-preserving subsequence relation used to state what `filter` keeps.
 */
module Seqs {

  /** `xs.filter(p)`: the elements of `s` that satisfy `p`, left to right. */
  function Filter<T>(s: seq<T>, p: T -> bool): (r: seq<T>)
    ensures |r| <= |s|
    ensures forall k :: 0 <= k < |r| ==> p(r[k])
  {
    if s == [] then []
    else if p(s[0]) then [s[0]] + Filter(s[1..], p)
    else Filter(s[1..], p)
  }

  /** `xs.map(f)`; `f` may be partial, as long as it is defined on every element. */
  function Map<T, U>(s: seq<T>, f: T --> U): (r: seq<U>)
    requires forall k :: 0 <= k < |s| ==> f.requires(s[k])
    ensures |r| == |s|
    ensures forall k :: 0 <= k < |s| ==> r[k] == f(s[k])
  {
    if s == [] then [] else [f(s[0])] + Map(s[1..], f)
  }

  /** Maps that agree element by element give equal results. */
  lemma MapPointwise<T, U, V>(a: seq<T>, b: seq<U>, f: T --> V, g: U --> V)
    requires |a| == |b|
    requires forall k :: 0 <= k < |a| ==> f.requires(a[k]) && g.requires(b[k]) && f(a[k]) == g(b[k])
    ensures Map(a, f) == Map(b, g)
  {
  }

  /** The smaller of `a` and `b`. */
  function Min(a: int, b: int): (m: int)
  {
    if a <= b then a else b
  }

  /** `xs.slice(-n)` for n > 0: the last min(n, |s|) elements of `s`. */
  function TakeLast<T>(s: seq<T>, n: nat): (r: seq<T>)
    ensures |r| == Min(n, |s|)
    ensures s[..|s| - |r|] + r == s
    ensures forall k :: 0 <= k < |r| ==> r[k] == s[|s| - |r| + k]
  {
    if |s| <= n then s else s[|s| - n..]
  }

  /** Taking the last `n` elements commutes with `map`. */
  lemma TakeLastMap<T, U>(s: seq<T>, f: T -> U, n: nat)
    ensures TakeLast(Map(s, f), n) == Map(TakeLast(s, n), f)
  {
    if n < |s| {
      var m, t := Map(s, f), s[|s| - n..];
      assert TakeLast(m, n) == m[|s| - n..];
      assert TakeLast(s, n) == t;
      forall k | 0 <= k < n ensures m[|s| - n..][k] == Map(t, f)[k] {
        assert m[|s| - n..][k] == m[|s| - n + k] == f(s[|s| - n + k]);
      }
    }
  }

  /** Every element of `xs.slice(-n)` is an element of `xs`, so it keeps what all of them satisfy. */
  lemma TakeLastAll<T>(s: seq<T>, n: nat, p: T -> bool)
    requires forall k :: 0 <= k < |s| ==> p(s[k])
    ensures forall k :: 0 <= k < |TakeLast(s, n)| ==> p(TakeLast(s, n)[k])
  {
    var r := TakeLast(s, n);
    forall k | 0 <= k < |r| ensures p(r[k]) {
      assert r[k] == s[|s| - |r| + k];
    }
  }

  /** `xs.slice(0, n)`: the first min(n, |s|) elements of `s`. */
  function Take<T>(s: seq<T>, n: nat): (r: seq<T>)
    ensures |r| == Min(n, |s|)
    ensures r + s[|r|..] == s
  {
    if |s| <= n then s else s[..n]
  }

  /** `a` is obtained from `b` by deleting elements, keeping the order of the rest. */
  ghost predicate IsSubsequence<T>(a: seq<T>, b: seq<T>)
  {
    if a == [] then true
    else if b == [] then false
    else (a[0] == b[0] && IsSubsequence(a[1..], b[1..])) || IsSubsequence(a, b[1..])
  }

  /** `filter` keeps each element exactly as often as it occurs, if it satisfies `p`. */
  lemma {:induction false} FilterCount<T>(s: seq<T>, p: T -> bool, x: T)
    ensures multiset(Filter(s, p))[x] == if p(x) then multiset(s)[x] else 0
  {
    if s != [] {
      FilterCount(s[1..], p, x);
      assert s == [s[0]] + s[1..];
    }
  }

  /** `filter` keeps the relative order of what it keeps. */
  lemma {:induction false} FilterIsSubsequence<T>(s: seq<T>, p: T -> bool)
    ensures IsSubsequence(Filter(s, p), s)
  {
    if s != [] {
      FilterIsSubsequence(s[1..], p);
      if !p(s[0]) {
        SubsequenceOfTail(Filter(s[1..], p), s);
      }
    }
  }

  lemma SubsequenceOfTail<T>(a: seq<T>, b: seq<T>)
    requires b != [] && IsSubsequence(a, b[1..])
    ensures IsSubsequence(a, b)
  {
  }

  /** A filter by a stronger predicate is a subsequence of the filter by a weaker one. */
  lemma {:induction false} FilterMonotone<T>(s: seq<T>, p: T -> bool, q: T -> bool)
    requires forall x :: p(x) ==> q(x)
    ensures IsSubsequence(Filter(s, p), Filter(s, q))
  {
    if s != [] {
      FilterMonotone(s[1..], p, q);
      if !p(s[0]) && q(s[0]) {
        SubsequenceOfTail(Filter(s[1..], p), Filter(s, q));
      }
    }
  }

  /** Filtering by a predicate every element satisfies changes nothing. */
  lemma {:induction false} FilterKeepsAll<T>(s: seq<T>, p: T -> bool)
    requires forall k :: 0 <= k < |s| ==> p(s[k])
    ensures Filter(s, p) == s
  {
    if s != [] {
      FilterKeepsAll(s[1..], p);
    }
  }

  /** The filter is empty exactly when no element satisfies the predicate. */
  lemma {:induction false} FilterEmpty<T>(s: seq<T>, p: T -> bool)
    ensures Filter(s, p) == [] <==> forall k :: 0 <= k < |s| ==> !p(s[k])
  {
    if s != [] {
      FilterEmpty(s[1..], p);
      if !p(s[0]) {
        assert forall k :: 1 <= k < |s| ==> s[k] == s[1..][k - 1];
      }
    }
  }

  /** Filters by predicates that agree on every element are equal. */
  lemma {:induction false} FilterCongruent<T>(s: seq<T>, p: T -> bool, q: T -> bool)
    requires forall k :: 0 <= k < |s| ==> p(s[k]) == q(s[k])
    ensures Filter(s, p) == Filter(s, q)
  {
    if s != [] {
      FilterCongruent(s[1..], p, q);
    }
  }

  /** Filtering a concatenation filters each part. */
  lemma {:induction false} FilterAppend<T>(a: seq<T>, b: seq<T>, p: T -> bool)
    ensures Filter(a + b, p) == Filter(a, p) + Filter(b, p)
  {
    if a == [] {
      assert a + b == b;
    } else {
      FilterAppend(a[1..], b, p);
      assert (a + b)[1..] == a[1..] + b;
    }
  }

  /** An element the predicate rejects leaves no trace in the filter, wherever it stands. */
  lemma FilterDrops<T>(a: seq<T>, x: T, b: seq<T>, p: T -> bool)
    requires !p(x)
    ensures Filter(a + [x] + b, p) == Filter(a + b, p)
  {
    FilterAppend(a + [x], b, p);
    FilterAppend(a, [x], p);
    FilterAppend(a, b, p);
    assert Filter([x], p) == [];
  }

  /** Filtering twice by the same predicate is filtering once. */
  lemma FilterIdempotent<T>(s: seq<T>, p: T -> bool)
    ensures Filter(Filter(s, p), p) == Filter(s, p)
  {
    FilterKeepsAll(Filter(s, p), p);
  }
}
