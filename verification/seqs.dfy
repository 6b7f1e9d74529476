/** Sequence helpers standing in for the store's query operators: `findFirst`
    (first match), `where` (filter), `orderBy ... desc` (stable sort on an
    integer key) and `take`. */
module Seqs {
  import opened Common

  /** Index of the first element satisfying `p`, if any. */
  function FirstIndex<T>(s: seq<T>, p: T -> bool): (r: Option<nat>)
    ensures r.Some? ==> r.value < |s| && p(s[r.value])
    ensures r.Some? ==> forall j :: 0 <= j < r.value ==> !p(s[j])
    ensures r.None? ==> forall i :: 0 <= i < |s| ==> !p(s[i])
  {
    if |s| == 0 then None
    else if p(s[0]) then Some(0)
    else match FirstIndex(s[1..], p)
      case None => None
      case Some(k) => Some(k + 1)
  }

  /** The first element satisfying `p` (the store's `findFirst` and
      `findUnique`), if any. */
  function Find<T>(s: seq<T>, p: T -> bool): (r: Option<T>)
    ensures r.Some? ==> r.value in s && p(r.value)
    ensures r.None? ==> forall x :: x in s ==> !p(x)
  {
    match FirstIndex(s, p)
    case Some(i) => Some(s[i])
    case None => None
  }

  /** The elements of `s` satisfying `p`, in their original order. */
  function Filter<T(!new)>(s: seq<T>, p: T -> bool): (r: seq<T>)
    ensures |r| <= |s|
    ensures forall i :: 0 <= i < |r| ==> p(r[i])
    ensures forall x :: multiset(r)[x] == if p(x) then multiset(s)[x] else 0
    ensures forall x :: x in r <==> x in s && p(x)
  {
    if |s| == 0 then []
    else
      assert s == [s[0]] + s[1..];
      if p(s[0]) then [s[0]] + Filter(s[1..], p) else Filter(s[1..], p)
  }

  /** `a` is `b` with some elements removed, the rest kept in order. */
  ghost predicate IsSubseq<T>(a: seq<T>, b: seq<T>)
    decreases |b|
  {
    |a| == 0 || (|b| > 0 && ((a[0] == b[0] && IsSubseq(a[1..], b[1..])) || IsSubseq(a, b[1..])))
  }

  /** Filtering keeps the survivors in their original relative order. */
  lemma {:induction false} FilterIsSubseq<T(!new)>(s: seq<T>, p: T -> bool)
    ensures IsSubseq(Filter(s, p), s)
  {
    if |s| > 0 {
      FilterIsSubseq(s[1..], p);
      var r := Filter(s, p);
      if p(s[0]) {
        assert r[0] == s[0] && r[1..] == Filter(s[1..], p);
      } else {
        assert r == Filter(s[1..], p);
      }
    }
  }

  /** A filter whose predicate holds everywhere returns its input unchanged. */
  lemma {:induction false} FilterKeepsAll<T(!new)>(s: seq<T>, p: T -> bool)
    requires forall i :: 0 <= i < |s| ==> p(s[i])
    ensures Filter(s, p) == s
  {
    if |s| > 0 {
      FilterKeepsAll(s[1..], p);
      assert s == [s[0]] + s[1..];
    }
  }

  /** Filtering twice with the same predicate is filtering once. */
  lemma FilterIdempotent<T(!new)>(s: seq<T>, p: T -> bool)
    ensures Filter(Filter(s, p), p) == Filter(s, p)
  {
    FilterKeepsAll(Filter(s, p), p);
  }

  /** Keys never increase from left to right. */
  ghost predicate SortedDesc<T>(s: seq<T>, key: T -> int) {
    forall i, j :: 0 <= i < j < |s| ==> key(s[i]) >= key(s[j])
  }

  /** Inserts `x` into a descending sequence before the first element whose
      key is not larger than its own. */
  function InsertDesc<T>(x: T, s: seq<T>, key: T -> int): (r: seq<T>)
    requires SortedDesc(s, key)
    ensures |r| == |s| + 1
    ensures multiset(r) == multiset(s) + multiset{x}
    ensures SortedDesc(r, key)
  {
    if |s| == 0 || key(x) >= key(s[0]) then [x] + s
    else
      assert s == [s[0]] + s[1..];
      var rest := InsertDesc(x, s[1..], key);
      HeadStaysFirst(x, s, rest, key);
      [s[0]] + rest
  }

  /** When `x` goes after the head of `s`, the head still comes first. */
  lemma HeadStaysFirst<T>(x: T, s: seq<T>, rest: seq<T>, key: T -> int)
    requires SortedDesc(s, key) && |s| > 0 && key(x) < key(s[0])
    requires SortedDesc(rest, key)
    requires multiset(rest) == multiset(s[1..]) + multiset{x}
    ensures SortedDesc([s[0]] + rest, key)
  {
    forall k | 0 <= k < |rest|
      ensures key(s[0]) >= key(rest[k])
    {
      assert rest[k] in multiset(rest);
      if rest[k] != x {
        assert rest[k] in multiset(s[1..]);
        var j :| 0 <= j < |s[1..]| && s[1..][j] == rest[k];
        assert s[j + 1] == rest[k];
      }
    }
    var r := [s[0]] + rest;
    forall i, j | 0 <= i < j < |r|
      ensures key(r[i]) >= key(r[j])
    {
      if i > 0 {
        assert r[i] == rest[i - 1] && r[j] == rest[j - 1];
      } else {
        assert r[j] == rest[j - 1];
      }
    }
  }

  /** A stable sort into descending key order (the store's `orderBy desc`). */
  function SortDesc<T>(s: seq<T>, key: T -> int): (r: seq<T>)
    ensures |r| == |s|
    ensures multiset(r) == multiset(s)
    ensures SortedDesc(r, key)
  {
    if |s| == 0 then []
    else
      assert s == [s[0]] + s[1..];
      InsertDesc(s[0], SortDesc(s[1..], key), key)
  }

  /** At most the first `n` elements (the store's `take`). */
  function Take<T>(s: seq<T>, n: nat): (r: seq<T>)
    ensures |r| <= n && |r| <= |s|
    ensures r == s[..|r|]
    ensures |s| <= n ==> r == s
    ensures |s| > n ==> |r| == n
  {
    if |s| <= n then s else s[..n]
  }

  /** The first `n` elements of a descending sequence are its `n` largest:
      an element left out has a key no larger than any element kept. */
  lemma TakeOfSortedIsTop<T>(s: seq<T>, key: T -> int, n: nat, x: T)
    requires SortedDesc(s, key)
    requires x in s
    ensures x in Take(s, n) || forall y :: y in Take(s, n) ==> key(y) >= key(x)
  {
    var k :| 0 <= k < |s| && s[k] == x;
    var t := Take(s, n);
    if k < |t| {
      assert t[k] == x;
    } else {
      forall y | y in t
        ensures key(y) >= key(x)
      {
        var j :| 0 <= j < |t| && t[j] == y;
        assert s[j] == y;
      }
    }
  }

  /** Removing the element at `i` removes one occurrence of it. */
  lemma RemoveAt<T>(s: seq<T>, i: nat)
    requires i < |s|
    ensures multiset(s[..i] + s[i + 1..]) + multiset{s[i]} == multiset(s)
  {
    assert s == s[..i] + [s[i]] + s[i + 1..];
  }

  /** Mapping a function over two permutations of one another gives two
      permutations of one another: `fx` and `fy` are `f` applied to `xs`
      and `ys`, element by element. */
  lemma {:induction false} MapPermutation<A, B>(xs: seq<A>, ys: seq<A>, f: A --> B, fx: seq<B>, fy: seq<B>)
    requires multiset(xs) == multiset(ys)
    requires forall x :: x in xs ==> f.requires(x)
    requires forall y :: y in ys ==> f.requires(y)
    requires |fx| == |xs| && forall i :: 0 <= i < |xs| ==> fx[i] == f(xs[i])
    requires |fy| == |ys| && forall i :: 0 <= i < |ys| ==> fy[i] == f(ys[i])
    ensures multiset(fx) == multiset(fy)
    decreases |xs|
  {
    if |xs| == 0 {
      assert |ys| == |multiset(ys)| == 0;
    } else {
      assert xs[0] in multiset(ys);
      var i :| 0 <= i < |ys| && ys[i] == xs[0];
      MapTail(xs, ys, f, fx, fy, i);
      MapPermutation(xs[1..], ys[..i] + ys[i + 1..], f, fx[1..], fy[..i] + fy[i + 1..]);
      MapCons(fx, fy, i);
    }
  }

  /** Removing the matching element at the front of `fx` and at `i` in `fy`
      leaves the rest of the permutation to prove. */
  lemma MapCons<B>(fx: seq<B>, fy: seq<B>, i: nat)
    requires 0 < |fx| && i < |fy| && fy[i] == fx[0]
    requires multiset(fx[1..]) == multiset(fy[..i] + fy[i + 1..])
    ensures multiset(fx) == multiset(fy)
  {
    RemoveAt(fx, 0);
    RemoveAt(fy, i);
    assert fx[..0] + fx[1..] == fx[1..];
  }

  /** Removing `xs[0]` from `xs` and the equal `ys[i]` from `ys` keeps the
      two permutations of one another. */
  lemma RemoveMatching<A>(xs: seq<A>, ys: seq<A>, i: nat)
    requires 0 < |xs| && i < |ys| && ys[i] == xs[0]
    requires multiset(xs) == multiset(ys)
    ensures multiset(xs[1..]) == multiset(ys[..i] + ys[i + 1..])
  {
    var ys' := ys[..i] + ys[i + 1..];
    RemoveAt(xs, 0);
    RemoveAt(ys, i);
    assert xs[..0] + xs[1..] == xs[1..];
    forall z
      ensures multiset(xs[1..])[z] == multiset(ys')[z]
    {
      assert multiset(xs[1..])[z] + multiset{xs[0]}[z] == multiset(xs)[z];
      assert multiset(ys')[z] + multiset{ys[i]}[z] == multiset(ys)[z];
    }
  }

  /** The element-wise facts survive removing the first element of `xs`
      and the element at `i` of `ys`. */
  lemma MapTail<A, B>(xs: seq<A>, ys: seq<A>, f: A --> B, fx: seq<B>, fy: seq<B>, i: nat)
    requires 0 < |xs| && i < |ys| && ys[i] == xs[0]
    requires multiset(xs) == multiset(ys)
    requires forall x :: x in xs ==> f.requires(x)
    requires forall y :: y in ys ==> f.requires(y)
    requires |fx| == |xs| && forall k :: 0 <= k < |xs| ==> fx[k] == f(xs[k])
    requires |fy| == |ys| && forall k :: 0 <= k < |ys| ==> fy[k] == f(ys[k])
    ensures fy[i] == fx[0]
    ensures multiset(xs[1..]) == multiset(ys[..i] + ys[i + 1..])
    ensures forall x :: x in xs[1..] ==> f.requires(x)
    ensures forall y :: y in ys[..i] + ys[i + 1..] ==> f.requires(y)
    ensures |fx[1..]| == |xs[1..]| && forall k :: 0 <= k < |xs[1..]| ==> fx[1..][k] == f(xs[1..][k])
    ensures var ys', fy' := ys[..i] + ys[i + 1..], fy[..i] + fy[i + 1..];
      |fy'| == |ys'| && forall k :: 0 <= k < |ys'| ==> fy'[k] == f(ys'[k])
  {
    RemoveMatching(xs, ys, i);
    var ys' := ys[..i] + ys[i + 1..];
    var fy' := fy[..i] + fy[i + 1..];
    forall x | x in xs[1..]
      ensures f.requires(x)
    {
      assert x in xs;
    }
    forall y | y in ys'
      ensures f.requires(y)
    {
      assert y in ys;
    }
    forall k | 0 <= k < |ys'|
      ensures fy'[k] == f(ys'[k])
    {
      if k < i {
        assert fy'[k] == fy[k] && ys'[k] == ys[k];
      } else {
        assert fy'[k] == fy[k + 1] && ys'[k] == ys[k + 1];
      }
    }
  }
}
