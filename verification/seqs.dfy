/** Sequence helpers shared by the parsers and the aggregations: the
    `filter_map(..).collect()` idiom, counting, summing and a stable
    insertion sort by a numeric key in non-increasing order. */
module Seqs {
  import opened Wrappers

  /** The positions of `s` at which `f` yields a value, in increasing order. */
  function SomeIndices<A, B>(f: A -> Option<B>, s: seq<A>): (ix: seq<nat>)
    ensures forall k :: 0 <= k < |ix| ==> ix[k] < |s| && f(s[ix[k]]).Some?
    ensures forall k, l :: 0 <= k < l < |ix| ==> ix[k] < ix[l]
    ensures forall i :: 0 <= i < |s| && f(s[i]).Some? ==> i in ix
    decreases |s|
  {
    if |s| == 0 then []
    else
      var rest := SomeIndices(f, s[..|s| - 1]);
      if f(s[|s| - 1]).Some? then rest + [|s| - 1] else rest
  }

  /** `iter.filter_map(f).collect()`: the values `f` yields, in input order.
      The k-th result is the value at the k-th position where `f` succeeds. */
  function FilterMap<A, B>(f: A -> Option<B>, s: seq<A>): (r: seq<B>)
    ensures |r| == |SomeIndices(f, s)| <= |s|
    ensures forall k :: 0 <= k < |r| ==> f(s[SomeIndices(f, s)[k]]) == Some(r[k])
    decreases |s|
  {
    if |s| == 0 then []
    else
      var rest := FilterMap(f, s[..|s| - 1]);
      match f(s[|s| - 1])
      case Some(y) => rest + [y]
      case None => rest
  }

  /** `FilterMap` distributes over concatenation: lines are processed
      independently of each other. */
  lemma {:induction false} FilterMapAppend<A, B>(f: A -> Option<B>, a: seq<A>, b: seq<A>)
    ensures FilterMap(f, a + b) == FilterMap(f, a) + FilterMap(f, b)
    decreases |b|
  {
    if |b| == 0 {
      assert a + b == a;
    } else {
      var b' := b[..|b| - 1];
      assert (a + b)[..|a + b| - 1] == a + b';
      assert (a + b)[|a + b| - 1] == b[|b| - 1];
      FilterMapAppend(f, a, b');
    }
  }

  /** `FilterMap` keeps exactly the values `f` yields: each result is the
      value of some element, and each element's value is among the results. */
  lemma FilterMapKeeps<A, B>(f: A -> Option<B>, s: seq<A>)
    ensures forall k :: 0 <= k < |FilterMap(f, s)| ==> exists i :: 0 <= i < |s| && f(s[i]) == Some(FilterMap(f, s)[k])
    ensures forall i :: 0 <= i < |s| && f(s[i]).Some? ==> f(s[i]).value in FilterMap(f, s)
  {
    var r := FilterMap(f, s);
    var ix := SomeIndices(f, s);
    forall k | 0 <= k < |r| ensures exists i :: 0 <= i < |s| && f(s[i]) == Some(r[k]) {
      assert f(s[ix[k]]) == Some(r[k]);
    }
    forall i | 0 <= i < |s| && f(s[i]).Some? ensures f(s[i]).value in r {
      var k :| 0 <= k < |ix| && ix[k] == i;
      assert f(s[ix[k]]) == Some(r[k]);
    }
  }

  /** When every element is picked by exactly one of `f` and `g`, the two
      filtered sequences together are as long as the input. */
  lemma {:induction false} FilterMapPartition<A, B, C>(f: A -> Option<B>, g: A -> Option<C>, s: seq<A>)
    requires forall i :: 0 <= i < |s| ==> (f(s[i]).Some? <==> g(s[i]).None?)
    ensures |FilterMap(f, s)| + |FilterMap(g, s)| == |s|
    decreases |s|
  {
    if |s| > 0 {
      FilterMapPartition(f, g, s[..|s| - 1]);
    }
  }

  /** `iter.find_map(f)`: the value `f` yields at the first position where it yields one. */
  function FirstSome<A, B>(f: A -> Option<B>, s: seq<A>): (r: Option<B>)
    ensures r.None? <==> forall i :: 0 <= i < |s| ==> f(s[i]).None?
    ensures r.Some? ==> exists i :: 0 <= i < |s| && f(s[i]) == r && (forall j :: 0 <= j < i ==> f(s[j]).None?)
    decreases |s|
  {
    if |s| == 0 then None
    else
      var init := s[..|s| - 1];
      var r := FirstSome(f, init);
      assert forall i :: 0 <= i < |init| ==> init[i] == s[i];
      if r.Some? then r else f(s[|s| - 1])
  }

  /** `iter.flat_map(f).collect()`: the pieces `f` yields, in input order. */
  function FlatMap<A, B>(f: A -> seq<B>, s: seq<A>): seq<B>
    decreases |s|
  {
    if |s| == 0 then [] else FlatMap(f, s[..|s| - 1]) + f(s[|s| - 1])
  }

  /** Every piece of every element ends up in the flattened result. */
  lemma {:induction false} FlatMapIncludes<A, B>(f: A -> seq<B>, s: seq<A>, i: nat, k: nat)
    requires i < |s| && k < |f(s[i])|
    ensures f(s[i])[k] in FlatMap(f, s)
    decreases |s|
  {
    var n := |s| - 1;
    var pre := FlatMap(f, s[..n]);
    if i < n {
      assert s[..n][i] == s[i];
      FlatMapIncludes(f, s[..n], i, k);
    } else {
      assert (pre + f(s[n]))[|pre| + k] == f(s[i])[k];
    }
  }

  /** Every piece of the flattened result comes from some element. */
  lemma {:induction false} FlatMapFrom<A, B>(f: A -> seq<B>, s: seq<A>, y: B) returns (i: nat)
    requires y in FlatMap(f, s)
    ensures i < |s| && y in f(s[i])
    decreases |s|
  {
    var n := |s| - 1;
    if y in f(s[n]) {
      i := n;
    } else {
      i := FlatMapFrom(f, s[..n], y);
      assert s[..n][i] == s[i];
    }
  }

  /** `iter.take(n)`: the first `n` elements, or all of them if fewer. */
  function Take<T>(s: seq<T>, n: nat): (r: seq<T>)
    ensures |r| == if |s| <= n then |s| else n
    ensures r == s[..|r|]
  {
    if |s| <= n then s else s[..n]
  }

  /** Pushing onto a capped buffer: the element is kept only while there is room. */
  lemma TakeSnoc<T>(s: seq<T>, x: T, n: nat)
    ensures Take(s + [x], n) == if |Take(s, n)| < n then Take(s, n) + [x] else Take(s, n)
  {
    if |s| < n {
      assert Take(s + [x], n) == s + [x];
    } else {
      assert (s + [x])[..n] == s[..n];
    }
  }

  /** Capping twice is capping once. */
  lemma TakeAppendTake<T>(a: seq<T>, b: seq<T>, n: nat)
    ensures Take(Take(a, n) + b, n) == Take(a + b, n)
  {
    if |a| > n {
      assert (a[..n] + b)[..n] == (a + b)[..n];
    }
  }

  /** Four capped rounds of pushing are one cap over everything pushed. */
  lemma TakeRounds<T>(c1: seq<T>, c2: seq<T>, c3: seq<T>, c4: seq<T>, s1: seq<T>, s2: seq<T>, s3: seq<T>, s4: seq<T>, n: nat)
    requires s1 == Take(c1, n) && s2 == Take(s1 + c2, n) && s3 == Take(s2 + c3, n) && s4 == Take(s3 + c4, n)
    ensures s4 == Take(c1 + c2 + c3 + c4, n)
  {
    TakeAppendTake(c1, c2, n);
    TakeAppendTake(c1 + c2, c3, n);
    TakeAppendTake(c1 + c2 + c3, c4, n);
  }

  /** Filling a buffer that still has room: what was there stays and the
      rest is filled from `b`. */
  lemma TakeAppend<T>(a: seq<T>, b: seq<T>, n: nat)
    requires |a| <= n
    ensures Take(a + b, n) == a + Take(b, n - |a|)
  {
    if |a + b| > n {
      assert (a + b)[..n] == a + b[..n - |a|];
    }
  }

  /** Number of elements satisfying `p`. */
  function Count<A>(p: A -> bool, s: seq<A>): (n: nat)
    ensures n <= |s|
    decreases |s|
  {
    if |s| == 0 then 0
    else Count(p, s[..|s| - 1]) + (if p(s[|s| - 1]) then 1 else 0)
  }

  /** Sum of `key` over the elements. */
  function SumBy<T>(key: T -> nat, s: seq<T>): nat
    decreases |s|
  {
    if |s| == 0 then 0 else SumBy(key, s[..|s| - 1]) + key(s[|s| - 1])
  }

  lemma {:induction false} SumByAppend<T>(key: T -> nat, a: seq<T>, b: seq<T>)
    ensures SumBy(key, a + b) == SumBy(key, a) + SumBy(key, b)
    decreases |b|
  {
    if |b| == 0 {
      assert a + b == a;
    } else {
      assert (a + b)[..|a + b| - 1] == a + b[..|b| - 1];
      SumByAppend(key, a, b[..|b| - 1]);
    }
  }

  /** Sums agree on sequences that agree pointwise on the key. */
  lemma {:induction false} SumByPointwise<T, U>(key: T -> nat, key': U -> nat, a: seq<T>, b: seq<U>)
    requires |a| == |b| && forall i :: 0 <= i < |a| ==> key(a[i]) == key'(b[i])
    ensures SumBy(key, a) == SumBy(key', b)
    decreases |a|
  {
    if |a| > 0 {
      SumByPointwise(key, key', a[..|a| - 1], b[..|b| - 1]);
    }
  }

  /** Sorted in non-increasing order of `key`. */
  ghost predicate SortedDesc<T>(key: T -> nat, s: seq<T>) {
    forall i, j :: 0 <= i < j < |s| ==> key(s[i]) >= key(s[j])
  }

  /** Inserts `x` after every element whose key is at least `key(x)`,
      which is where a stable sort places it. */
  function InsertDesc<T>(key: T -> nat, x: T, s: seq<T>): (r: seq<T>)
    requires SortedDesc(key, s)
    ensures SortedDesc(key, r)
    ensures |r| == |s| + 1
    ensures forall j :: 0 <= j < |r| ==> r[j] == x || r[j] in s
    decreases |s|
  {
    if |s| == 0 then [x]
    else if key(s[0]) >= key(x) then
      var tail := InsertDesc(key, x, s[1..]);
      assert forall j :: 0 <= j < |tail| ==> key(tail[j]) <= key(s[0]);
      [s[0]] + tail
    else [x] + s
  }

  /** Insertion puts `x` at one position and leaves `s` around it intact. */
  lemma {:induction false} InsertDescPosition<T>(key: T -> nat, x: T, s: seq<T>) returns (k: nat)
    requires SortedDesc(key, s)
    ensures k <= |s| && InsertDesc(key, x, s) == s[..k] + [x] + s[k..]
    decreases |s|
  {
    if |s| == 0 {
      k := 0;
    } else if key(s[0]) >= key(x) {
      var k' := InsertDescPosition(key, x, s[1..]);
      k := k' + 1;
      assert s[..k] == [s[0]] + s[1..][..k'];
      assert s[k..] == s[1..][k'..];
    } else {
      k := 0;
    }
  }

  ghost predicate DistinctBy<T, K>(id: T -> K, s: seq<T>) {
    forall i, j :: 0 <= i < j < |s| ==> id(s[i]) != id(s[j])
  }

  /** Splicing an element with a fresh label into a sequence keeps the labels distinct. */
  lemma DistinctSplice<T, K>(id: T -> K, a: seq<T>, x: T, b: seq<T>)
    requires DistinctBy(id, a + b)
    requires forall y :: y in a + b ==> id(y) != id(x)
    ensures DistinctBy(id, a + [x] + b)
  {
    var s, r := a + b, a + [x] + b;
    assert forall i :: 0 <= i < |a| ==> r[i] == s[i];
    assert forall i :: |a| < i < |r| ==> r[i] == s[i - 1];
    forall i, j | 0 <= i < j < |r| ensures id(r[i]) != id(r[j]) {
      if i == |a| {
        assert r[j] in s;
      } else if j == |a| {
        assert r[i] in s;
      } else {
        var i', j' := if i < |a| then i else i - 1, if j < |a| then j else j - 1;
        assert r[i] == s[i'] && r[j] == s[j'] && i' < j';
      }
    }
  }

  /** Inserting an element with a fresh label keeps the labels distinct. */
  lemma InsertDescDistinct<T, K>(key: T -> nat, id: T -> K, x: T, s: seq<T>)
    requires SortedDesc(key, s) && DistinctBy(id, s)
    requires forall y :: y in s ==> id(y) != id(x)
    ensures DistinctBy(id, InsertDesc(key, x, s))
  {
    var k := InsertDescPosition(key, x, s);
    assert s == s[..k] + s[k..];
    DistinctSplice(id, s[..k], x, s[k..]);
  }

  /** Sorting keeps elements distinct under any labelling `id` that was
      injective on the input. */
  lemma {:induction false} SortDescDistinct<T, K>(key: T -> nat, id: T -> K, s: seq<T>)
    requires DistinctBy(id, s)
    ensures DistinctBy(id, SortDesc(key, s))
    decreases |s|
  {
    if |s| > 0 {
      var init, last := s[..|s| - 1], s[|s| - 1];
      assert DistinctBy(id, init);
      SortDescDistinct(key, id, init);
      var sorted := SortDesc(key, init);
      SortDescContents(key, init);
      forall y | y in sorted ensures id(y) != id(last) {
        assert y in multiset(init);
        var i :| 0 <= i < |init| && init[i] == y;
        assert s[i] == y;
      }
      InsertDescDistinct(key, id, last, sorted);
    }
  }

  /** Insertion neither loses nor duplicates elements, and keeps the key total. */
  lemma {:induction false} InsertDescContents<T>(key: T -> nat, x: T, s: seq<T>)
    requires SortedDesc(key, s)
    ensures multiset(InsertDesc(key, x, s)) == multiset(s) + multiset{x}
    ensures SumBy(key, InsertDesc(key, x, s)) == SumBy(key, s) + key(x)
    decreases |s|
  {
    if |s| == 0 {
    } else if key(s[0]) >= key(x) {
      var tail := InsertDesc(key, x, s[1..]);
      InsertDescContents(key, x, s[1..]);
      assert InsertDesc(key, x, s) == [s[0]] + tail;
      assert s == [s[0]] + s[1..];
      assert multiset(InsertDesc(key, x, s)) == multiset{s[0]} + multiset(tail);
      SumByAppend(key, [s[0]], s[1..]);
      SumByAppend(key, [s[0]], tail);
    } else {
      assert InsertDesc(key, x, s) == [x] + s;
      SumByAppend(key, [x], s);
    }
  }

  /** Stable sort by `key`, largest first (`sort_by(|a, b| key(b).cmp(&key(a)))`). */
  function SortDesc<T>(key: T -> nat, s: seq<T>): (r: seq<T>)
    ensures SortedDesc(key, r)
    ensures |r| == |s|
    decreases |s|
  {
    if |s| == 0 then []
    else InsertDesc(key, s[|s| - 1], SortDesc(key, s[..|s| - 1]))
  }

  lemma MultisetSnoc<T>(s: seq<T>)
    requires |s| > 0
    ensures multiset(s) == multiset(s[..|s| - 1]) + multiset{s[|s| - 1]}
  {
    assert s == s[..|s| - 1] + [s[|s| - 1]];
  }

  /** Sorting is a permutation, so it keeps the key total. */
  lemma {:induction false} SortDescContents<T>(key: T -> nat, s: seq<T>)
    ensures multiset(SortDesc(key, s)) == multiset(s)
    ensures SumBy(key, SortDesc(key, s)) == SumBy(key, s)
    decreases |s|
  {
    if |s| > 0 {
      var init, last := s[..|s| - 1], s[|s| - 1];
      var sorted := SortDesc(key, init);
      SortDescContents(key, init);
      InsertDescContents(key, last, sorted);
      MultisetSnoc(s);
    }
  }
}
