/**
 The two sorting routines the daemon relies on. `SortFunc` promises a sorted
 permutation and nothing about ties, so every claim built on it holds for any
 sorting algorithm. `SortStable` also keeps tied entries in their input order.
 */
module Sorting {

  ghost predicate TotalPreorder<T(!new)>(le: (T, T) -> bool) {
    && (forall x, y :: le(x, y) || le(y, x))
    && (forall x, y, z :: le(x, y) && le(y, z) ==> le(x, z))
  }

  ghost predicate Sorted<T>(xs: seq<T>, le: (T, T) -> bool) {
    forall i, j :: 0 <= i < j < |xs| ==> le(xs[i], xs[j])
  }

  /** `ys` is some result of sorting `xs`. */
  ghost predicate SortOf<T>(ys: seq<T>, xs: seq<T>, le: (T, T) -> bool) {
    Sorted(ys, le) && multiset(ys) == multiset(xs)
  }

  /** `ys` takes the entries of `xs` at the positions `p`, each once. */
  ghost predicate Picks<T>(p: seq<nat>, ys: seq<T>, xs: seq<T>) {
    && |p| == |ys|
    && (forall i :: 0 <= i < |p| ==> p[i] < |xs| && ys[i] == xs[p[i]])
    && (forall i, j :: 0 <= i < j < |p| ==> p[i] != p[j])
  }

  /** `ys` is `xs` sorted, with entries that compare equal in the order of their positions `p`. */
  ghost predicate StablySorted<T>(p: seq<nat>, ys: seq<T>, xs: seq<T>, le: (T, T) -> bool) {
    && SortOf(ys, xs, le) && Picks(p, ys, xs)
    && (forall c :: 0 <= c < |xs| ==> c in p)
    && forall i, j :: 0 <= i < j < |p| && le(ys[j], ys[i]) ==> p[i] < p[j]
  }

  ghost predicate StableSortOf<T>(ys: seq<T>, xs: seq<T>, le: (T, T) -> bool) {
    exists p :: StablySorted(p, ys, xs, le)
  }

  function Insert<T>(x: T, ys: seq<T>, le: (T, T) -> bool): seq<T> {
    if ys == [] || le(x, ys[0]) then [x] + ys else [ys[0]] + Insert(x, ys[1..], le)
  }

  lemma {:induction false} InsertContents<T>(x: T, ys: seq<T>, le: (T, T) -> bool)
    ensures multiset(Insert(x, ys, le)) == multiset([x] + ys)
  {
    if ys != [] && !le(x, ys[0]) {
      InsertContents(x, ys[1..], le);
      assert ys == [ys[0]] + ys[1..];
    }
  }

  lemma {:induction false} InsertSorted<T(!new)>(x: T, ys: seq<T>, le: (T, T) -> bool)
    requires TotalPreorder(le) && Sorted(ys, le)
    ensures Sorted(Insert(x, ys, le), le)
  {
    if ys != [] && !le(x, ys[0]) {
      var rest := Insert(x, ys[1..], le);
      InsertSorted(x, ys[1..], le);
      InsertContents(x, ys[1..], le);
      forall k | 0 <= k < |rest| ensures le(ys[0], rest[k]) {
        assert rest[k] in multiset([x] + ys[1..]);
      }
    }
  }

  /** Where the new entry goes: before everything it does not follow. */
  function Place<T>(x: T, ys: seq<T>, le: (T, T) -> bool): (k: nat)
    ensures k <= |ys| && (k < |ys| ==> le(x, ys[k])) && forall i :: 0 <= i < k ==> !le(x, ys[i])
  {
    if ys == [] || le(x, ys[0]) then 0 else 1 + Place(x, ys[1..], le)
  }

  lemma {:induction false} InsertAtPlace<T>(x: T, ys: seq<T>, le: (T, T) -> bool)
    ensures var k := Place(x, ys, le); Insert(x, ys, le) == Spliced(ys, k, x)
  {
    if ys != [] && !le(x, ys[0]) {
      InsertAtPlace(x, ys[1..], le);
    }
  }

  function Shifted(p: seq<nat>): seq<nat> { seq(|p|, i requires 0 <= i < |p| => p[i] + 1) }

  function Spliced<T>(ys: seq<T>, k: nat, x: T): seq<T>
    requires k <= |ys|
  {
    ys[..k] + [x] + ys[k..]
  }

  lemma SplicedAt<T>(ys: seq<T>, k: nat, x: T, i: nat)
    requires k <= |ys| && i <= |ys|
    ensures |Spliced(ys, k, x)| == |ys| + 1
    ensures Spliced(ys, k, x)[i] == if i < k then ys[i] else if i == k then x else ys[i - 1]
  {
  }

  function Widened(p: seq<nat>, k: nat): seq<nat>
    requires k <= |p|
  {
    Spliced(Shifted(p), k, 0)
  }

  lemma WidenedAt(p: seq<nat>, k: nat, i: nat)
    requires k <= |p| && i <= |p|
    ensures |Widened(p, k)| == |p| + 1
    ensures Widened(p, k)[i] == if i < k then p[i] + 1 else if i == k then 0 else p[i - 1] + 1
  {
    SplicedAt(Shifted(p), k, 0, i);
  }

  lemma InsertPicks<T>(x: T, ys: seq<T>, xs: seq<T>, p: seq<nat>, k: nat)
    requires Picks(p, ys, xs) && k <= |ys|
    ensures Picks(Widened(p, k), Spliced(ys, k, x), [x] + xs)
  {
    var next, zs := Widened(p, k), Spliced(ys, k, x);
    forall i | 0 <= i <= |p|
      ensures |next| == |zs| == |p| + 1 && next[i] <= |xs| && zs[i] == ([x] + xs)[next[i]]
    {
      WidenedAt(p, k, i);
      SplicedAt(ys, k, x, i);
    }
    forall i, j | 0 <= i < j < |next| ensures next[i] != next[j] {
      WidenedAt(p, k, i);
      WidenedAt(p, k, j);
    }
  }

  lemma InsertCovers(p: seq<nat>, k: nat, n: nat)
    requires k <= |p| && forall c :: 0 <= c < n ==> c in p
    ensures forall c :: 0 <= c <= n ==> c in Widened(p, k)
  {
    forall c | 0 <= c <= n ensures c in Widened(p, k) {
      WidenedAt(p, k, k);
      if c > 0 {
        assert c - 1 in p;
        var i :| 0 <= i < |p| && p[i] == c - 1;
        WidenedAt(p, k, if i < k then i else i + 1);
      }
    }
  }

  lemma StableStep<T>(x: T, ys: seq<T>, p: seq<nat>, le: (T, T) -> bool, i: nat, j: nat)
    requires |p| == |ys| && i < j <= |ys|
    requires forall i, j :: 0 <= i < j < |p| && le(ys[j], ys[i]) ==> p[i] < p[j]
    ensures var k := Place(x, ys, le);
            var zs, next := Spliced(ys, k, x), Widened(p, k);
            |zs| == |next| == |ys| + 1 && (le(zs[j], zs[i]) ==> next[i] < next[j])
  {
    var k := Place(x, ys, le);
    SplicedAt(ys, k, x, i);
    SplicedAt(ys, k, x, j);
    WidenedAt(p, k, i);
    WidenedAt(p, k, j);
  }

  /** Inserting at the front of the input keeps the sort stable. */
  lemma InsertStays<T(!new)>(x: T, ys: seq<T>, xs: seq<T>, le: (T, T) -> bool)
    requires TotalPreorder(le) && StableSortOf(ys, xs, le)
    ensures StableSortOf(Insert(x, ys, le), [x] + xs, le)
  {
    var p :| StablySorted(p, ys, xs, le);
    var k := Place(x, ys, le);
    InsertSorted(x, ys, le);
    SortContents(x, ys, xs, le);
    InsertAtPlace(x, ys, le);
    InsertPicks(x, ys, xs, p, k);
    InsertCovers(p, k, |xs|);
    forall i, j | 0 <= i < j < |Widened(p, k)| && le(Spliced(ys, k, x)[j], Spliced(ys, k, x)[i])
      ensures Widened(p, k)[i] < Widened(p, k)[j]
    {
      StableStep(x, ys, p, le, i, j);
    }
    assert StablySorted(Widened(p, k), Insert(x, ys, le), [x] + xs, le);
  }

  lemma SortContents<T>(x: T, ys: seq<T>, xs: seq<T>, le: (T, T) -> bool)
    requires multiset(ys) == multiset(xs)
    ensures multiset(Insert(x, ys, le)) == multiset([x] + xs)
  {
    InsertContents(x, ys, le);
  }

  /** slices.SortStableFunc */
  method SortStable<T(!new)>(xs: seq<T>, le: (T, T) -> bool) returns (ys: seq<T>)
    requires TotalPreorder(le)
    ensures StableSortOf(ys, xs, le)
  {
    ys := [];
    var i := |xs|;
    assert StablySorted([], ys, xs[i..], le);
    while i > 0
      invariant 0 <= i <= |xs|
      invariant StableSortOf(ys, xs[i..], le)
    {
      i := i - 1;
      InsertStays(xs[i], ys, xs[i + 1..], le);
      assert xs[i..] == [xs[i]] + xs[i + 1..];
      ys := Insert(xs[i], ys, le);
    }
    assert xs[0..] == xs;
  }

  /** slices.SortFunc: callers may rely only on sortedness and contents. */
  method SortFunc<T(!new)>(xs: seq<T>, le: (T, T) -> bool) returns (ys: seq<T>)
    requires TotalPreorder(le)
    ensures SortOf(ys, xs, le)
  {
    ys := SortStable(xs, le);
  }

  ghost predicate OnlyEqualsTie<T>(xs: seq<T>, le: (T, T) -> bool) {
    forall x, y :: x in xs && y in xs && le(x, y) && le(y, x) ==> x == y
  }

  /** When only equal entries tie, sorting has a single possible result. */
  lemma {:induction false} SortIsUnique<T>(xs: seq<T>, ys: seq<T>, le: (T, T) -> bool)
    requires Sorted(xs, le) && Sorted(ys, le) && multiset(xs) == multiset(ys) && OnlyEqualsTie(xs, le)
    ensures xs == ys
  {
    if xs == [] {
      assert |ys| == |multiset(ys)| == 0;
    } else {
      SameHead(xs, ys, le);
      SameRest(xs, ys);
      TailSorts(xs, le);
      TailSorts(ys, le);
      SortIsUnique(xs[1..], ys[1..], le);
      assert xs == [xs[0]] + xs[1..] && ys == [ys[0]] + ys[1..];
    }
  }

  lemma SameRest<T>(xs: seq<T>, ys: seq<T>)
    requires xs != [] && ys != [] && xs[0] == ys[0] && multiset(xs) == multiset(ys)
    ensures multiset(xs[1..]) == multiset(ys[1..])
  {
    assert xs == [xs[0]] + xs[1..] && ys == [ys[0]] + ys[1..];
    assert multiset(xs[1..]) == multiset(xs) - multiset{xs[0]} == multiset(ys[1..]);
  }

  lemma TailSorts<T>(xs: seq<T>, le: (T, T) -> bool)
    requires xs != [] && Sorted(xs, le)
    ensures Sorted(xs[1..], le) && (OnlyEqualsTie(xs, le) ==> OnlyEqualsTie(xs[1..], le))
  {
    forall x | x in xs[1..] ensures x in xs {
    }
  }

  lemma SameHead<T>(xs: seq<T>, ys: seq<T>, le: (T, T) -> bool)
    requires Sorted(xs, le) && Sorted(ys, le) && multiset(xs) == multiset(ys) && xs != []
    requires OnlyEqualsTie(xs, le)
    ensures ys != [] && xs[0] == ys[0]
  {
    assert xs[0] in multiset(ys);
    assert ys[0] in multiset(xs);
  }

  lemma DropShared<T>(x: T, xs: seq<T>, l: seq<T>, r: seq<T>)
    requires multiset([x] + xs) == multiset(l + [x] + r)
    ensures multiset(xs) == multiset(l + r)
  {
    assert multiset(xs) == multiset([x] + xs) - multiset{x};
    assert multiset(l + r) == multiset(l + [x] + r) - multiset{x};
  }

  lemma {:induction false} OnceEach<T>(xs: seq<T>)
    requires forall i, j :: 0 <= i < j < |xs| ==> xs[i] != xs[j]
    ensures forall x :: multiset(xs)[x] == if x in xs then 1 else 0
  {
    if xs != [] {
      OnceEach(xs[1..]);
      assert xs == [xs[0]] + xs[1..];
      assert xs[0] !in xs[1..];
    }
  }

  function SortSeq<T>(xs: seq<T>, le: (T, T) -> bool): seq<T> {
    if xs == [] then [] else Insert(xs[0], SortSeq(xs[1..], le), le)
  }

  lemma {:induction false} SortSeqSorts<T(!new)>(xs: seq<T>, le: (T, T) -> bool)
    requires TotalPreorder(le)
    ensures SortOf(SortSeq(xs, le), xs, le)
  {
    if xs != [] {
      SortSeqSorts(xs[1..], le);
      InsertSorted(xs[0], SortSeq(xs[1..], le), le);
      InsertContents(xs[0], SortSeq(xs[1..], le), le);
      assert xs == [xs[0]] + xs[1..];
    }
  }

  // ----- lists built entry by entry -----

  function FlatMap<A, B>(xs: seq<A>, f: A -> seq<B>): seq<B> {
    if xs == [] then [] else FlatMap(xs[..|xs| - 1], f) + f(xs[|xs| - 1])
  }

  lemma {:induction false} FlatMapConcat<A, B>(a: seq<A>, b: seq<A>, f: A -> seq<B>)
    ensures FlatMap(a + b, f) == FlatMap(a, f) + FlatMap(b, f)
  {
    if b == [] {
      assert a + b == a;
    } else {
      var k := |b| - 1;
      assert (a + b)[..|a + b| - 1] == a + b[..k];
      FlatMapConcat(a, b[..k], f);
    }
  }

  lemma FlatMapAround<A, B>(l: seq<A>, x: A, r: seq<A>, f: A -> seq<B>)
    ensures multiset(FlatMap(l + [x] + r, f)) == multiset(FlatMap([x], f)) + multiset(FlatMap(l + r, f))
  {
    FlatMapConcat(l + [x], r, f);
    FlatMapConcat(l, [x], f);
    FlatMapConcat(l, r, f);
  }

  /** Reordering the input only reorders the output. */
  lemma {:induction false} FlatMapPermutes<A, B>(a: seq<A>, b: seq<A>, f: A -> seq<B>)
    requires multiset(a) == multiset(b)
    ensures multiset(FlatMap(a, f)) == multiset(FlatMap(b, f))
  {
    if a == [] {
      assert |b| == |multiset(b)| == 0;
    } else {
      var x, front := a[0], a[1..];
      assert x in multiset(b);
      var j :| 0 <= j < |b| && b[j] == x;
      var l, r := b[..j], b[j + 1..];
      assert a == [x] + front && b == l + [x] + r;
      DropShared(x, front, l, r);
      FlatMapPermutes(front, l + r, f);
      FlatMapAround(l, x, r, f);
      FlatMapConcat([x], front, f);
    }
  }
}
