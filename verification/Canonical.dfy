/**
 The canonical form of one device list: entries are normalised, sorted by a text key and, for
 some lists, deduplicated by another key, keeping the first. The sort makes no promise about
 ties, so the form is a relation; the condition under which it is a function is exact.
 */
module Canonical {
  import opened Text
  import opened Sorting

  /** How one kind of entry is handled. */
  datatype Rules<!T> = Rules(norm: T -> T, sortKey: T -> string, dedupeKey: T -> string)

  function ByKey<T>(key: T -> string): (T, T) -> bool {
    (a, b) => LexLe(key(a), key(b))
  }

  lemma ByKeyIsTotal<T(!new)>(key: T -> string)
    ensures TotalPreorder(ByKey(key))
  {
    LexIsTotalOrder();
  }

  function Mapped<T>(xs: seq<T>, norm: T -> T): seq<T> {
    seq(|xs|, i requires 0 <= i < |xs| => norm(xs[i]))
  }

  /** Entries whose key no earlier entry has. */
  function Deduped<T(==)>(xs: seq<T>, key: T -> string): seq<T> {
    if xs == [] then []
    else var k := |xs| - 1;
         Deduped(xs[..k], key) + if exists i :: 0 <= i < k && key(xs[i]) == key(xs[k]) then [] else [xs[k]]
  }

  ghost predicate SortedForm<T(!new)>(out: seq<T>, xs: seq<T>, r: Rules<T>) {
    SortOf(out, Mapped(xs, r.norm), ByKey(r.sortKey))
  }

  ghost predicate DedupedForm<T(!new)>(out: seq<T>, xs: seq<T>, r: Rules<T>) {
    exists sorted :: SortedForm(sorted, xs, r) && out == Deduped(sorted, r.dedupeKey)
  }

  lemma DedupingSorted<T(!new)>(sorted: seq<T>, xs: seq<T>, r: Rules<T>)
    requires SortedForm(sorted, xs, r)
    ensures DedupedForm(Deduped(sorted, r.dedupeKey), xs, r)
  {
  }

  method NormalizeAndSort<T(!new)>(xs: seq<T>, r: Rules<T>) returns (ys: seq<T>)
    ensures SortedForm(ys, xs, r)
  {
    var normalized := xs;
    for i := 0 to |xs|
      invariant |normalized| == |xs|
      invariant forall j :: 0 <= j < i ==> normalized[j] == r.norm(xs[j])
      invariant forall j :: i <= j < |xs| ==> normalized[j] == xs[j]
    {
      normalized := normalized[i := r.norm(normalized[i])];
    }
    assert normalized == Mapped(xs, r.norm);
    ByKeyIsTotal(r.sortKey);
    ys := SortFunc(normalized, ByKey(r.sortKey));
  }

  method Dedupe<T(==)>(items: seq<T>, key: T -> string) returns (out: seq<T>)
    ensures out == Deduped(items, key)
  {
    var seen := {};
    out := [];
    for i := 0 to |items|
      invariant out == Deduped(items[..i], key)
      invariant forall k :: k in seen <==> exists j :: 0 <= j < i && key(items[j]) == k
    {
      assert items[..i + 1][..i] == items[..i];
      if key(items[i]) in seen {
        continue;
      }
      seen := seen + {key(items[i])};
      out := out + [items[i]];
    }
    assert items[..|items|] == items;
  }

  // ----- when the form is unique -----

  /** No two different entries tie. */
  ghost predicate KeysSeparate<T(!new)>(s: set<T>, key: T -> string) {
    forall x, y :: x in s && y in s && key(x) == key(y) ==> x == y
  }

  /** No entry that sorts strictly earlier has the same deduplication key. */
  ghost predicate First<T(!new)>(s: set<T>, x: T, r: Rules<T>) {
    forall z :: z in s && r.dedupeKey(z) == r.dedupeKey(x) ==> LexLe(r.sortKey(x), r.sortKey(z))
  }

  /** No two different entries that survive deduplication tie. */
  ghost predicate SurvivorsSeparate<T(!new)>(s: set<T>, r: Rules<T>) {
    forall x, y :: x in s && y in s && First(s, x, r) && First(s, y, r) && r.sortKey(x) == r.sortKey(y) ==> x == y
  }

  function Entries<T(==)>(xs: seq<T>): set<T> { set x | x in xs }

  lemma {:induction false} DedupedFacts<T>(xs: seq<T>, key: T -> string)
    ensures forall x :: x in Deduped(xs, key) ==> x in xs
    ensures forall i, j :: 0 <= i < j < |Deduped(xs, key)| ==> key(Deduped(xs, key)[i]) != key(Deduped(xs, key)[j])
  {
    if xs != [] {
      var k := |xs| - 1;
      DedupedFacts(xs[..k], key);
      assert xs == xs[..k] + [xs[k]];
      var d := Deduped(xs[..k], key);
      forall i | 0 <= i < |d| ensures exists j :: 0 <= j < k && xs[j] == d[i] {
        assert d[i] in xs[..k];
      }
    }
  }

  lemma {:induction false} DedupedSorted<T(!new)>(xs: seq<T>, key: T -> string, le: (T, T) -> bool)
    requires Sorted(xs, le)
    ensures Sorted(Deduped(xs, key), le)
  {
    if xs != [] {
      var k := |xs| - 1;
      DedupedSorted(xs[..k], key, le);
      DedupedFacts(xs[..k], key);
      var d := Deduped(xs[..k], key);
      forall i | 0 <= i < |d| ensures le(d[i], xs[k]) {
        assert d[i] in xs[..k];
      }
    }
  }

  /** The first entry with a deduplication key is kept. */
  lemma {:induction false} FirstIsKept<T>(xs: seq<T>, key: T -> string, i: nat)
    requires i < |xs| && forall j :: 0 <= j < i ==> key(xs[j]) != key(xs[i])
    ensures xs[i] in Deduped(xs, key)
  {
    var k := |xs| - 1;
    if i < k {
      FirstIsKept(xs[..k], key, i);
    }
  }

  /** What survives is read off the set of entries alone. */
  lemma SurvivorsAreFirst<T(!new)>(xs: seq<T>, r: Rules<T>, x: T)
    requires Sorted(xs, ByKey(r.sortKey)) && SurvivorsSeparate(Entries(xs), r)
    ensures x in Deduped(xs, r.dedupeKey) <==> x in xs && First(Entries(xs), x, r)
  {
    DedupedFacts(xs, r.dedupeKey);
    LexIsTotalOrder();
    if x in xs {
      var i := Earliest(xs, x, r.dedupeKey);
      assert xs[i] in Entries(xs) && x in Entries(xs);
      FirstIsKept(xs, r.dedupeKey, i);
      EarliestIsFirst(xs, i, r);
      var w := xs[i];
      if First(Entries(xs), x, r) {
        assert r.sortKey(x) == r.sortKey(w);
        assert x == w;
      } else if x in Deduped(xs, r.dedupeKey) {
        KeptOnce(Deduped(xs, r.dedupeKey), r.dedupeKey, x, w);
      }
    }
  }

  lemma KeptOnce<T>(d: seq<T>, key: T -> string, x: T, y: T)
    requires forall i, j :: 0 <= i < j < |d| ==> key(d[i]) != key(d[j])
    requires x in d && y in d && key(x) == key(y)
    ensures x == y
  {
  }

  /** Position of the first entry sharing the key of `x`. */
  function Earliest<T(==)>(xs: seq<T>, x: T, key: T -> string): (i: nat)
    requires x in xs
    ensures i < |xs| && key(xs[i]) == key(x) && forall j :: 0 <= j < i ==> key(xs[j]) != key(x)
  {
    if key(xs[0]) == key(x) then 0 else 1 + Earliest(xs[1..], x, key)
  }

  lemma EarliestIsFirst<T(!new)>(xs: seq<T>, i: nat, r: Rules<T>)
    requires Sorted(xs, ByKey(r.sortKey)) && i < |xs|
    requires forall j :: 0 <= j < i ==> r.dedupeKey(xs[j]) != r.dedupeKey(xs[i])
    ensures First(Entries(xs), xs[i], r)
  {
    forall z | z in Entries(xs) && r.dedupeKey(z) == r.dedupeKey(xs[i])
      ensures LexLe(r.sortKey(xs[i]), r.sortKey(z))
    {
      var j :| 0 <= j < |xs| && xs[j] == z;
      LexTotal(r.sortKey(z), r.sortKey(z));
      assert i < j ==> ByKey(r.sortKey)(xs[i], xs[j]);
    }
  }

  lemma SortKeepsEntries<T(!new)>(sorted: seq<T>, xs: seq<T>)
    requires multiset(sorted) == multiset(xs)
    ensures Entries(sorted) == Entries(xs)
  {
    forall x ensures x in sorted <==> x in xs {
      assert x in multiset(sorted) <==> x in multiset(xs);
    }
  }

  /** Lists with the same set of normalised entries have the same deduplicated form when no two
      different survivors tie. */
  lemma DedupedFormIsUnique<T(!new)>(xs: seq<T>, ys: seq<T>, a: seq<T>, b: seq<T>, r: Rules<T>)
    requires DedupedForm(a, xs, r) && DedupedForm(b, ys, r)
    requires Entries(Mapped(xs, r.norm)) == Entries(Mapped(ys, r.norm))
    requires SurvivorsSeparate(Entries(Mapped(xs, r.norm)), r)
    ensures a == b
  {
    var sx :| SortedForm(sx, xs, r) && a == Deduped(sx, r.dedupeKey);
    var sy :| SortedForm(sy, ys, r) && b == Deduped(sy, r.dedupeKey);
    SortKeepsEntries(sx, Mapped(xs, r.norm));
    SortKeepsEntries(sy, Mapped(ys, r.norm));
    SameSurvivors(sx, sy, r);
  }

  lemma SameSurvivors<T(!new)>(sx: seq<T>, sy: seq<T>, r: Rules<T>)
    requires Sorted(sx, ByKey(r.sortKey)) && Sorted(sy, ByKey(r.sortKey))
    requires Entries(sx) == Entries(sy) && SurvivorsSeparate(Entries(sx), r)
    ensures Deduped(sx, r.dedupeKey) == Deduped(sy, r.dedupeKey)
  {
    var a, b := Deduped(sx, r.dedupeKey), Deduped(sy, r.dedupeKey);
    SurvivorsAreOrdered(sx, r);
    SurvivorsAreOrdered(sy, r);
    forall x ensures multiset(a)[x] == multiset(b)[x] {
      SurvivorsAreFirst(sx, r, x);
      SurvivorsAreFirst(sy, r, x);
      assert x in Entries(sx) <==> x in Entries(sy);
    }
    SortIsUnique(a, b, ByKey(r.sortKey));
  }

  lemma SurvivorsAreOrdered<T(!new)>(xs: seq<T>, r: Rules<T>)
    requires Sorted(xs, ByKey(r.sortKey)) && SurvivorsSeparate(Entries(xs), r)
    ensures var d := Deduped(xs, r.dedupeKey);
            && Sorted(d, ByKey(r.sortKey))
            && (forall x :: multiset(d)[x] == if x in d then 1 else 0)
            && (forall x, y :: x in d && y in d && ByKey(r.sortKey)(x, y) && ByKey(r.sortKey)(y, x) ==> x == y)
  {
    var d := Deduped(xs, r.dedupeKey);
    DedupedSorted(xs, r.dedupeKey, ByKey(r.sortKey));
    DedupedFacts(xs, r.dedupeKey);
    OnceEach(d);
    forall x, y | x in d && y in d && ByKey(r.sortKey)(x, y) && ByKey(r.sortKey)(y, x) ensures x == y {
      LexAntisymmetric(r.sortKey(x), r.sortKey(y));
      SurvivorsAreFirst(xs, r, x);
      SurvivorsAreFirst(xs, r, y);
      assert x in Entries(xs) && y in Entries(xs);
    }
  }

  /** Lists with the same normalised entries have the same sorted form when no two different
      entries tie. */
  lemma SortedFormIsUnique<T(!new)>(xs: seq<T>, ys: seq<T>, a: seq<T>, b: seq<T>, r: Rules<T>)
    requires SortedForm(a, xs, r) && SortedForm(b, ys, r)
    requires multiset(Mapped(xs, r.norm)) == multiset(Mapped(ys, r.norm))
    requires KeysSeparate(Entries(Mapped(xs, r.norm)), r.sortKey)
    ensures a == b
  {
    SortKeepsEntries(a, Mapped(xs, r.norm));
    forall x, y | x in a && y in a && ByKey(r.sortKey)(x, y) && ByKey(r.sortKey)(y, x) ensures x == y {
      LexAntisymmetric(r.sortKey(x), r.sortKey(y));
      assert x in Entries(a) && y in Entries(a);
    }
    SortIsUnique(a, b, ByKey(r.sortKey));
  }

  // ----- the conditions are exact -----

  /** The same order, with `x` before anything it ties with. */
  function Favouring<T(==)>(key: T -> string, x: T): (T, T) -> bool {
    (a, b) => if key(a) != key(b) then LexLe(key(a), key(b)) else a == x || b != x
  }

  /** A sorted list in which `x` leads everything it ties with. */
  lemma LeadWith<T(!new)>(xs: seq<T>, key: T -> string, x: T) returns (sorted: seq<T>, p: nat)
    requires x in xs
    ensures SortOf(sorted, xs, ByKey(key))
    ensures p < |sorted| && sorted[p] == x && forall q :: 0 <= q < p ==> key(sorted[q]) != key(x)
  {
    LexIsTotalOrder();
    var le := Favouring(key, x);
    assert TotalPreorder(le);
    sorted := SortSeq(xs, le);
    SortSeqSorts(xs, le);
    assert x in multiset(sorted);
    p := Earliest(sorted, x, y => if y == x then "x" else "");
    assert sorted[p] == x;
    forall q | 0 <= q < p ensures key(sorted[q]) != key(x) {
      assert le(sorted[q], sorted[p]);
      assert sorted[q] != x;
    }
  }

  function Disfavouring<T(==)>(key: T -> string, x: T): (T, T) -> bool {
    (a, b) => if key(a) != key(b) then LexLe(key(a), key(b)) else a != x || b == x
  }

  /** Deduplication keys that tell entries apart drop only repeats, whatever ties. */
  lemma DistinctKeysKeep<T(!new)>(xs: seq<T>, key: T -> string, x: T)
    requires x in xs && forall y :: y in xs && key(y) == key(x) ==> y == x
    ensures x in Deduped(xs, key)
  {
    var i := Earliest(xs, x, key);
    assert xs[i] in xs;
    FirstIsKept(xs, key, i);
  }

  /** A form in which `x` comes after everything it ties with. */
  lemma TrailWith<T(!new)>(xs: seq<T>, r: Rules<T>, x: T) returns (out: seq<T>, d: nat)
    requires x in Mapped(xs, r.norm)
    requires forall y :: y in Mapped(xs, r.norm) && r.dedupeKey(y) == r.dedupeKey(x) ==> y == x
    ensures DedupedForm(out, xs, r)
    ensures d < |out| && out[d] == x && forall q :: d < q < |out| ==> r.sortKey(out[q]) != r.sortKey(x)
  {
    LexIsTotalOrder();
    var le, m := Disfavouring(r.sortKey, x), Mapped(xs, r.norm);
    assert TotalPreorder(le);
    var sorted := SortSeq(m, le);
    SortSeqSorts(m, le);
    SortKeepsEntries(sorted, m);
    assert x in Entries(sorted);
    assert forall y :: y in sorted ==> y in Entries(m);
    DistinctKeysKeep(sorted, r.dedupeKey, x);
    out := Deduped(sorted, r.dedupeKey);
    DedupedFacts(sorted, r.dedupeKey);
    DedupedSorted(sorted, r.dedupeKey, le);
    d :| 0 <= d < |out| && out[d] == x;
    forall q | d < q < |out| ensures r.sortKey(out[q]) != r.sortKey(x) {
      assert le(out[d], out[q]);
      assert out[q] != x;
    }
    assert SortedForm(sorted, xs, r);
  }

  ghost predicate OneSortedForm<T(!new)>(xs: seq<T>, r: Rules<T>) {
    forall a, b :: SortedForm(a, xs, r) && SortedForm(b, xs, r) ==> a == b
  }

  ghost predicate OneDedupedForm<T(!new)>(xs: seq<T>, r: Rules<T>) {
    forall a, b :: DedupedForm(a, xs, r) && DedupedForm(b, xs, r) ==> a == b
  }

  lemma SomeSortedForm<T(!new)>(xs: seq<T>, r: Rules<T>) returns (out: seq<T>)
    ensures SortedForm(out, xs, r)
  {
    ByKeyIsTotal(r.sortKey);
    out := SortSeq(Mapped(xs, r.norm), ByKey(r.sortKey));
    SortSeqSorts(Mapped(xs, r.norm), ByKey(r.sortKey));
  }

  lemma SomeDedupedForm<T(!new)>(xs: seq<T>, r: Rules<T>) returns (out: seq<T>)
    ensures DedupedForm(out, xs, r)
  {
    var sorted := SomeSortedForm(xs, r);
    out := Deduped(sorted, r.dedupeKey);
  }

  lemma PairSorts<T>(x: T, y: T, le: (T, T) -> bool)
    requires le(x, y)
    ensures Sorted([x, y], le)
  {
  }

  /** Two entries that tie may come out in either order. */
  lemma TiedPairSwaps<T(!new)>(a: T, b: T, r: Rules<T>)
    requires r.norm(a) == a && r.norm(b) == b && r.sortKey(a) == r.sortKey(b)
    ensures SortedForm([a, b], [a, b], r) && SortedForm([b, a], [a, b], r)
  {
    LexTotal(r.sortKey(a), r.sortKey(b));
    PairSorts(a, b, ByKey(r.sortKey));
    PairSorts(b, a, ByKey(r.sortKey));
    assert Mapped([a, b], r.norm) == [a, b];
    assert multiset([b, a]) == multiset([a, b]);
  }

  /** A sorted list has one possible result exactly when no two different entries tie. */
  lemma SortedFormIff<T(!new)>(xs: seq<T>, r: Rules<T>)
    ensures OneSortedForm(xs, r) <==> KeysSeparate(Entries(Mapped(xs, r.norm)), r.sortKey)
  {
    var m := Mapped(xs, r.norm);
    if KeysSeparate(Entries(m), r.sortKey) {
      forall a, b | SortedForm(a, xs, r) && SortedForm(b, xs, r) ensures a == b {
        SortedFormIsUnique(xs, xs, a, b, r);
      }
    } else {
      var x, y :| x in Entries(m) && y in Entries(m) && r.sortKey(x) == r.sortKey(y) && x != y;
      var a, p := LeadWith(m, r.sortKey, x);
      var b, q := LeadWith(m, r.sortKey, y);
      assert a != b;
      assert SortedForm(a, xs, r) && SortedForm(b, xs, r);
    }
  }

  /** Deduplication keeps the lead of a survivor. */
  lemma {:induction false} DedupedLead<T(!new)>(sorted: seq<T>, r: Rules<T>, p: nat) returns (d: nat)
    requires p < |sorted|
    requires forall q :: 0 <= q < p ==>
               r.sortKey(sorted[q]) != r.sortKey(sorted[p]) && r.dedupeKey(sorted[q]) != r.dedupeKey(sorted[p])
    ensures var out := Deduped(sorted, r.dedupeKey);
            d < |out| && out[d] == sorted[p] && forall q :: 0 <= q < d ==> r.sortKey(out[q]) != r.sortKey(sorted[p])
  {
    var k := |sorted| - 1;
    if p < k {
      d := DedupedLead(sorted[..k], r, p);
    } else {
      d := |Deduped(sorted[..k], r.dedupeKey)|;
      DedupedFacts(sorted[..k], r.dedupeKey);
      forall q | 0 <= q < d ensures r.sortKey(Deduped(sorted, r.dedupeKey)[q]) != r.sortKey(sorted[p]) {
        assert Deduped(sorted[..k], r.dedupeKey)[q] in sorted[..k];
      }
    }
  }

  lemma SurvivorLeads<T(!new)>(xs: seq<T>, r: Rules<T>, x: T) returns (out: seq<T>, d: nat)
    requires x in Mapped(xs, r.norm) && First(Entries(Mapped(xs, r.norm)), x, r)
    ensures DedupedForm(out, xs, r)
    ensures d < |out| && out[d] == x && forall q :: 0 <= q < d ==> r.sortKey(out[q]) != r.sortKey(x)
  {
    var m := Mapped(xs, r.norm);
    var sorted, p := LeadWith(m, r.sortKey, x);
    SortKeepsEntries(sorted, m);
    forall q | 0 <= q < p ensures r.dedupeKey(sorted[q]) != r.dedupeKey(x) {
      assert sorted[q] in Entries(m);
      assert ByKey(r.sortKey)(sorted[q], sorted[p]);
      if r.dedupeKey(sorted[q]) == r.dedupeKey(x) {
        LexAntisymmetric(r.sortKey(sorted[q]), r.sortKey(x));
      }
    }
    d := DedupedLead(sorted, r, p);
    out := Deduped(sorted, r.dedupeKey);
  }

  /** A deduplicated list has one possible result exactly when no two different survivors tie. */
  lemma DedupedFormIff<T(!new)>(xs: seq<T>, r: Rules<T>)
    ensures OneDedupedForm(xs, r) <==> SurvivorsSeparate(Entries(Mapped(xs, r.norm)), r)
  {
    var m := Mapped(xs, r.norm);
    if SurvivorsSeparate(Entries(m), r) {
      forall a, b | DedupedForm(a, xs, r) && DedupedForm(b, xs, r) ensures a == b {
        DedupedFormIsUnique(xs, xs, a, b, r);
      }
    } else {
      var x, y :| x in Entries(m) && y in Entries(m) && First(Entries(m), x, r) && First(Entries(m), y, r)
                  && r.sortKey(x) == r.sortKey(y) && x != y;
      var a, d := SurvivorLeads(xs, r, x);
      var b, e := SurvivorLeads(xs, r, y);
      assert a != b;
    }
  }

  lemma FormIsSorted<T(!new)>(out: seq<T>, xs: seq<T>, r: Rules<T>, i: nat, j: nat)
    requires DedupedForm(out, xs, r)
    ensures i < j < |out| ==> LexLe(r.sortKey(out[i]), r.sortKey(out[j]))
  {
    var sorted :| SortedForm(sorted, xs, r) && out == Deduped(sorted, r.dedupeKey);
    DedupedSorted(sorted, r.dedupeKey, ByKey(r.sortKey));
    assert i < j < |out| ==> ByKey(r.sortKey)(out[i], out[j]);
  }

  lemma FormHoldsNormals<T(!new)>(out: seq<T>, xs: seq<T>, r: Rules<T>, x: T) returns (i: nat)
    requires DedupedForm(out, xs, r) && x in out
    ensures i < |xs| && x == r.norm(xs[i])
  {
    var sorted :| SortedForm(sorted, xs, r) && out == Deduped(sorted, r.dedupeKey);
    DedupedFacts(sorted, r.dedupeKey);
    SortKeepsEntries(sorted, Mapped(xs, r.norm));
    assert x in Entries(Mapped(xs, r.norm));
    i :| 0 <= i < |xs| && Mapped(xs, r.norm)[i] == x;
  }

  // ----- doing it again -----

  ghost predicate Idempotent<T(!new)>(norm: T -> T) {
    forall x :: norm(norm(x)) == norm(x)
  }

  /** Normalising and sorting first changes nothing for a later pass. */
  lemma SortedPassIsInvisible<T(!new)>(sorted: seq<T>, xs: seq<T>, r: Rules<T>)
    requires SortedForm(sorted, xs, r) && Idempotent(r.norm)
    ensures multiset(Mapped(sorted, r.norm)) == multiset(Mapped(xs, r.norm))
    ensures Entries(Mapped(sorted, r.norm)) == Entries(Mapped(xs, r.norm))
  {
    SortKeepsEntries(sorted, Mapped(xs, r.norm));
    forall i | 0 <= i < |sorted| ensures r.norm(sorted[i]) == sorted[i] {
      assert sorted[i] in Entries(Mapped(xs, r.norm));
    }
    assert Mapped(sorted, r.norm) == sorted;
  }

  lemma {:induction false} DedupedAgain<T>(xs: seq<T>, key: T -> string)
    requires forall i, j :: 0 <= i < j < |xs| ==> key(xs[i]) != key(xs[j])
    ensures Deduped(xs, key) == xs
  {
    if xs != [] {
      var k := |xs| - 1;
      DedupedAgain(xs[..k], key);
      assert !exists i :: 0 <= i < k && key(xs[i]) == key(xs[k]);
      assert xs == xs[..k] + [xs[k]];
    }
  }

  /** The canonical form of a canonical form is itself. */
  lemma DedupedFormIsStable<T(!new)>(a: seq<T>, b: seq<T>, xs: seq<T>, r: Rules<T>)
    requires DedupedForm(a, xs, r) && DedupedForm(b, a, r) && Idempotent(r.norm)
    requires SurvivorsSeparate(Entries(Mapped(xs, r.norm)), r)
    ensures b == a
  {
    var sx :| SortedForm(sx, xs, r) && a == Deduped(sx, r.dedupeKey);
    var sa :| SortedForm(sa, a, r) && b == Deduped(sa, r.dedupeKey);
    SortKeepsEntries(sx, Mapped(xs, r.norm));
    SurvivorsAreOrdered(sx, r);
    DedupedFacts(sx, r.dedupeKey);
    forall i | 0 <= i < |a| ensures r.norm(a[i]) == a[i] {
      assert a[i] in Entries(sx);
    }
    assert Mapped(a, r.norm) == a;
    SortIsUnique(a, sa, ByKey(r.sortKey));
    DedupedAgain(a, r.dedupeKey);
  }

  // ----- what the form tells apart -----

  lemma {:induction false} MappedIsFlatMap<T>(xs: seq<T>, f: T -> T, one: T -> seq<T>)
    requires forall x :: one(x) == [f(x)]
    ensures Mapped(xs, f) == FlatMap(xs, one)
  {
    if xs != [] {
      var k := |xs| - 1;
      MappedIsFlatMap(xs[..k], f, one);
      assert Mapped(xs, f) == Mapped(xs[..k], f) + [f(xs[k])];
    }
  }

  lemma MappedPermutes<T>(a: seq<T>, b: seq<T>, f: T -> T)
    requires multiset(a) == multiset(b)
    ensures multiset(Mapped(a, f)) == multiset(Mapped(b, f))
  {
    var one := x => [f(x)];
    MappedIsFlatMap(a, f, one);
    MappedIsFlatMap(b, f, one);
    FlatMapPermutes(a, b, one);
  }

  /** `ys` is `xs` with entries changed in ways `same` allows, in any order. */
  ghost predicate Variant<T(!new)>(xs: seq<T>, ys: seq<T>, same: (T, T) -> bool) {
    exists zs: seq<T> ::
      multiset(zs) == multiset(ys) && |zs| == |xs| && forall i :: 0 <= i < |xs| ==> same(xs[i], zs[i])
  }

  lemma VariantMapsAlike<T(!new)>(xs: seq<T>, ys: seq<T>, same: (T, T) -> bool, f: T -> T)
    requires Variant(xs, ys, same) && forall x, y :: same(x, y) ==> f(x) == f(y)
    ensures multiset(Mapped(xs, f)) == multiset(Mapped(ys, f))
    ensures Entries(Mapped(xs, f)) == Entries(Mapped(ys, f))
  {
    var zs: seq<T> :| multiset(zs) == multiset(ys) && |zs| == |xs| && forall i :: 0 <= i < |xs| ==> same(xs[i], zs[i]);
    assert Mapped(xs, f) == Mapped(zs, f);
    MappedPermutes(zs, ys, f);
    SortKeepsEntries(Mapped(xs, f), Mapped(ys, f));
  }

  /** Entries have one normal form exactly when they are the same. */
  ghost predicate Tells<T(!new)>(norm: T -> T, same: (T, T) -> bool) {
    forall x, y :: norm(x) == norm(y) <==> same(x, y)
  }

  /** The last entry of `xs` has a match in `ys`, and the rest still has the same normal forms. */
  lemma MatchLast<T(!new)>(xs: seq<T>, ys: seq<T>, f: T -> T) returns (j: nat)
    requires xs != [] && multiset(Mapped(xs, f)) == multiset(Mapped(ys, f))
    ensures j < |ys| && f(ys[j]) == f(xs[|xs| - 1])
    ensures multiset(Mapped(xs[..|xs| - 1], f)) == multiset(Mapped(ys[..j] + ys[j + 1..], f))
    ensures multiset(ys) == multiset(ys[..j] + ys[j + 1..]) + multiset{ys[j]}
  {
    var k := |xs| - 1;
    assert Mapped(xs, f) == Mapped(xs[..k], f) + [f(xs[k])];
    assert f(xs[k]) in multiset(Mapped(ys, f));
    j :| 0 <= j < |ys| && Mapped(ys, f)[j] == f(xs[k]);
    WithoutOne(ys, j, f);
    Cancel(multiset(Mapped(xs[..k], f)), multiset(Mapped(ys[..j] + ys[j + 1..], f)), f(xs[k]));
  }

  lemma {:induction false} MatchUp<T(!new)>(xs: seq<T>, ys: seq<T>, f: T -> T) returns (zs: seq<T>)
    requires multiset(Mapped(xs, f)) == multiset(Mapped(ys, f))
    ensures multiset(zs) == multiset(ys) && |zs| == |xs| && forall i :: 0 <= i < |xs| ==> f(xs[i]) == f(zs[i])
  {
    if xs == [] {
      assert |multiset(Mapped(ys, f))| == |ys|;
      zs := [];
    } else {
      var j := MatchLast(xs, ys, f);
      var rest := MatchUp(xs[..|xs| - 1], ys[..j] + ys[j + 1..], f);
      zs := rest + [ys[j]];
    }
  }

  lemma Cancel<T>(a: multiset<T>, b: multiset<T>, e: T)
    requires a + multiset{e} == b + multiset{e}
    ensures a == b
  {
    assert a == (a + multiset{e}) - multiset{e} == (b + multiset{e}) - multiset{e} == b;
  }

  lemma WithoutOne<T>(ys: seq<T>, j: nat, f: T -> T)
    requires j < |ys|
    ensures multiset(ys) == multiset(ys[..j] + ys[j + 1..]) + multiset{ys[j]}
    ensures multiset(Mapped(ys, f)) == multiset(Mapped(ys[..j] + ys[j + 1..], f)) + multiset{f(ys[j])}
  {
    assert ys == ys[..j] + [ys[j]] + ys[j + 1..];
    var front, back := Mapped(ys[..j], f), Mapped(ys[j + 1..], f);
    assert Mapped(ys, f) == front + [f(ys[j])] + back;
    assert Mapped(ys[..j] + ys[j + 1..], f) == front + back;
  }

  /** Lists have the same normal forms, each as often, exactly when one is a variant of the other. */
  lemma VariantIff<T(!new)>(xs: seq<T>, ys: seq<T>, same: (T, T) -> bool, f: T -> T)
    requires Tells(f, same)
    ensures Variant(xs, ys, same) <==> multiset(Mapped(xs, f)) == multiset(Mapped(ys, f))
  {
    if Variant(xs, ys, same) {
      VariantMapsAlike(xs, ys, same, f);
    }
    if multiset(Mapped(xs, f)) == multiset(Mapped(ys, f)) {
      var zs := MatchUp(xs, ys, f);
    }
  }

  ghost predicate Within<T(!new)>(xs: seq<T>, ys: seq<T>, same: (T, T) -> bool) {
    forall x :: x in xs ==> exists y :: y in ys && same(x, y)
  }

  /** Every entry of either list is the same as one of the other. */
  ghost predicate SameEntries<T(!new)>(xs: seq<T>, ys: seq<T>, same: (T, T) -> bool) {
    Within(xs, ys, same) && Within(ys, xs, same)
  }

  lemma WithinIff<T(!new)>(xs: seq<T>, ys: seq<T>, same: (T, T) -> bool, f: T -> T)
    requires Tells(f, same)
    ensures Within(xs, ys, same) <==> Entries(Mapped(xs, f)) <= Entries(Mapped(ys, f))
  {
    if Within(xs, ys, same) {
      forall e | e in Entries(Mapped(xs, f)) ensures e in Entries(Mapped(ys, f)) {
        var i :| 0 <= i < |xs| && Mapped(xs, f)[i] == e;
        assert xs[i] in xs;
        var y :| y in ys && same(xs[i], y);
        var j :| 0 <= j < |ys| && ys[j] == y;
        assert Mapped(ys, f)[j] == e;
      }
    }
    if Entries(Mapped(xs, f)) <= Entries(Mapped(ys, f)) {
      forall x | x in xs ensures exists y :: y in ys && same(x, y) {
        var i :| 0 <= i < |xs| && xs[i] == x;
        assert Mapped(xs, f)[i] in Entries(Mapped(ys, f));
        var j :| 0 <= j < |ys| && Mapped(ys, f)[j] == f(x);
        assert ys[j] in ys && same(x, ys[j]);
      }
    }
  }

  /** Lists have the same set of normal forms exactly when they have the same entries. */
  lemma SameEntriesIff<T(!new)>(xs: seq<T>, ys: seq<T>, same: (T, T) -> bool, f: T -> T)
    requires Tells(f, same)
    ensures SameEntries(xs, ys, same) <==> Entries(Mapped(xs, f)) == Entries(Mapped(ys, f))
  {
    WithinIff(xs, ys, same, f);
    WithinIff(ys, xs, same, f);
  }

  /** Equal deduplication keys mean equal sort keys. */
  ghost predicate DedupeRefinesSort<T(!new)>(s: set<T>, r: Rules<T>) {
    forall x, y :: x in s && y in s && r.dedupeKey(x) == r.dedupeKey(y) ==> r.sortKey(x) == r.sortKey(y)
  }

  /** Then deduplication drops nothing but exact repeats. */
  lemma OnlyRepeatsDropped<T(!new)>(out: seq<T>, xs: seq<T>, r: Rules<T>)
    requires DedupedForm(out, xs, r)
    requires var s := Entries(Mapped(xs, r.norm)); SurvivorsSeparate(s, r) && DedupeRefinesSort(s, r)
    ensures Entries(out) == Entries(Mapped(xs, r.norm))
  {
    var sorted :| SortedForm(sorted, xs, r) && out == Deduped(sorted, r.dedupeKey);
    SortKeepsEntries(sorted, Mapped(xs, r.norm));
    LexIsTotalOrder();
    forall x ensures x in out <==> x in sorted {
      SurvivorsAreFirst(sorted, r, x);
      if x in sorted {
        assert x in Entries(sorted);
        assert First(Entries(sorted), x, r);
      }
    }
  }
}
