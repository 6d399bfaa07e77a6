/**
 Making one keyed table equal to another, one key at a time and in any key order, while
 counting what was added, changed and removed.
 */
module Merge {

  datatype ReconcileReport = ReconcileReport(added: nat, updated: nat, removed: nat)

  function Changed<K(==), V(==)>(before: map<K, V>, desired: map<K, V>): set<K> {
    set u | u in before && u in desired && before[u] != desired[u]
  }

  function ReportOf<K(==), V(==)>(before: map<K, V>, desired: map<K, V>): ReconcileReport {
    ReconcileReport(|desired.Keys - before.Keys|, |Changed(before, desired)|, |before.Keys - desired.Keys|)
  }

  lemma SizesBalance<K>(before: set<K>, desired: set<K>)
    ensures |desired| == |before| + |desired - before| - |before - desired|
  {
    var common := before * desired;
    assert before == common + (before - desired) && desired == common + (desired - before);
  }

  lemma NothingDiffers<K, V>(before: map<K, V>, desired: map<K, V>)
    requires before.Keys - desired.Keys == {} && desired.Keys - before.Keys == {} && Changed(before, desired) == {}
    ensures before == desired
  {
    forall u | u in before ensures u in desired && before[u] == desired[u] {
      assert u !in before.Keys - desired.Keys && u !in Changed(before, desired);
    }
    forall u | u in desired ensures u in before {
      assert u !in desired.Keys - before.Keys;
    }
  }

  /** The report accounts for every change of size, and reconciling again finds nothing to do. */
  lemma ReportBalances<K, V>(before: map<K, V>, desired: map<K, V>)
    ensures var r := ReportOf(before, desired);
            |desired| == |before| + r.added - r.removed
    ensures ReportOf(before, desired) == ReconcileReport(0, 0, 0) <==> before == desired
  {
    SizesBalance(before.Keys, desired.Keys);
    assert |before| == |before.Keys| && |desired| == |desired.Keys|;
    if ReportOf(before, desired) == ReconcileReport(0, 0, 0) {
      NothingDiffers(before, desired);
    }
    if before == desired {
      assert before.Keys - desired.Keys == {} && Changed(before, desired) == {};
    }
  }

  lemma OneMoreDone<K>(s: set<K>, todo: set<K>, u: K)
    requires u in todo
    ensures |s - (todo - {u})| == |s - todo| + if u in s then 1 else 0
  {
    if u in s {
      assert s - (todo - {u}) == (s - todo) + {u};
    } else {
      assert s - (todo - {u}) == s - todo;
    }
  }

  /** The table while stale records are being removed and `todo` is still to be looked at. */
  function Pruned<K(==), V>(before: map<K, V>, desired: map<K, V>, todo: set<K>): map<K, V> {
    map u | u in before && (u in todo || u in desired) :: before[u]
  }

  lemma PrunedEnds<K, V>(before: map<K, V>, desired: map<K, V>)
    ensures Pruned(before, desired, before.Keys) == before
    ensures |before.Keys - desired.Keys - before.Keys| == 0
    ensures before.Keys - desired.Keys - {} == before.Keys - desired.Keys
  {
    assert before.Keys - desired.Keys - before.Keys == {};
  }

  lemma PrunedStep<K, V>(before: map<K, V>, desired: map<K, V>, todo: set<K>, u: K)
    requires u in todo && todo <= before.Keys
    ensures Pruned(before, desired, todo - {u}) ==
            if u in desired then Pruned(before, desired, todo) else Pruned(before, desired, todo) - {u}
    ensures u in Pruned(before, desired, todo)
  {
  }

  lemma PrunedCount<K, V>(before: map<K, V>, desired: map<K, V>, todo: set<K>, u: K)
    requires u in todo && todo <= before.Keys
    ensures |before.Keys - desired.Keys - (todo - {u})| ==
            |before.Keys - desired.Keys - todo| + if u in desired then 0 else 1
  {
    OneMoreDone(before.Keys - desired.Keys, todo, u);
  }

  /** The table while desired records are being put and `todo` is still to be looked at. */
  function Filled<K(==), V>(before: map<K, V>, desired: map<K, V>, todo: set<K>): map<K, V> {
    map u | u in desired && (u in before || u !in todo) :: if u in todo then before[u] else desired[u]
  }

  lemma FilledEnds<K, V>(before: map<K, V>, desired: map<K, V>)
    ensures Filled(before, desired, desired.Keys) == Pruned(before, desired, {})
    ensures Filled(before, desired, {}) == desired
  {
    assert Filled(before, desired, desired.Keys).Keys == Pruned(before, desired, {}).Keys;
  }

  lemma FilledStep<K, V>(before: map<K, V>, desired: map<K, V>, todo: set<K>, u: K)
    requires u in todo && todo <= desired.Keys
    ensures Filled(before, desired, todo - {u}) == Filled(before, desired, todo)[u := desired[u]]
    ensures u in Filled(before, desired, todo) <==> u in before
    ensures u in before ==> Filled(before, desired, todo)[u] == before[u]
    ensures u in before && before[u] == desired[u] ==>
              Filled(before, desired, todo - {u}) == Filled(before, desired, todo)
  {
    assert Filled(before, desired, todo - {u}).Keys == Filled(before, desired, todo)[u := desired[u]].Keys;
  }

  lemma CountsEnd<K, V>(before: map<K, V>, desired: map<K, V>)
    ensures |desired.Keys - before.Keys - desired.Keys| == |Changed(before, desired) - desired.Keys| == 0
    ensures desired.Keys - before.Keys - {} == desired.Keys - before.Keys
    ensures Changed(before, desired) - {} == Changed(before, desired)
  {
    assert desired.Keys - before.Keys - desired.Keys == {};
    assert Changed(before, desired) - desired.Keys == {};
  }

  lemma CountsStep<K, V>(before: map<K, V>, desired: map<K, V>, todo: set<K>, u: K)
    requires u in todo && todo <= desired.Keys
    ensures |desired.Keys - before.Keys - (todo - {u})| ==
            |desired.Keys - before.Keys - todo| + if u in before then 0 else 1
    ensures |Changed(before, desired) - (todo - {u})| ==
            |Changed(before, desired) - todo| + if u in before && before[u] != desired[u] then 1 else 0
  {
    OneMoreDone(desired.Keys - before.Keys, todo, u);
    OneMoreDone(Changed(before, desired), todo, u);
  }

  lemma PutBack<K, V>(table: map<K, V>, todo: set<K>, u: K)
    requires u in todo && u in table
    ensures table - (todo - {u}) == (table - todo)[u := table[u]]
  {
  }
}
