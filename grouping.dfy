/** The pipeline the analytics hooks share after their `forEach` loop:
    `Array.from(map.entries()).map(mk).sort(byKey)`. The entries come in the
    order their keys first appeared, `mk` builds one output record per key,
    and the stable sort orders the records, ties keeping that order. */
module Grouping {
  import opened Common
  import opened OrderedMap
  import opened StableSort

  function Grouped<R, K(==,!new), V, U>(rows: seq<R>, key: R -> K, step: (Option<V>, R) -> V,
                                        mk: ((K, V)) -> U, sortKey: U -> real): seq<U>
  {
    SortDesc(MapSeq(Tally(rows, key, step), mk), sortKey)
  }

  /** The loop of the hook followed by the map and the sort. */
  method RunGrouped<R, K(==,!new), V, U>(rows: seq<R>, key: R -> K, step: (Option<V>, R) -> V,
                                         mk: ((K, V)) -> U, sortKey: U -> real) returns (out: seq<U>)
    ensures out == Grouped(rows, key, step, mk, sortKey)
  {
    var m := RunTally(rows, key, step);
    out := SortDesc(MapSeq(m, mk), sortKey);
  }

  /** One record per key that occurs in the rows, and no other. */
  lemma GroupedKeys<R, K(!new), V, U>(rows: seq<R>, key: R -> K, step: (Option<V>, R) -> V,
                                      mk: ((K, V)) -> U, sortKey: U -> real, proj: U -> K)
    requires forall e :: proj(mk(e)) == e.0
    ensures Distinct(MapSeq(Grouped(rows, key, step, mk, sortKey), proj))
    ensures forall k :: k in MapSeq(Grouped(rows, key, step, mk, sortKey), proj)
                    <==> exists j :: 0 <= j < |rows| && key(rows[j]) == k
  {
    var m := Tally(rows, key, step);
    var entries := MapSeq(m, mk);
    EntriesKeys(m, mk, proj);
    SortDescDistinct(entries, sortKey, proj);
    forall k ensures k in MapSeq(Grouped(rows, key, step, mk, sortKey), proj)
                 <==> exists j :: 0 <= j < |rows| && key(rows[j]) == k {
      TallyHasKey(rows, key, step, k);
      SortedKeys(m, mk, sortKey, proj, k);
    }
  }

  /** Building the records keeps the keys, in their order. */
  lemma EntriesKeys<K, V, U>(m: OMap<K, V>, mk: ((K, V)) -> U, proj: U -> K)
    requires forall e :: proj(mk(e)) == e.0
    ensures MapSeq(MapSeq(m, mk), proj) == Keys(m)
  {
  }

  /** Sorting the records neither adds nor drops a key. */
  lemma SortedKeys<K, V, U>(m: OMap<K, V>, mk: ((K, V)) -> U, sortKey: U -> real, proj: U -> K, k: K)
    requires forall e :: proj(mk(e)) == e.0
    ensures k in MapSeq(SortDesc(MapSeq(m, mk), sortKey), proj) <==> k in Keys(m)
  {
    var entries := MapSeq(m, mk);
    var out := SortDesc(entries, sortKey);
    if k in MapSeq(out, proj) {
      var i :| 0 <= i < |out| && proj(out[i]) == k;
      InSortDesc(entries, sortKey, out[i]);
      var j :| 0 <= j < |entries| && entries[j] == out[i];
      assert Keys(m)[j] == k;
    }
    if k in Keys(m) {
      var j :| 0 <= j < |m| && m[j].0 == k;
      InSortDesc(entries, sortKey, entries[j]);
      var i :| 0 <= i < |out| && out[i] == entries[j];
      assert MapSeq(out, proj)[i] == k;
    }
  }

  /** Each record is built from its key's own fold over the rows. */
  lemma GroupedEntry<R, K(!new), V, U>(rows: seq<R>, key: R -> K, step: (Option<V>, R) -> V,
                                       mk: ((K, V)) -> U, sortKey: U -> real, proj: U -> K, i: nat)
    requires forall e :: proj(mk(e)) == e.0
    requires i < |Grouped(rows, key, step, mk, sortKey)|
    ensures var u := Grouped(rows, key, step, mk, sortKey)[i];
      && FoldFor(rows, key, step, proj(u)).Some?
      && u == mk((proj(u), FoldFor(rows, key, step, proj(u)).value))
  {
    var m := Tally(rows, key, step);
    var entries := MapSeq(m, mk);
    var u := Grouped(rows, key, step, mk, sortKey)[i];
    InSortDesc(entries, sortKey, u);
    var j :| 0 <= j < |entries| && entries[j] == u;
    GetAt(m, j);
    TallyGet(rows, key, step, m[j].0);
  }

  /** Totals survive the grouping: when every step adds `w(row)` to a
      record's `f`, the records' `f` add up to `w` over all rows. */
  lemma GroupedSum<R, K(!new), V, U>(rows: seq<R>, key: R -> K, step: (Option<V>, R) -> V,
                                     mk: ((K, V)) -> U, sortKey: U -> real, f: U -> real, w: R -> real)
    requires forall k, o, r :: f(mk((k, step(o, r)))) == (if o.Some? then f(mk((k, o.value))) else 0.0) + w(r)
    ensures SumOf(Grouped(rows, key, step, mk, sortKey), f) == SumOf(rows, w)
  {
    var m := Tally(rows, key, step);
    var g := (e: (K, V)) => f(mk(e));
    SumOfSortDesc(MapSeq(m, mk), sortKey, f);
    SumOfMapSeq(m, mk, f, g);
    TallySum(rows, key, step, g, w);
  }

  /** Records with equal sort keys stay in the order their keys first
      appeared in the rows. */
  lemma GroupedStable<R, K(!new), V, U>(rows: seq<R>, key: R -> K, step: (Option<V>, R) -> V,
                                        mk: ((K, V)) -> U, sortKey: U -> real, v: real)
    ensures WithKey(Grouped(rows, key, step, mk, sortKey), sortKey, v)
         == WithKey(MapSeq(Tally(rows, key, step), mk), sortKey, v)
    ensures Keys(Tally(rows, key, step)) == Dedup(MapSeq(rows, key))
  {
    SortDescStable(MapSeq(Tally(rows, key, step), mk), sortKey, v);
    TallyKeys(rows, key, step);
  }

  // ---------------------------------------------------------------------
  // Counting per key

  /** `(map.get(k) ?? 0) + 1` */
  function CountStep<R>(o: Option<nat>, r: R): nat {
    o.GetOr(0) + 1
  }

  /** The rows whose key is `k`, as a test. */
  function HasKey<R, K(==)>(key: R -> K, k: K): R -> bool {
    r => key(r) == k
  }

  /** Counting per key gives, for each key, the number of rows with it. */
  lemma {:induction false} FoldCount<R, K(!new)>(rows: seq<R>, key: R -> K, k: K)
    ensures FoldFor(rows, key, CountStep, k)
         == if Count(rows, HasKey(key, k)) > 0 then Some(Count(rows, HasKey(key, k))) else None
    decreases |rows|
  {
    if rows != [] {
      var front := rows[..|rows| - 1];
      FoldCount(front, key, k);
      assert rows == front + [rows[|rows| - 1]];
      CountAppend(front, rows[|rows| - 1], HasKey(key, k));
    }
  }
}
