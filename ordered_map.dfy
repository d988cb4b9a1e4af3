/** A JavaScript `Map` as the aggregators use it: entries iterate in
    insertion order, `set` on a present key replaces the value in place and
    `set` on a new key appends. The module also gives the group-by fold that
    every `forEach((row) => map.set(key, f(map.get(key), row)))` loop of the
    analytics hooks performs, and that loop itself. */
module OrderedMap {
  import opened Common

  type OMap<K, V> = seq<(K, V)>

  function Keys<K, V>(m: OMap<K, V>): (ks: seq<K>)
    ensures |ks| == |m|
    ensures forall i :: 0 <= i < |m| ==> ks[i] == m[i].0
  {
    seq(|m|, i requires 0 <= i < |m| => m[i].0)
  }

  /** Every key occurs once. */
  predicate Valid<K(==), V>(m: OMap<K, V>) {
    Distinct(Keys(m))
  }

  function IndexOf<K(==)>(ks: seq<K>, k: K): (r: Option<nat>)
    ensures r.Some? ==> r.value < |ks| && ks[r.value] == k
    ensures r.Some? ==> forall j :: 0 <= j < r.value ==> ks[j] != k
    ensures r.None? <==> k !in ks
    decreases |ks|
  {
    if ks == [] then None
    else
      var front := ks[..|ks| - 1];
      assert ks == front + [ks[|ks| - 1]];
      match IndexOf(front, k)
      case Some(i) => Some(i)
      case None => if ks[|ks| - 1] == k then Some(|ks| - 1) else None
  }

  /** `m.get(k)` */
  function Get<K(==), V>(m: OMap<K, V>, k: K): (r: Option<V>)
    ensures r.None? <==> k !in Keys(m)
  {
    match IndexOf(Keys(m), k)
    case Some(i) => Some(m[i].1)
    case None => None
  }

  /** In a valid map, `get` on the key stored at `i` gives the value at `i`. */
  lemma GetAt<K, V>(m: OMap<K, V>, i: nat)
    requires Valid(m) && i < |m|
    ensures Get(m, m[i].0) == Some(m[i].1)
  {
    var j := IndexOf(Keys(m), m[i].0).value;
    assert Keys(m)[j] == Keys(m)[i];
  }

  /** `m.set(k, v)`: a present key keeps its position, a new key goes last,
      and no other key's value changes. */
  function Set<K(==,!new), V>(m: OMap<K, V>, k: K, v: V): (r: OMap<K, V>)
    ensures Keys(r) == if k in Keys(m) then Keys(m) else Keys(m) + [k]
    ensures Get(r, k) == Some(v)
    ensures forall j :: j != k ==> Get(r, j) == Get(m, j)
    ensures Valid(m) ==> Valid(r)
  {
    match IndexOf(Keys(m), k)
    case Some(i) =>
      var r := m[i := (k, v)];
      assert Keys(r) == Keys(m);
      r
    case None =>
      var r := m + [(k, v)];
      assert Keys(r) == Keys(m) + [k];
      assert Keys(r)[..|m|] == Keys(m);
      r
  }

  // ---------------------------------------------------------------------
  // Group-by fold

  /** The map left behind by visiting `rows` in order and, for each, setting
      `key(row)` to `step(previous value or nothing, row)`. */
  function Tally<R, K(==,!new), V>(rows: seq<R>, key: R -> K, step: (Option<V>, R) -> V): (m: OMap<K, V>)
    ensures Valid(m)
    decreases |rows|
  {
    if rows == [] then []
    else
      var m := Tally(rows[..|rows| - 1], key, step);
      var r := rows[|rows| - 1];
      Set(m, key(r), step(Get(m, key(r)), r))
  }

  /** The value one key accumulates: the same fold restricted to the rows
      with that key; nothing if there are none. */
  function FoldFor<R, K(==), V>(rows: seq<R>, key: R -> K, step: (Option<V>, R) -> V, k: K): Option<V>
    decreases |rows|
  {
    if rows == [] then None
    else
      var acc := FoldFor(rows[..|rows| - 1], key, step, k);
      var r := rows[|rows| - 1];
      if key(r) == k then Some(step(acc, r)) else acc
  }

  /** The loop the hooks run. */
  method RunTally<R, K(==,!new), V>(rows: seq<R>, key: R -> K, step: (Option<V>, R) -> V) returns (m: OMap<K, V>)
    ensures m == Tally(rows, key, step)
  {
    m := [];
    for i := 0 to |rows|
      invariant m == Tally(rows[..i], key, step)
    {
      TallyExtend(rows, i, key, step);
      var k := key(rows[i]);
      m := Set(m, k, step(Get(m, k), rows[i]));
    }
    assert rows[..|rows|] == rows;
  }

  /** Visiting one more row sets its key once more. */
  lemma TallyExtend<R, K(!new), V>(rows: seq<R>, i: nat, key: R -> K, step: (Option<V>, R) -> V)
    requires i < |rows|
    ensures var m := Tally(rows[..i], key, step);
      Tally(rows[..i + 1], key, step) == Set(m, key(rows[i]), step(Get(m, key(rows[i])), rows[i]))
  {
    assert rows[..i + 1][..i] == rows[..i];
  }

  /** What the map holds for `k` is that key's own fold. */
  lemma {:induction false} TallyGet<R, K(!new), V>(rows: seq<R>, key: R -> K, step: (Option<V>, R) -> V, k: K)
    ensures Get(Tally(rows, key, step), k) == FoldFor(rows, key, step, k)
    decreases |rows|
  {
    if rows != [] {
      TallyGet(rows[..|rows| - 1], key, step, k);
    }
  }

  /** The keys are the rows' keys in order of first appearance. */
  lemma {:induction false} TallyKeys<R, K(!new), V>(rows: seq<R>, key: R -> K, step: (Option<V>, R) -> V)
    ensures Keys(Tally(rows, key, step)) == Dedup(MapSeq(rows, key))
    decreases |rows|
  {
    if rows != [] {
      var front := rows[..|rows| - 1];
      TallyKeys(front, key, step);
      assert MapSeq(rows, key)[..|rows| - 1] == MapSeq(front, key);
    }
  }

  lemma TallyHasKey<R, K(!new), V>(rows: seq<R>, key: R -> K, step: (Option<V>, R) -> V, k: K)
    ensures k in Keys(Tally(rows, key, step)) <==> exists i :: 0 <= i < |rows| && key(rows[i]) == k
  {
    TallyKeys(rows, key, step);
    assert k in MapSeq(rows, key) <==> exists i :: 0 <= i < |rows| && key(rows[i]) == k;
  }

  /** Setting one key changes the sum of a per-entry quantity by the
      difference between the new entry and the one it replaces, if any. */
  lemma SumOfSet<K(!new), V>(m: OMap<K, V>, k: K, v: V, f: ((K, V)) -> real)
    ensures SumOf(Set(m, k, v), f)
         == SumOf(m, f) - (if Get(m, k).Some? then f((k, Get(m, k).value)) else 0.0) + f((k, v))
  {
    match IndexOf(Keys(m), k) {
      case Some(i) =>
        assert m[i] == (k, Get(m, k).value);
        SumOfUpdate(m, i, (k, v), f);
      case None =>
        SumOfAppend(m, (k, v), f);
    }
  }

  /** When every step adds `w(row)` to a per-entry quantity `f`, the
      quantities over the whole map add up to `w` over all rows. */
  lemma {:induction false} TallySum<R, K(!new), V>(rows: seq<R>, key: R -> K, step: (Option<V>, R) -> V,
                                            f: ((K, V)) -> real, w: R -> real)
    requires forall k, o, r :: f((k, step(o, r))) == (if o.Some? then f((k, o.value)) else 0.0) + w(r)
    ensures SumOf(Tally(rows, key, step), f) == SumOf(rows, w)
    decreases |rows|
  {
    if rows != [] {
      var front := rows[..|rows| - 1];
      var r := rows[|rows| - 1];
      var m := Tally(front, key, step);
      var k := key(r);
      var v := step(Get(m, k), r);
      TallySum(front, key, step, f, w);
      SumOfLast(rows, w);
      SumOfSet(m, k, v, f);
      assert f((k, v)) == (if Get(m, k).Some? then f((k, Get(m, k).value)) else 0.0) + w(r);
    }
  }
}
