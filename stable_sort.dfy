/** `Array.prototype.sort` with a numeric comparator, as the aggregators use
    it (`(a, b) => b.x - a.x` for descending order, `localeCompare` on keys
    for ascending order). The ECMAScript sort is stable, so rows with equal
    keys keep their relative order; an insertion sort has the same result. */
module StableSort {
  import opened Common

  predicate SortedDesc<T>(s: seq<T>, key: T -> real) {
    forall i, j :: 0 <= i < j < |s| ==> key(s[i]) >= key(s[j])
  }

  /** Puts `x` in front of the first element whose key is not above its own. */
  function Insert<T>(x: T, s: seq<T>, key: T -> real): (r: seq<T>)
    requires SortedDesc(s, key)
    ensures SortedDesc(r, key)
    ensures multiset(r) == multiset(s) + multiset{x}
    ensures |r| == |s| + 1
    ensures r[0] == x || (s != [] && r[0] == s[0])
    decreases |s|
  {
    if s == [] || key(s[0]) <= key(x) then [x] + s
    else
      var t := Insert(x, s[1..], key);
      assert key(s[0]) >= key(t[0]);
      SortedCons(s[0], t, key);
      MultisetCons(s);
      [s[0]] + t
  }

  lemma SortedCons<T>(h: T, t: seq<T>, key: T -> real)
    requires SortedDesc(t, key)
    requires t == [] || key(h) >= key(t[0])
    ensures SortedDesc([h] + t, key)
  {
    forall i, j | 0 <= i < j < |[h] + t| ensures key(([h] + t)[i]) >= key(([h] + t)[j]) {
      if i == 0 {
        assert key(t[0]) >= key(t[j - 1]) || j == 1;
      }
    }
  }

  lemma MultisetCons<T>(s: seq<T>)
    requires s != []
    ensures multiset(s) == multiset{s[0]} + multiset(s[1..])
  {
    assert s == [s[0]] + s[1..];
  }

  /** The rows ordered by descending key, ties in their original order. */
  function SortDesc<T>(s: seq<T>, key: T -> real): (r: seq<T>)
    ensures SortedDesc(r, key)
    ensures multiset(r) == multiset(s)
    ensures |r| == |s|
    decreases |s|
  {
    if s == [] then []
    else
      assert s == [s[0]] + s[1..];
      var r := Insert(s[0], SortDesc(s[1..], key), key);
      assert |r| == |multiset(r)| == |multiset(s)| == |s|;
      r
  }

  lemma SortDescSingle<T>(x: T, key: T -> real)
    ensures SortDesc([x], key) == [x]
  {
    assert [x][1..] == [];
  }

  lemma InSortDesc<T>(s: seq<T>, key: T -> real, x: T)
    ensures x in SortDesc(s, key) <==> x in s
  {
    assert x in SortDesc(s, key) <==> x in multiset(SortDesc(s, key));
  }

  // ---------------------------------------------------------------------
  // Stability

  /** The subsequence of the rows whose key is `v`. */
  function WithKey<T>(s: seq<T>, key: T -> real, v: real): seq<T>
    decreases |s|
  {
    if s == [] then [] else (if key(s[0]) == v then [s[0]] else []) + WithKey(s[1..], key, v)
  }

  lemma WithKeyCons<T>(h: T, t: seq<T>, key: T -> real, v: real)
    ensures WithKey([h] + t, key, v) == (if key(h) == v then [h] else []) + WithKey(t, key, v)
  {
    assert ([h] + t)[1..] == t;
  }

  lemma {:induction false} WithKeyInsert<T>(x: T, s: seq<T>, key: T -> real, v: real)
    requires SortedDesc(s, key)
    ensures WithKey(Insert(x, s, key), key, v)
         == (if key(x) == v then [x] else []) + WithKey(s, key, v)
    decreases |s|
  {
    if s == [] || key(s[0]) <= key(x) {
      WithKeyCons(x, s, key, v);
    } else {
      var t := Insert(x, s[1..], key);
      WithKeyInsert(x, s[1..], key, v);
      WithKeyCons(s[0], t, key, v);
      // s[0] sorts strictly before x, so at most one of them has key v
      if key(x) == v {
        assert key(s[0]) != v;
        assert WithKey(s, key, v) == WithKey(s[1..], key, v);
      } else {
        assert WithKey([s[0]] + t, key, v)
            == (if key(s[0]) == v then [s[0]] else []) + WithKey(s[1..], key, v);
      }
    }
  }

  /** Sorting does not reorder rows that share a key. */
  lemma {:induction false} SortDescStable<T>(s: seq<T>, key: T -> real, v: real)
    ensures WithKey(SortDesc(s, key), key, v) == WithKey(s, key, v)
    decreases |s|
  {
    if s != [] {
      SortDescStable(s[1..], key, v);
      WithKeyInsert(s[0], SortDesc(s[1..], key), key, v);
    }
  }

  // ---------------------------------------------------------------------
  // What sorting keeps

  lemma {:induction false} SumOfInsert<T>(x: T, s: seq<T>, key: T -> real, f: T -> real)
    requires SortedDesc(s, key)
    ensures SumOf(Insert(x, s, key), f) == f(x) + SumOf(s, f)
    decreases |s|
  {
    if s == [] || key(s[0]) <= key(x) {
      assert ([x] + s)[1..] == s;
    } else {
      SumOfInsert(x, s[1..], key, f);
      assert ([s[0]] + Insert(x, s[1..], key))[1..] == Insert(x, s[1..], key);
    }
  }

  /** Sorting does not change a total. */
  lemma {:induction false} SumOfSortDesc<T>(s: seq<T>, key: T -> real, f: T -> real)
    ensures SumOf(SortDesc(s, key), f) == SumOf(s, f)
    decreases |s|
  {
    if s != [] {
      SumOfSortDesc(s[1..], key, f);
      SumOfInsert(s[0], SortDesc(s[1..], key), key, f);
    }
  }

  lemma MapSeqCons<T, K>(h: T, t: seq<T>, proj: T -> K)
    ensures MapSeq([h] + t, proj) == [proj(h)] + MapSeq(t, proj)
  {
    var l := MapSeq([h] + t, proj);
    var r := [proj(h)] + MapSeq(t, proj);
    forall i | 0 <= i < |l| ensures l[i] == r[i] {
      if i > 0 {
        assert ([h] + t)[i] == t[i - 1];
      }
    }
  }

  lemma DistinctCons<K>(h: K, r: seq<K>)
    requires Distinct(r) && h !in r
    ensures Distinct([h] + r)
  {
    forall i, j | 0 <= i < j < |[h] + r| ensures ([h] + r)[i] != ([h] + r)[j] {
      if i == 0 {
        assert ([h] + r)[j] == r[j - 1];
      } else {
        assert ([h] + r)[i] == r[i - 1] && ([h] + r)[j] == r[j - 1];
      }
    }
  }

  lemma DistinctTail<K>(h: K, r: seq<K>)
    requires Distinct([h] + r)
    ensures Distinct(r) && h !in r
  {
    forall i, j | 0 <= i < j < |r| ensures r[i] != r[j] {
      assert ([h] + r)[i + 1] == r[i] && ([h] + r)[j + 1] == r[j];
    }
    forall j | 0 <= j < |r| ensures r[j] != h {
      assert ([h] + r)[0] == h && ([h] + r)[j + 1] == r[j];
    }
  }

  lemma FrontNotInInsert<T, K>(x: T, h: T, u: seq<T>, key: T -> real, proj: T -> K)
    requires SortedDesc(u, key)
    requires proj(h) !in MapSeq(u, proj) && proj(x) != proj(h)
    ensures proj(h) !in MapSeq(Insert(x, u, key), proj)
  {
    var t := Insert(x, u, key);
    forall i | 0 <= i < |t| ensures proj(t[i]) != proj(h) {
      assert t[i] in multiset(t);
      if t[i] != x {
        assert t[i] in multiset(u);
        var j :| 0 <= j < |u| && u[j] == t[i];
        assert MapSeq(u, proj)[j] == proj(t[i]);
      }
    }
  }

  lemma {:induction false} DistinctInsert<T, K>(x: T, s: seq<T>, key: T -> real, proj: T -> K)
    requires SortedDesc(s, key)
    requires Distinct(MapSeq(s, proj)) && proj(x) !in MapSeq(s, proj)
    ensures Distinct(MapSeq(Insert(x, s, key), proj))
    decreases |s|
  {
    if s == [] || key(s[0]) <= key(x) {
      MapSeqCons(x, s, proj);
      DistinctCons(proj(x), MapSeq(s, proj));
    } else {
      var tail := MapSeq(s[1..], proj);
      assert s == [s[0]] + s[1..];
      MapSeqCons(s[0], s[1..], proj);
      DistinctTail(proj(s[0]), tail);
      assert proj(x) != proj(s[0]) && proj(x) !in tail;
      DistinctInsert(x, s[1..], key, proj);
      var t := Insert(x, s[1..], key);
      FrontNotInInsert(x, s[0], s[1..], key, proj);
      MapSeqCons(s[0], t, proj);
      DistinctCons(proj(s[0]), MapSeq(t, proj));
    }
  }

  /** Rows that differ in some projection (an agent, a date) still do after
      sorting: sorting neither merges nor duplicates rows. */
  lemma {:induction false} SortDescDistinct<T, K>(s: seq<T>, key: T -> real, proj: T -> K)
    requires Distinct(MapSeq(s, proj))
    ensures Distinct(MapSeq(SortDesc(s, key), proj))
    decreases |s|
  {
    if s != [] {
      assert MapSeq(s, proj) == [proj(s[0])] + MapSeq(s[1..], proj);
      SortDescDistinct(s[1..], key, proj);
      var t := SortDesc(s[1..], key);
      forall i | 0 <= i < |t| ensures proj(t[i]) != proj(s[0]) {
        assert t[i] in multiset(s[1..]);
        var j :| 0 <= j < |s[1..]| && s[1..][j] == t[i];
        assert MapSeq(s, proj)[j + 1] == proj(t[i]);
      }
      DistinctInsert(s[0], t, key, proj);
    }
  }

  lemma {:induction false} CountInsert<T>(x: T, s: seq<T>, key: T -> real, p: T -> bool)
    requires SortedDesc(s, key)
    ensures Count(Insert(x, s, key), p) == (if p(x) then 1 else 0) + Count(s, p)
    decreases |s|
  {
    if s == [] || key(s[0]) <= key(x) {
      assert ([x] + s)[1..] == s;
    } else {
      CountInsert(x, s[1..], key, p);
      assert ([s[0]] + Insert(x, s[1..], key))[1..] == Insert(x, s[1..], key);
    }
  }

  /** Sorting does not change how many rows pass a test. */
  lemma {:induction false} CountSortDesc<T>(s: seq<T>, key: T -> real, p: T -> bool)
    ensures Count(SortDesc(s, key), p) == Count(s, p)
    decreases |s|
  {
    if s != [] {
      CountSortDesc(s[1..], key, p);
      CountInsert(s[0], SortDesc(s[1..], key), key, p);
    }
  }
}
