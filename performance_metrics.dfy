/** The analytics of `usePerformanceMetrics`: nearest-rank latency
    percentiles, per-hour (or per-day) throughput, the average latency of
    each pipeline stage, the per-agent comparison table and the daily
    latency series. */
module PerformanceMetrics {
  import opened Common
  import opened Turns
  import opened OrderedMap
  import opened StableSort
  import opened Grouping

  // ---------------------------------------------------------------------
  // calculatePercentile

  /** Sort key for `(a, b) => a - b`: ascending order. */
  function Ascending(x: int): real {
    -(x as real)
  }

  /** `[...values].sort((a, b) => a - b)`: a sorted copy. */
  function SortAsc(values: seq<int>): (r: seq<int>)
    ensures multiset(r) == multiset(values)
    ensures |r| == |values|
    ensures forall i, j :: 0 <= i < j < |r| ==> r[i] <= r[j]
  {
    var r := SortDesc(values, Ascending);
    assert forall i, j :: 0 <= i < j < |r| ==> Ascending(r[i]) >= Ascending(r[j]);
    r
  }

  /** `Math.max(0, Math.ceil((p / 100) * n) - 1)` for a whole-number `p`:
      the last position of the first `p` percent of `n` sorted values. */
  function NearestRank(p: nat, n: nat): (k: nat)
    ensures p == 0 || n == 0 ==> k == 0
    ensures p > 0 && n > 0 ==> k * 100 < p * n <= (k + 1) * 100
  {
    var c := (p * n + 99) / 100;
    if c >= 1 then c - 1 else 0
  }

  lemma NearestRankInRange(p: nat, n: nat)
    requires p <= 100 && n > 0
    ensures NearestRank(p, n) < n
  {
    var k := NearestRank(p, n);
    if p > 0 {
      assert k * 100 < p * n <= 100 * n;
    }
  }

  lemma NearestRankMonotone(p: nat, q: nat, n: nat)
    requires p <= q
    ensures NearestRank(p, n) <= NearestRank(q, n)
  {
    assert p * n + 99 <= q * n + 99;
  }

  /** `calculatePercentile(values, p)`. A position past the end (only for
      `p` above 100) reads `undefined`, which `|| 0` turns into 0. */
  function Percentile(values: seq<int>, p: nat): (r: int)
    ensures values == [] ==> r == 0
  {
    if |values| == 0 then 0
    else
      var sorted := SortAsc(values);
      var k := NearestRank(p, |sorted|);
      if k < |sorted| then sorted[k] else 0
  }

  function AtMost(r: int): int -> bool {
    x => x <= r
  }

  function Below(r: int): int -> bool {
    x => x < r
  }

  lemma {:induction false} CountAllPrefix(s: seq<int>, q: int -> bool, k: nat)
    requires k <= |s|
    requires forall i :: 0 <= i < k ==> q(s[i])
    ensures Count(s, q) >= k
    decreases k
  {
    if k > 0 {
      assert forall i :: 0 <= i < k - 1 ==> q(s[1..][i]) by {
        forall i | 0 <= i < k - 1 ensures q(s[1..][i]) {
          assert s[1..][i] == s[i + 1];
        }
      }
      CountAllPrefix(s[1..], q, k - 1);
    }
  }

  lemma {:induction false} CountNoneSuffix(s: seq<int>, q: int -> bool, k: nat)
    requires k <= |s|
    requires forall i :: k <= i < |s| ==> !q(s[i])
    ensures Count(s, q) <= k
    decreases |s|
  {
    if s != [] {
      if k == 0 {
        assert forall i :: 0 <= i < |s[1..]| ==> !q(s[1..][i]) by {
          forall i | 0 <= i < |s[1..]| ensures !q(s[1..][i]) {
            assert s[1..][i] == s[i + 1];
          }
        }
        CountNoneSuffix(s[1..], q, 0);
      } else {
        assert forall i :: k - 1 <= i < |s[1..]| ==> !q(s[1..][i]) by {
          forall i | k - 1 <= i < |s[1..]| ensures !q(s[1..][i]) {
            assert s[1..][i] == s[i + 1];
          }
        }
        CountNoneSuffix(s[1..], q, k - 1);
      }
    }
  }

  /** The nearest-rank definition, stated without sorting: the percentile is
      a value of the list, at least `p` percent of the values are no larger
      than it, and fewer than `p` percent are smaller. */
  lemma PercentileRank(values: seq<int>, p: nat)
    requires |values| > 0 && 0 < p <= 100
    ensures var r := Percentile(values, p);
      && r in values
      && Count(values, AtMost(r)) * 100 >= p * |values|
      && Count(values, Below(r)) * 100 < p * |values|
  {
    var n := |values|;
    var k := NearestRank(p, n);
    NearestRankInRange(p, n);
    var r := Percentile(values, p);
    assert r == SortAsc(values)[k];
    PercentileIsElement(values, p);
    RankCounts(values, k);
    var pn := p * n;
    assert k * 100 < pn <= (k + 1) * 100;
  }

  /** The value at position `k` of the sorted copy has at least `k + 1`
      values at or below it and at most `k` values below it. */
  lemma RankCounts(values: seq<int>, k: nat)
    requires k < |values|
    ensures var r := SortAsc(values)[k];
      Count(values, AtMost(r)) >= k + 1 && Count(values, Below(r)) <= k
  {
    var sorted := SortAsc(values);
    var r := sorted[k];
    CountSortDesc(values, Ascending, AtMost(r));
    CountSortDesc(values, Ascending, Below(r));
    forall i | 0 <= i < k + 1
      ensures AtMost(r)(sorted[i])
    {
      assert i == k || sorted[i] <= sorted[k];
    }
    CountAllPrefix(sorted, AtMost(r), k + 1);
    forall i | k <= i < |sorted|
      ensures !Below(r)(sorted[i])
    {
      assert i == k || sorted[k] <= sorted[i];
    }
    CountNoneSuffix(sorted, Below(r), k);
  }

  /** For a percentage the result is one of the values. */
  lemma PercentileIsElement(values: seq<int>, p: nat)
    requires |values| > 0 && p <= 100
    ensures Percentile(values, p) in values
  {
    var sorted := SortAsc(values);
    NearestRankInRange(p, |values|);
    assert Percentile(values, p) in multiset(values);
  }

  /** The 0th percentile is the minimum and the 100th the maximum. */
  lemma PercentileExtremes(values: seq<int>)
    requires |values| > 0
    ensures forall v :: v in values ==> Percentile(values, 0) <= v <= Percentile(values, 100)
  {
    var sorted := SortAsc(values);
    var n := |values|;
    assert NearestRank(100, n) == n - 1;
    forall v | v in values ensures Percentile(values, 0) <= v <= Percentile(values, 100) {
      assert v in multiset(sorted);
      var i :| 0 <= i < n && sorted[i] == v;
    }
  }

  /** A higher percentage never gives a lower percentile. */
  lemma PercentileMonotone(values: seq<int>, p: nat, q: nat)
    requires p <= q <= 100
    ensures Percentile(values, p) <= Percentile(values, q)
  {
    if |values| > 0 {
      NearestRankMonotone(p, q, |values|);
      NearestRankInRange(q, |values|);
    }
  }

  lemma PercentileExample()
    ensures Percentile([40, 10, 30, 20], 50) == 20
    ensures Percentile([40, 10, 30, 20], 90) == 40
  {
    SortExample();
    NearestRankExample();
    var sorted := SortAsc([40, 10, 30, 20]);
    assert sorted[1] == 20 && sorted[3] == 40;
  }

  lemma NearestRankExample()
    ensures NearestRank(50, 4) == 1 && NearestRank(90, 4) == 3
  {
  }

  lemma SortExample()
    ensures SortAsc([40, 10, 30, 20]) == [10, 20, 30, 40]
  {
    assert [40, 10, 30, 20][1..] == [10, 30, 20];
    assert [10, 30, 20][1..] == [30, 20];
    assert [30, 20][1..] == [20];
    assert SortDesc([20], Ascending) == [20];
    InsertExample1();
    InsertExample2();
    InsertExample3();
  }

  lemma InsertExample1()
    ensures Insert(30, [20], Ascending) == [20, 30]
    ensures Insert(10, [20, 30], Ascending) == [10, 20, 30]
  {
  }

  lemma InsertExample2()
    ensures Insert(40, [30], Ascending) == [30, 40]
    ensures Insert(40, [20, 30], Ascending) == [20, 30, 40]
  {
    assert [20, 30][1..] == [30];
    assert [20] + [30, 40] == [20, 30, 40];
  }

  lemma InsertExample3()
    ensures Insert(40, [10, 20, 30], Ascending) == [10, 20, 30, 40]
  {
    InsertExample2();
    assert [10, 20, 30][1..] == [20, 30];
    assert [10] + [20, 30, 40] == [10, 20, 30, 40];
  }

  // ---------------------------------------------------------------------
  // Latency percentiles

  /** `l != null` */
  predicate HasTotal(t: Turn) {
    t.latencyTotalMs.Some?
  }

  function TotalMs(t: Turn): int {
    t.latencyTotalMs.GetOr(0)
  }

  /** `turns.map((t) => t.latency_total_ms).filter((l) => l != null)` */
  function TotalLatencies(rows: seq<Turn>): (r: seq<int>)
    ensures |r| == Count(rows, HasTotal)
  {
    MapSeq(Filter(rows, HasTotal), TotalMs)
  }

  lemma TotalLatenciesAppend(rows: seq<Turn>, t: Turn)
    ensures TotalLatencies(rows + [t]) == TotalLatencies(rows) + (if HasTotal(t) then [TotalMs(t)] else [])
  {
    FilterAppend(rows, t, HasTotal);
  }

  datatype Percentiles = Percentiles(p50: int, p90: int, p99: int)

  function LatencyPercentiles(rows: seq<Turn>): (r: Percentiles)
    ensures r.p50 <= r.p90 <= r.p99
    ensures Count(rows, HasTotal) == 0 ==> r == Percentiles(0, 0, 0)
  {
    var latencies := TotalLatencies(rows);
    PercentileMonotone(latencies, 50, 90);
    PercentileMonotone(latencies, 90, 99);
    Percentiles(Percentile(latencies, 50), Percentile(latencies, 90), Percentile(latencies, 99))
  }

  // ---------------------------------------------------------------------
  // Hourly throughput

  datatype HourlyCount = HourlyCount(hour: int, turns: nat)

  /** The hour of day for the 24-hour view, otherwise the UTC date. Both
      render as zero-padded text whose `localeCompare` order is the numeric
      order of the key. */
  function ThroughputKey(p: Period): Turn -> int {
    if p == H24 then HourOfDay else UtcDay
  }

  function MkHourly(e: (int, nat)): HourlyCount {
    HourlyCount(e.0, e.1)
  }

  function HourOf(h: HourlyCount): int {
    h.hour
  }

  function TurnsOf(h: HourlyCount): real {
    h.turns as real
  }

  /** Sort key for `a.hour.localeCompare(b.hour)`: ascending. */
  function HourAscending(h: HourlyCount): real {
    -(h.hour as real)
  }

  function HourlyThroughput(p: Period, rows: seq<Turn>): seq<HourlyCount> {
    Grouped(rows, ThroughputKey(p), CountStep, MkHourly, HourAscending)
  }

  /** One entry per key that occurs in the rows, and no other. */
  lemma HourlyThroughputKeys(p: Period, rows: seq<Turn>)
    ensures Distinct(MapSeq(HourlyThroughput(p, rows), HourOf))
    ensures forall h :: h in MapSeq(HourlyThroughput(p, rows), HourOf)
                    <==> exists j :: 0 <= j < |rows| && ThroughputKey(p)(rows[j]) == h
  {
    GroupedKeys(rows, ThroughputKey(p), CountStep, MkHourly, HourAscending, HourOf);
  }

  /** Entries come in strictly ascending key order. */
  lemma HourlyThroughputOrder(p: Period, rows: seq<Turn>)
    ensures var out := HourlyThroughput(p, rows);
      forall i, j :: 0 <= i < j < |out| ==> out[i].hour < out[j].hour
  {
    var out := HourlyThroughput(p, rows);
    HourlyThroughputKeys(p, rows);
    forall i, j | 0 <= i < j < |out| ensures out[i].hour < out[j].hour {
      assert MapSeq(out, HourOf)[i] != MapSeq(out, HourOf)[j];
      assert HourAscending(out[i]) >= HourAscending(out[j]);
    }
  }

  /** Each entry counts the rows with its key. */
  lemma HourlyThroughputCounts(p: Period, rows: seq<Turn>, i: nat)
    requires i < |HourlyThroughput(p, rows)|
    ensures var e := HourlyThroughput(p, rows)[i];
      0 < e.turns == Count(rows, HasKey(ThroughputKey(p), e.hour))
  {
    var e := HourlyThroughput(p, rows)[i];
    GroupedEntry(rows, ThroughputKey(p), CountStep, MkHourly, HourAscending, HourOf, i);
    FoldCount(rows, ThroughputKey(p), e.hour);
  }

  /** The counts add up to the number of turns. */
  lemma HourlyThroughputSum(p: Period, rows: seq<Turn>)
    ensures SumOf(HourlyThroughput(p, rows), TurnsOf) == |rows| as real
  {
    assert SumOf(HourlyThroughput(p, rows), TurnsOf) == SumOf(rows, One) by {
      HourlyStepAddsOne();
      GroupedSum(rows, ThroughputKey(p), CountStep, MkHourly, HourAscending, TurnsOf, One);
    }
    SumOfOne(rows);
  }

  lemma HourlyStepAddsOne()
    ensures forall k, o: Option<nat>, r ::
      TurnsOf(MkHourly((k, CountStep(o, r)))) == (if o.Some? then TurnsOf(MkHourly((k, o.value))) else 0.0) + One(r)
  {
  }

  // ---------------------------------------------------------------------
  // Latency breakdown

  datatype Breakdown = Breakdown(context: real, guardrailInput: real, agent: real, guardrailOutput: real)

  /** `t.latency_context_ms || 0` and its three siblings */
  function ContextMs(t: Turn): real { OrZeroInt(t.latencyContextMs) as real }
  function GuardrailInputMs(t: Turn): real { OrZeroInt(t.latencyGuardrailInputMs) as real }
  function AgentMs(t: Turn): real { OrZeroInt(t.latencyAgentMs) as real }
  function GuardrailOutputMs(t: Turn): real { OrZeroInt(t.latencyGuardrailOutputMs) as real }

  /** `turns.reduce((sum, t) => sum + f(t), 0) / Math.max(turns.length, 1)` */
  function StageAverage(rows: seq<Turn>, f: Turn -> real): (r: real)
    ensures rows == [] ==> r == 0.0
  {
    SumOf(rows, f) / (if |rows| > 0 then |rows| as real else 1.0)
  }

  function LatencyBreakdown(rows: seq<Turn>): (b: Breakdown)
    ensures rows == [] ==> b == Breakdown(0.0, 0.0, 0.0, 0.0)
  {
    Breakdown(StageAverage(rows, ContextMs), StageAverage(rows, GuardrailInputMs),
              StageAverage(rows, AgentMs), StageAverage(rows, GuardrailOutputMs))
  }

  /** A stage average times the number of turns gives back the stage total,
      and it lies within any range that holds every turn's value. */
  lemma StageAverageSpec(rows: seq<Turn>, f: Turn -> real, lo: real, hi: real)
    requires |rows| > 0
    requires forall i :: 0 <= i < |rows| ==> lo <= f(rows[i]) <= hi
    ensures StageAverage(rows, f) * |rows| as real == SumOf(rows, f)
    ensures lo <= StageAverage(rows, f) <= hi
  {
    MeanOfBounded(rows, f, lo, hi);
  }

  // ---------------------------------------------------------------------
  // Agent comparison

  /** `{ latencies: number[]; errors: number }` */
  datatype AgentStats = AgentStats(latencies: seq<int>, errors: nat)

  /** The body of the `forEach`: start from an empty record, push a
      non-null latency, count an error. */
  function AgentStep(o: Option<AgentStats>, t: Turn): AgentStats {
    var e := o.GetOr(AgentStats([], 0));
    AgentStats(if HasTotal(t) then e.latencies + [TotalMs(t)] else e.latencies,
               if IsError(t) then e.errors + 1 else e.errors)
  }

  datatype AgentRow = AgentRow(agent: string, avgLatency: real, p90Latency: int, turns: nat, errorRate: real)

  /** `values.reduce((a, b) => a + b, 0) / values.length`, or 0 for none. */
  function Mean(values: seq<int>): (r: real)
    ensures values == [] ==> r == 0.0
  {
    if |values| > 0 then SumOf(values, AsReal) / |values| as real else 0.0
  }

  function MkAgentRow(e: (string, AgentStats)): AgentRow {
    var n := |e.1.latencies|;
    AgentRow(e.0, Mean(e.1.latencies), Percentile(e.1.latencies, 90), n,
             if n > 0 then Percent(e.1.errors as real, n as real) else 0.0)
  }

  function AgentName(r: AgentRow): string {
    r.agent
  }

  /** Sort key for `(a, b) => b.turns - a.turns`: descending. */
  function ByTurns(r: AgentRow): real {
    r.turns as real
  }

  function AgentComparison(rows: seq<Turn>): seq<AgentRow> {
    Grouped(rows, AgentKey, AgentStep, MkAgentRow, ByTurns)
  }

  /** The rows of one agent. */
  function AgentRows(rows: seq<Turn>, a: string): seq<Turn> {
    Filter(rows, HasKey(AgentKey, a))
  }

  /** What an agent's record holds after the loop: the non-null latencies of
      its rows in order, and the number of its rows that failed; nothing when
      it has no rows. */
  function StatsOf(mine: seq<Turn>): Option<AgentStats> {
    if |mine| > 0 then Some(AgentStats(TotalLatencies(mine), Count(mine, IsError))) else None
  }

  /** One more row of the agent extends its record. */
  lemma AgentStepAppend(mine: seq<Turn>, t: Turn)
    ensures AgentStep(StatsOf(mine), t) == StatsOf(mine + [t]).value
  {
    TotalLatenciesAppend(mine, t);
    CountAppend(mine, t, IsError);
    if |mine| == 0 {
      assert mine == [];
    }
  }

  lemma {:induction false} FoldAgentStats(rows: seq<Turn>, a: string)
    ensures FoldFor(rows, AgentKey, AgentStep, a) == StatsOf(AgentRows(rows, a))
    decreases |rows|
  {
    if rows != [] {
      var front := rows[..|rows| - 1];
      var t := rows[|rows| - 1];
      FoldAgentStats(front, a);
      assert rows == front + [t];
      FilterAppend(front, t, HasKey(AgentKey, a));
      var mine := AgentRows(front, a);
      if AgentKey(t) == a {
        AgentStepAppend(mine, t);
        assert AgentRows(rows, a) == mine + [t];
      } else {
        assert AgentRows(rows, a) == mine + [];
        assert mine + [] == mine;
      }
    }
  }

  /** One row per agent that has turns (an empty identifier counting as
      "unknown"), and no other. */
  lemma AgentComparisonKeys(rows: seq<Turn>)
    ensures Distinct(MapSeq(AgentComparison(rows), AgentName))
    ensures forall a :: a in MapSeq(AgentComparison(rows), AgentName)
                    <==> exists j :: 0 <= j < |rows| && AgentKey(rows[j]) == a
  {
    GroupedKeys(rows, AgentKey, AgentStep, MkAgentRow, ByTurns, AgentName);
  }

  /** Each row's figures: `turns` counts the agent's non-null latencies,
      the average and the p90 are over those latencies, and the error rate
      divides the errors among ALL the agent's rows by that count. */
  lemma AgentComparisonEntry(rows: seq<Turn>, i: nat)
    requires i < |AgentComparison(rows)|
    ensures var r := AgentComparison(rows)[i];
      var mine := AgentRows(rows, r.agent);
      && |mine| > 0
      && r.turns == Count(mine, HasTotal)
      && r.avgLatency == Mean(TotalLatencies(mine))
      && r.p90Latency == Percentile(TotalLatencies(mine), 90)
      && r.errorRate == (if r.turns > 0 then Percent(Count(mine, IsError) as real, r.turns as real) else 0.0)
  {
    var r := AgentComparison(rows)[i];
    GroupedEntry(rows, AgentKey, AgentStep, MkAgentRow, ByTurns, AgentName, i);
    FoldAgentStats(rows, r.agent);
  }

  /** Rows are ordered by `turns`, most first; agents with equal counts keep
      the order in which they first appeared. */
  lemma AgentComparisonOrder(rows: seq<Turn>, v: real)
    ensures SortedDesc(AgentComparison(rows), ByTurns)
    ensures WithKey(AgentComparison(rows), ByTurns, v)
         == WithKey(MapSeq(Tally(rows, AgentKey, AgentStep), MkAgentRow), ByTurns, v)
    ensures Keys(Tally(rows, AgentKey, AgentStep)) == Dedup(MapSeq(rows, AgentKey))
  {
    GroupedStable(rows, AgentKey, AgentStep, MkAgentRow, ByTurns, v);
  }

  /** Errors are counted on every row but divided by the rows that have a
      latency, so the error rate can exceed 100. */
  lemma AgentErrorRateUncapped()
    ensures var rows := [
        Turn("a", None, None, None, None, None, None, None, Some(5), Error, "", 0, 0, 0),
        Turn("a", None, None, None, None, None, None, None, None, Error, "", 0, 0, 0)];
      AgentComparison(rows) == [AgentRow("a", 5.0, 5, 1, 200.0)]
  {
    var t1 := Turn("a", None, None, None, None, None, None, None, Some(5), Error, "", 0, 0, 0);
    var t2 := Turn("a", None, None, None, None, None, None, None, None, Error, "", 0, 0, 0);
    UncappedEntries(t1, t2);
    SortDescSingle(AgentRow("a", 5.0, 5, 1, 200.0), ByTurns);
  }

  lemma UncappedEntries(t1: Turn, t2: Turn)
    requires t1 == Turn("a", None, None, None, None, None, None, None, Some(5), Error, "", 0, 0, 0)
    requires t2 == Turn("a", None, None, None, None, None, None, None, None, Error, "", 0, 0, 0)
    ensures MapSeq(Tally([t1, t2], AgentKey, AgentStep), MkAgentRow) == [AgentRow("a", 5.0, 5, 1, 200.0)]
  {
    UncappedTally(t1, t2);
    UncappedRow();
    var entries := MapSeq(Tally([t1, t2], AgentKey, AgentStep), MkAgentRow);
    assert |entries| == 1;
    assert entries[0] == MkAgentRow(("a", AgentStats([5], 2)));
  }

  lemma UncappedRow()
    ensures MkAgentRow(("a", AgentStats([5], 2))) == AgentRow("a", 5.0, 5, 1, 200.0)
  {
    assert Percentile([5], 90) == 5 by {
      assert SortAsc([5]) == [5];
    }
    assert SumOf([5], AsReal) == 5.0;
  }

  lemma UncappedTally(t1: Turn, t2: Turn)
    requires t1 == Turn("a", None, None, None, None, None, None, None, Some(5), Error, "", 0, 0, 0)
    requires t2 == Turn("a", None, None, None, None, None, None, None, None, Error, "", 0, 0, 0)
    ensures Tally([t1, t2], AgentKey, AgentStep) == [("a", AgentStats([5], 2))]
  {
    assert [t1, t2][..1] == [t1];
    assert [t1][..0] == [];
    assert AgentKey(t1) == "a" && AgentKey(t2) == "a";
    var v1 := AgentStep(None, t1);
    assert v1 == AgentStats([5], 1);
    var m1 := Tally([t1], AgentKey, AgentStep);
    assert Tally([], AgentKey, AgentStep) == [];
    var empty: OMap<string, AgentStats> := [];
    assert Get(empty, "a") == None;
    assert m1 == Set([], "a", v1);
    assert m1 == [("a", v1)];
    assert Get(m1, "a") == Some(v1);
    assert AgentStep(Some(v1), t2) == AgentStats([5], 2);
  }

  // ---------------------------------------------------------------------
  // Latency over time

  datatype DayLatency = DayLatency(date: int, avgLatency: real, p90Latency: int)

  /** `existing.push(latency)` on the day's list */
  function PushStep(o: Option<seq<int>>, t: Turn): seq<int> {
    o.GetOr([]) + [TotalMs(t)]
  }

  function MkDayLatency(e: (int, seq<int>)): DayLatency {
    DayLatency(e.0, Mean(e.1), Percentile(e.1, 90))
  }

  function DateOf(d: DayLatency): int {
    d.date
  }

  /** Sort key for `a.date.localeCompare(b.date)`: ascending. */
  function DateAscending(d: DayLatency): real {
    -(d.date as real)
  }

  /** Only rows with a latency reach the map. */
  function LatencyOverTime(rows: seq<Turn>): seq<DayLatency> {
    Grouped(Filter(rows, HasTotal), UtcDay, PushStep, MkDayLatency, DateAscending)
  }

  lemma {:induction false} FoldPush(rows: seq<Turn>, d: int)
    ensures FoldFor(rows, UtcDay, PushStep, d)
         == if |Filter(rows, HasKey(UtcDay, d))| > 0
            then Some(MapSeq(Filter(rows, HasKey(UtcDay, d)), TotalMs))
            else None
    decreases |rows|
  {
    if rows != [] {
      var front := rows[..|rows| - 1];
      var t := rows[|rows| - 1];
      FoldPush(front, d);
      assert rows == front + [t];
      FilterAppend(front, t, HasKey(UtcDay, d));
      var mine := Filter(front, HasKey(UtcDay, d));
      if UtcDay(t) == d {
        assert Filter(rows, HasKey(UtcDay, d)) == mine + [t];
        assert MapSeq(mine + [t], TotalMs) == MapSeq(mine, TotalMs) + [TotalMs(t)];
        var prev := FoldFor(front, UtcDay, PushStep, d);
        assert FoldFor(rows, UtcDay, PushStep, d) == Some(PushStep(prev, t));
        if |mine| == 0 {
          assert mine == [];
          assert MapSeq(mine, TotalMs) == [];
        }
        assert prev.GetOr([]) == MapSeq(mine, TotalMs);
      } else {
        assert Filter(rows, HasKey(UtcDay, d)) == mine;
      }
    }
  }

  /** One entry per date on which some turn has a latency, and no other. */
  lemma LatencyOverTimeKeys(rows: seq<Turn>)
    ensures Distinct(MapSeq(LatencyOverTime(rows), DateOf))
    ensures forall d :: d in MapSeq(LatencyOverTime(rows), DateOf)
                    <==> exists j :: 0 <= j < |rows| && HasTotal(rows[j]) && UtcDay(rows[j]) == d
  {
    var lat := Filter(rows, HasTotal);
    GroupedKeys(lat, UtcDay, PushStep, MkDayLatency, DateAscending, DateOf);
    forall d ensures d in MapSeq(LatencyOverTime(rows), DateOf)
                 <==> exists j :: 0 <= j < |rows| && HasTotal(rows[j]) && UtcDay(rows[j]) == d
    {
      LatencyDays(rows, d);
    }
  }

  /** The days of the rows that have a latency. */
  lemma LatencyDays(rows: seq<Turn>, d: int)
    ensures (exists k :: 0 <= k < |Filter(rows, HasTotal)| && UtcDay(Filter(rows, HasTotal)[k]) == d)
        <==> exists j :: 0 <= j < |rows| && HasTotal(rows[j]) && UtcDay(rows[j]) == d
  {
    var lat := Filter(rows, HasTotal);
    if j :| 0 <= j < |rows| && HasTotal(rows[j]) && UtcDay(rows[j]) == d {
      FilterKeeps(rows, HasTotal, j);
    }
    if k :| 0 <= k < |lat| && UtcDay(lat[k]) == d {
      var j :| 0 <= j < |rows| && rows[j] == lat[k];
    }
  }

  /** Each day's figures are the mean and the p90 of that day's non-null
      latencies, of which there is at least one. */
  lemma LatencyOverTimeEntry(rows: seq<Turn>, i: nat)
    requires i < |LatencyOverTime(rows)|
    ensures var e := LatencyOverTime(rows)[i];
      var values := MapSeq(Filter(Filter(rows, HasTotal), HasKey(UtcDay, e.date)), TotalMs);
      && |values| > 0
      && e.avgLatency == Mean(values)
      && e.p90Latency == Percentile(values, 90)
  {
    var e := LatencyOverTime(rows)[i];
    GroupedEntry(Filter(rows, HasTotal), UtcDay, PushStep, MkDayLatency, DateAscending, DateOf, i);
    FoldPush(Filter(rows, HasTotal), e.date);
  }

  /** Entries come in strictly ascending date order. */
  lemma LatencyOverTimeOrder(rows: seq<Turn>)
    ensures var out := LatencyOverTime(rows);
      forall i, j :: 0 <= i < j < |out| ==> out[i].date < out[j].date
  {
    var out := LatencyOverTime(rows);
    LatencyOverTimeKeys(rows);
    forall i, j | 0 <= i < j < |out| ensures out[i].date < out[j].date {
      assert MapSeq(out, DateOf)[i] != MapSeq(out, DateOf)[j];
      assert DateAscending(out[i]) >= DateAscending(out[j]);
    }
  }

  // ---------------------------------------------------------------------
  // The query function

  datatype Performance = Performance(
    latencyPercentiles: Percentiles,
    hourlyThroughput: seq<HourlyCount>,
    latencyBreakdown: Breakdown,
    agentComparison: seq<AgentRow>,
    latencyOverTime: seq<DayLatency>
  )

  function PerformanceOf(p: Period, rows: seq<Turn>): Performance {
    Performance(LatencyPercentiles(rows), HourlyThroughput(p, rows), LatencyBreakdown(rows),
                AgentComparison(rows), LatencyOverTime(rows))
  }

  /** The three `forEach` loops, each followed by its map and sort. */
  method ComputePerformance(p: Period, rows: seq<Turn>) returns (r: Performance)
    ensures r == PerformanceOf(p, rows)
  {
    var hourly := RunGrouped(rows, ThroughputKey(p), CountStep, MkHourly, HourAscending);
    var agents := RunGrouped(rows, AgentKey, AgentStep, MkAgentRow, ByTurns);
    var daily := RunGrouped(Filter(rows, HasTotal), UtcDay, PushStep, MkDayLatency, DateAscending);
    r := Performance(LatencyPercentiles(rows), hourly, LatencyBreakdown(rows), agents, daily);
  }
}
