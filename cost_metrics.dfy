/** The cost analytics of `useCostMetrics`: the current and the previous
    window, the two totals and their relative change, and the cost per day,
    per agent and per model. */
module CostMetrics {
  import opened Common
  import opened Turns
  import opened OrderedMap
  import opened StableSort
  import opened Grouping

  const DAY_MS: int := 24 * 60 * 60 * 1000

  /** `previousStartDate` and `startDate`, in milliseconds. */
  datatype Windows = Windows(previousStart: int, start: int)

  function CostWindows(p: Period, now: int): (w: Windows)
    ensures now - w.start == PeriodDays(p) * DAY_MS
    ensures w.start - w.previousStart == now - w.start
  {
    var span := PeriodDays(p) * DAY_MS;
    var start := now - span;
    Windows(start - span, start)
  }

  /** `.gte("created_at", startDate)` */
  predicate InCurrent(w: Windows, t: int) {
    t >= w.start
  }

  /** `.gte("created_at", previousStartDate).lt("created_at", startDate)` */
  predicate InPrevious(w: Windows, t: int) {
    w.previousStart <= t < w.start
  }

  /** The previous window ends where the current one starts: no instant is
      in both, and together they cover everything from the previous start. */
  lemma WindowsAdjacent(p: Period, now: int, t: int)
    ensures var w := CostWindows(p, now);
      && !(InCurrent(w, t) && InPrevious(w, t))
      && (InCurrent(w, t) || InPrevious(w, t) <==> t >= w.previousStart)
  {
  }

  /** `reduce((sum, turn) => sum + (turn.cost_usd || 0), 0)` */
  function TotalCost(rows: seq<Turn>): real {
    SumOf(rows, CostOf)
  }

  /** The change from the previous total in percent, 0 when there is no
      positive previous total. */
  function CostChange(total: real, previous: real): (c: real)
    ensures previous > 0.0 ==> total == previous * (1.0 + c / 100.0)
    ensures previous > 0.0 ==> (c > 0.0 <==> total > previous) && (c == 0.0 <==> total == previous)
    ensures previous <= 0.0 ==> c == 0.0
  {
    if previous > 0.0 then
      var c := (total - previous) / previous * 100.0;
      assert c / 100.0 == (total - previous) / previous;
      c
    else 0.0
  }

  // ---------------------------------------------------------------------
  // Per day and per model: a cost and a turn count

  datatype CostTurns = CostTurns(cost: real, turns: nat)

  /** `existing ?? { cost: 0, turns: 0 }` plus this turn */
  function CostTurnsStep(o: Option<CostTurns>, t: Turn): CostTurns {
    var e := o.GetOr(CostTurns(0.0, 0));
    CostTurns(e.cost + CostOf(t), e.turns + 1)
  }

  /** The record a key's rows add up to. */
  function CostTurnsOf(mine: seq<Turn>): Option<CostTurns> {
    if mine == [] then None else Some(CostTurns(SumOf(mine, CostOf), |mine|))
  }

  lemma CostTurnsStepAppend(mine: seq<Turn>, t: Turn)
    ensures CostTurnsStep(CostTurnsOf(mine), t) == CostTurnsOf(mine + [t]).value
  {
    SumOfAppend(mine, t, CostOf);
  }

  lemma {:induction false} FoldCostTurnsOf<K(!new)>(rows: seq<Turn>, key: Turn -> K, k: K)
    ensures FoldFor(rows, key, CostTurnsStep, k) == CostTurnsOf(Filter(rows, HasKey(key, k)))
    decreases |rows|
  {
    if rows != [] {
      var front := rows[..|rows| - 1];
      var t := rows[|rows| - 1];
      var p := HasKey(key, k);
      FoldCostTurnsOf(front, key, k);
      FilterLast(rows, p);
      var mine := Filter(front, p);
      if key(t) == k {
        CostTurnsStepAppend(mine, t);
      } else {
        assert mine + [] == mine;
      }
    }
  }

  /** A key's record holds the cost and the number of its rows. */
  lemma FoldCostTurns<K(!new)>(rows: seq<Turn>, key: Turn -> K, k: K)
    ensures FoldFor(rows, key, CostTurnsStep, k)
         == if Count(rows, HasKey(key, k)) > 0
            then Some(CostTurns(SumOf(Filter(rows, HasKey(key, k)), CostOf), Count(rows, HasKey(key, k))))
            else None
  {
    FoldCostTurnsOf(rows, key, k);
  }

  datatype DailyCost = DailyCost(date: int, cost: real, turns: nat)

  function MkDaily(e: (int, CostTurns)): DailyCost {
    DailyCost(e.0, e.1.cost, e.1.turns)
  }

  function DailyDate(d: DailyCost): int { d.date }
  function DailyCostOf(d: DailyCost): real { d.cost }
  function DailyTurnsOf(d: DailyCost): real { d.turns as real }

  /** Sort key for `a.date.localeCompare(b.date)`: ascending. */
  function DailyAscending(d: DailyCost): real {
    -(d.date as real)
  }

  function DailyCosts(rows: seq<Turn>): seq<DailyCost> {
    Grouped(rows, UtcDay, CostTurnsStep, MkDaily, DailyAscending)
  }

  /** One entry per UTC date that has turns, and no other. */
  lemma DailyCostsKeys(rows: seq<Turn>)
    ensures Distinct(MapSeq(DailyCosts(rows), DailyDate))
    ensures forall d :: d in MapSeq(DailyCosts(rows), DailyDate)
                    <==> exists j :: 0 <= j < |rows| && UtcDay(rows[j]) == d
  {
    GroupedKeys(rows, UtcDay, CostTurnsStep, MkDaily, DailyAscending, DailyDate);
  }

  /** Dates come in strictly ascending order. */
  lemma DailyCostsOrder(rows: seq<Turn>)
    ensures var out := DailyCosts(rows);
      forall i, j :: 0 <= i < j < |out| ==> out[i].date < out[j].date
  {
    var out := DailyCosts(rows);
    DailyCostsKeys(rows);
    forall i, j | 0 <= i < j < |out| ensures out[i].date < out[j].date {
      assert MapSeq(out, DailyDate)[i] != MapSeq(out, DailyDate)[j];
      assert DailyAscending(out[i]) >= DailyAscending(out[j]);
    }
  }

  /** Each day holds its own rows' cost and count. */
  lemma DailyCostsEntry(rows: seq<Turn>, i: nat)
    requires i < |DailyCosts(rows)|
    ensures var e := DailyCosts(rows)[i];
      && e.turns == Count(rows, HasKey(UtcDay, e.date)) > 0
      && e.cost == SumOf(Filter(rows, HasKey(UtcDay, e.date)), CostOf)
  {
    var e := DailyCosts(rows)[i];
    GroupedEntry(rows, UtcDay, CostTurnsStep, MkDaily, DailyAscending, DailyDate, i);
    FoldCostTurns(rows, UtcDay, e.date);
  }

  lemma DailyStepAdds()
    ensures forall k, o, r ::
      DailyCostOf(MkDaily((k, CostTurnsStep(o, r))))
      == (if o.Some? then DailyCostOf(MkDaily((k, o.value))) else 0.0) + CostOf(r)
    ensures forall k, o, r ::
      DailyTurnsOf(MkDaily((k, CostTurnsStep(o, r))))
      == (if o.Some? then DailyTurnsOf(MkDaily((k, o.value))) else 0.0) + One(r)
  {
  }

  /** Daily costs add up to the total cost and daily counts to the number
      of turns. */
  lemma DailyCostsSums(rows: seq<Turn>)
    ensures SumOf(DailyCosts(rows), DailyCostOf) == TotalCost(rows)
    ensures SumOf(DailyCosts(rows), DailyTurnsOf) == |rows| as real
  {
    DailyStepAdds();
    GroupedSum(rows, UtcDay, CostTurnsStep, MkDaily, DailyAscending, DailyCostOf, CostOf);
    GroupedSum(rows, UtcDay, CostTurnsStep, MkDaily, DailyAscending, DailyTurnsOf, One);
    SumOfOne(rows);
  }

  datatype ModelCost = ModelCost(model: string, cost: real, turns: nat, avgCostPerTurn: real)

  /** `turn.model || "unknown"` */
  function ModelKey(t: Turn): string {
    OrElse(t.model, "unknown")
  }

  /** `avgCostPerTurn: data.turns > 0 ? data.cost / data.turns : 0` */
  function MkModel(e: (string, CostTurns)): (m: ModelCost)
    ensures m.model == e.0 && m.cost == e.1.cost && m.turns == e.1.turns
    ensures m.turns > 0 ==> AverageExact(m)
    ensures m.turns == 0 ==> m.avgCostPerTurn == 0.0
  {
    if e.1.turns > 0 then
      AverageTimesTurns(e.1.cost, e.1.turns);
      ModelCost(e.0, e.1.cost, e.1.turns, e.1.cost / e.1.turns as real)
    else ModelCost(e.0, e.1.cost, e.1.turns, 0.0)
  }

  /** Average times turns gives back the cost. */
  predicate AverageExact(m: ModelCost) {
    m.avgCostPerTurn * m.turns as real == m.cost
  }

  function ModelName(m: ModelCost): string { m.model }
  function ModelCostOf(m: ModelCost): real { m.cost }
  function ModelTurnsOf(m: ModelCost): real { m.turns as real }

  function CostByModel(rows: seq<Turn>): seq<ModelCost> {
    Grouped(rows, ModelKey, CostTurnsStep, MkModel, ModelCostOf)
  }

  /** One entry per model that has turns (null and "" grouped as
      "unknown"), and no other. */
  lemma CostByModelKeys(rows: seq<Turn>)
    ensures Distinct(MapSeq(CostByModel(rows), ModelName))
    ensures forall m :: m in MapSeq(CostByModel(rows), ModelName)
                    <==> exists j :: 0 <= j < |rows| && ModelKey(rows[j]) == m
  {
    GroupedKeys(rows, ModelKey, CostTurnsStep, MkModel, ModelCostOf, ModelName);
  }

  /** Each model holds its own rows' cost and count; every model has at
      least one turn. */
  lemma CostByModelEntry(rows: seq<Turn>, i: nat)
    requires i < |CostByModel(rows)|
    ensures var e := CostByModel(rows)[i];
      && e.turns == Count(rows, HasKey(ModelKey, e.model)) >= 1
      && e.cost == SumOf(Filter(rows, HasKey(ModelKey, e.model)), CostOf)
  {
    var e := CostByModel(rows)[i];
    GroupedEntry(rows, ModelKey, CostTurnsStep, MkModel, ModelCostOf, ModelName, i);
    FoldCostTurns(rows, ModelKey, e.model);
  }

  /** So the average is always a true division: average times turns gives
      back the cost. */
  lemma CostByModelAverage(rows: seq<Turn>, i: nat)
    requires i < |CostByModel(rows)|
    ensures AverageExact(CostByModel(rows)[i])
  {
    var e := CostByModel(rows)[i];
    CostByModelEntry(rows, i);
    var entries := MapSeq(Tally(rows, ModelKey, CostTurnsStep), MkModel);
    InSortDesc(entries, ModelCostOf, e);
    var j :| 0 <= j < |entries| && entries[j] == e;
    assert e.turns > 0;
  }

  lemma AverageTimesTurns(cost: real, turns: nat)
    requires turns > 0
    ensures (cost / turns as real) * turns as real == cost
  {
  }

  lemma ModelStepAdds()
    ensures forall k, o, r ::
      ModelCostOf(MkModel((k, CostTurnsStep(o, r))))
      == (if o.Some? then ModelCostOf(MkModel((k, o.value))) else 0.0) + CostOf(r)
    ensures forall k, o, r ::
      ModelTurnsOf(MkModel((k, CostTurnsStep(o, r))))
      == (if o.Some? then ModelTurnsOf(MkModel((k, o.value))) else 0.0) + One(r)
  {
  }

  /** Models are ordered by cost, highest first; model costs add up to the
      total and model counts to the number of turns. */
  lemma CostByModelSums(rows: seq<Turn>)
    ensures SortedDesc(CostByModel(rows), ModelCostOf)
    ensures SumOf(CostByModel(rows), ModelCostOf) == TotalCost(rows)
    ensures SumOf(CostByModel(rows), ModelTurnsOf) == |rows| as real
  {
    ModelStepAdds();
    GroupedSum(rows, ModelKey, CostTurnsStep, MkModel, ModelCostOf, ModelCostOf, CostOf);
    GroupedSum(rows, ModelKey, CostTurnsStep, MkModel, ModelCostOf, ModelTurnsOf, One);
    SumOfOne(rows);
  }

  // ---------------------------------------------------------------------
  // Per agent: a cost and a share of the total

  /** `(agentCostsMap.get(agent) || 0) + (turn.cost_usd || 0)` */
  function AgentCostStep(o: Option<real>, t: Turn): real {
    o.GetOr(0.0) + CostOf(t)
  }

  datatype AgentCost = AgentCost(agent: string, cost: real, percentage: real)

  function MkAgentCost(total: real): ((string, real)) -> AgentCost {
    (e: (string, real)) => AgentCost(e.0, e.1, if total > 0.0 then Percent(e.1, total) else 0.0)
  }

  function AgentCostName(a: AgentCost): string { a.agent }
  function AgentCostOf(a: AgentCost): real { a.cost }
  function AgentShare(a: AgentCost): real { a.percentage }

  function CostByAgent(rows: seq<Turn>): seq<AgentCost> {
    Grouped(rows, AgentKey, AgentCostStep, MkAgentCost(TotalCost(rows)), AgentCostOf)
  }

  /** The total an agent's rows add up to. */
  function CostSumOf(mine: seq<Turn>): Option<real> {
    if mine == [] then None else Some(SumOf(mine, CostOf))
  }

  lemma CostSumStepAppend(mine: seq<Turn>, t: Turn)
    ensures AgentCostStep(CostSumOf(mine), t) == CostSumOf(mine + [t]).value
  {
    SumOfAppend(mine, t, CostOf);
  }

  lemma {:induction false} FoldAgentCostOf(rows: seq<Turn>, a: string)
    ensures FoldFor(rows, AgentKey, AgentCostStep, a) == CostSumOf(Filter(rows, HasKey(AgentKey, a)))
    decreases |rows|
  {
    if rows != [] {
      var front := rows[..|rows| - 1];
      var t := rows[|rows| - 1];
      var p := HasKey(AgentKey, a);
      FoldAgentCostOf(front, a);
      FilterLast(rows, p);
      var mine := Filter(front, p);
      if AgentKey(t) == a {
        CostSumStepAppend(mine, t);
      } else {
        assert mine + [] == mine;
      }
    }
  }

  lemma FoldAgentCost(rows: seq<Turn>, a: string)
    ensures FoldFor(rows, AgentKey, AgentCostStep, a)
         == if Count(rows, HasKey(AgentKey, a)) > 0
            then Some(SumOf(Filter(rows, HasKey(AgentKey, a)), CostOf))
            else None
  {
    FoldAgentCostOf(rows, a);
  }

  /** One entry per agent that has turns, and no other; each holds the
      agent's own cost and that cost's share of the total. */
  lemma CostByAgentEntry(rows: seq<Turn>, i: nat)
    requires i < |CostByAgent(rows)|
    ensures var e := CostByAgent(rows)[i];
      && e.cost == SumOf(Filter(rows, HasKey(AgentKey, e.agent)), CostOf)
      && e.percentage == (if TotalCost(rows) > 0.0 then Percent(e.cost, TotalCost(rows)) else 0.0)
  {
    var e := CostByAgent(rows)[i];
    GroupedEntry(rows, AgentKey, AgentCostStep, MkAgentCost(TotalCost(rows)), AgentCostOf, AgentCostName, i);
    FoldAgentCost(rows, e.agent);
  }

  lemma CostByAgentKeys(rows: seq<Turn>)
    ensures Distinct(MapSeq(CostByAgent(rows), AgentCostName))
    ensures forall a :: a in MapSeq(CostByAgent(rows), AgentCostName)
                    <==> exists j :: 0 <= j < |rows| && AgentKey(rows[j]) == a
  {
    GroupedKeys(rows, AgentKey, AgentCostStep, MkAgentCost(TotalCost(rows)), AgentCostOf, AgentCostName);
  }

  /** Agents are ordered by cost, highest first, and their costs add up to
      the total. */
  lemma CostByAgentSum(rows: seq<Turn>)
    ensures SortedDesc(CostByAgent(rows), AgentCostOf)
    ensures SumOf(CostByAgent(rows), AgentCostOf) == TotalCost(rows)
  {
    var mk := MkAgentCost(TotalCost(rows));
    assert forall k, o, r ::
      AgentCostOf(mk((k, AgentCostStep(o, r))))
      == (if o.Some? then AgentCostOf(mk((k, o.value))) else 0.0) + CostOf(r);
    GroupedSum(rows, AgentKey, AgentCostStep, mk, AgentCostOf, AgentCostOf, CostOf);
  }

  /** With a positive total the shares add up to 100 percent (in exact
      arithmetic); with no positive total every share is 0. */
  lemma CostByAgentShares(rows: seq<Turn>)
    ensures TotalCost(rows) > 0.0 ==> SumOf(CostByAgent(rows), AgentShare) == 100.0
    ensures TotalCost(rows) <= 0.0 ==> forall i :: 0 <= i < |CostByAgent(rows)| ==> CostByAgent(rows)[i].percentage == 0.0
  {
    var out := CostByAgent(rows);
    var total := TotalCost(rows);
    if total > 0.0 {
      forall i | 0 <= i < |out| ensures AgentShare(out[i]) == Percent(AgentCostOf(out[i]), total) {
        CostByAgentEntry(rows, i);
      }
      SumOfPercent(out, AgentCostOf, AgentShare, total);
      CostByAgentSum(rows);
      PercentWhole(total);
    } else {
      forall i | 0 <= i < |out| ensures out[i].percentage == 0.0 {
        CostByAgentEntry(rows, i);
      }
    }
  }

  // ---------------------------------------------------------------------
  // The query function

  datatype CostMetrics = CostMetrics(
    totalCost: real,
    dailyCosts: seq<DailyCost>,
    costByAgent: seq<AgentCost>,
    costByModel: seq<ModelCost>,
    previousPeriodCost: real,
    costChange: real
  )

  function CostMetricsOf(current: seq<Turn>, previous: seq<Turn>): CostMetrics {
    var total := TotalCost(current);
    var before := TotalCost(previous);
    CostMetrics(total, DailyCosts(current), CostByAgent(current), CostByModel(current),
                before, CostChange(total, before))
  }

  /** The totals and the three `forEach` loops with their map and sort. */
  method ComputeCostMetrics(current: seq<Turn>, previous: seq<Turn>) returns (r: CostMetrics)
    ensures r == CostMetricsOf(current, previous)
  {
    var total := TotalCost(current);
    var before := TotalCost(previous);
    var daily := RunGrouped(current, UtcDay, CostTurnsStep, MkDaily, DailyAscending);
    var agents := RunGrouped(current, AgentKey, AgentCostStep, MkAgentCost(total), AgentCostOf);
    var models := RunGrouped(current, ModelKey, CostTurnsStep, MkModel, ModelCostOf);
    r := CostMetrics(total, daily, agents, models, before, CostChange(total, before));
  }
}
