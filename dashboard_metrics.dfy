/** The dashboard totals of `useMetrics`: one pass over the turns of the
    period that adds up latencies and costs, counts failures and collects
    session identifiers, followed by the rate formulas. */
module DashboardMetrics {
  import opened Common
  import opened Turns

  datatype Metrics = Metrics(
    totalTurns: nat,
    activeSessions: nat,
    averageLatency: int,
    totalCost: real,
    errorRate: real,
    successRate: real,
    turnsWithErrors: nat,
    turnsBlocked: nat
  )

  /** `if (turn.latency_total_ms)`: a null and a zero latency are both skipped. */
  predicate HasLatency(t: Turn) {
    t.latencyTotalMs.Some? && t.latencyTotalMs.value != 0
  }

  function LatencyOf(t: Turn): real {
    if HasLatency(t) then t.latencyTotalMs.value as real else 0.0
  }

  /** `if (turn.cost_usd)` */
  predicate HasCost(t: Turn) {
    t.costUsd.Some? && t.costUsd.value != 0.0
  }

  /** `if (turn.session_id)`: null and "" are both skipped. */
  predicate HasSession(t: Turn) {
    t.sessionId.Some? && t.sessionId.value != ""
  }

  /** The contents of the `sessionIds` set after visiting `rows`. */
  function SessionIds(rows: seq<Turn>): (ids: set<string>)
    ensures |ids| <= |rows|
    ensures "" !in ids
    decreases |rows|
  {
    if rows == [] then {}
    else
      var front := SessionIds(rows[..|rows| - 1]);
      var t := rows[|rows| - 1];
      if HasSession(t) then front + {t.sessionId.value} else front
  }

  /** A session is active exactly when some row carries its identifier. */
  lemma {:induction false} InSessionIds(rows: seq<Turn>, s: string)
    ensures s in SessionIds(rows)
        <==> exists i :: 0 <= i < |rows| && HasSession(rows[i]) && rows[i].sessionId.value == s
    decreases |rows|
  {
    if rows != [] {
      var front := rows[..|rows| - 1];
      InSessionIds(front, s);
      if exists i :: 0 <= i < |front| && HasSession(front[i]) && front[i].sessionId.value == s {
        var i :| 0 <= i < |front| && HasSession(front[i]) && front[i].sessionId.value == s;
        assert rows[i] == front[i];
      }
      if exists i :: 0 <= i < |rows| && HasSession(rows[i]) && rows[i].sessionId.value == s {
        var i :| 0 <= i < |rows| && HasSession(rows[i]) && rows[i].sessionId.value == s;
        if i < |front| {
          assert front[i] == rows[i];
        }
      }
    }
  }

  /** `Math.round`: the integer nearest to `x`, halves rounded up. */
  function Round(x: real): (r: int)
    ensures r as real <= x + 0.5 < r as real + 1.0
  {
    (x + 0.5).Floor
  }

  /** The rate formulas and the returned record, from the loop's totals. */
  function Summarize(totalTurns: nat, totalLatency: real, latencyCount: nat, totalCost: real,
                     errorCount: nat, blockedCount: nat, sessions: set<string>): Metrics
  {
    var averageLatency := if latencyCount > 0 then totalLatency / latencyCount as real else 0.0;
    Metrics(
      totalTurns,
      |sessions|,
      Round(averageLatency),
      totalCost,
      if totalTurns > 0 then Percent(errorCount as real, totalTurns as real) else 0.0,
      if totalTurns > 0 then Percent((totalTurns - errorCount - blockedCount) as real, totalTurns as real) else 0.0,
      errorCount,
      blockedCount)
  }

  /** What the hook returns for the rows it received and the exact `count`
      the query reported (`count ?? 0`). */
  function Dashboard(count: Option<nat>, rows: seq<Turn>): (m: Metrics)
    ensures m.totalTurns == count.GetOr(0)
    ensures m.turnsWithErrors + m.turnsBlocked <= |rows|
    ensures m.activeSessions <= |rows|
    ensures m.totalTurns == 0 ==> m.errorRate == 0.0 && m.successRate == 0.0
    ensures Count(rows, HasLatency) == 0 ==> m.averageLatency == 0
  {
    CountDisjoint(rows, IsError, IsBlocked);
    Summarize(count.GetOr(0), SumOf(rows, LatencyOf), Count(rows, HasLatency), SumOf(rows, CostOf),
              Count(rows, IsError), Count(rows, IsBlocked), SessionIds(rows))
  }

  /** What one more row adds to each running total. */
  lemma TotalsExtend(rows: seq<Turn>, i: nat)
    requires i < |rows|
    ensures var t := rows[i];
      && SumOf(rows[..i + 1], LatencyOf) == SumOf(rows[..i], LatencyOf) + LatencyOf(t)
      && SumOf(rows[..i + 1], CostOf) == SumOf(rows[..i], CostOf) + CostOf(t)
      && Count(rows[..i + 1], HasLatency) == Count(rows[..i], HasLatency) + (if HasLatency(t) then 1 else 0)
      && Count(rows[..i + 1], IsError) == Count(rows[..i], IsError) + (if IsError(t) then 1 else 0)
      && Count(rows[..i + 1], IsBlocked) == Count(rows[..i], IsBlocked) + (if IsBlocked(t) then 1 else 0)
      && SessionIds(rows[..i + 1])
         == if HasSession(t) then SessionIds(rows[..i]) + {t.sessionId.value} else SessionIds(rows[..i])
  {
    var post := rows[..i + 1];
    assert post[..i] == rows[..i];
    SumOfLast(post, LatencyOf);
    SumOfLast(post, CostOf);
    CountLast(post, HasLatency);
    CountLast(post, IsError);
    CountLast(post, IsBlocked);
  }

  /** The `for` loop of the query function and the formulas after it. */
  method ComputeDashboard(count: Option<nat>, rows: seq<Turn>) returns (m: Metrics)
    ensures m == Dashboard(count, rows)
  {
    var totalLatency := 0.0;
    var latencyCount := 0;
    var totalCost := 0.0;
    var errorCount := 0;
    var blockedCount := 0;
    var sessionIds: set<string> := {};
    for i := 0 to |rows|
      invariant totalLatency == SumOf(rows[..i], LatencyOf)
      invariant latencyCount == Count(rows[..i], HasLatency)
      invariant totalCost == SumOf(rows[..i], CostOf)
      invariant errorCount == Count(rows[..i], IsError)
      invariant blockedCount == Count(rows[..i], IsBlocked)
      invariant sessionIds == SessionIds(rows[..i])
    {
      var turn := rows[i];
      TotalsExtend(rows, i);
      if turn.latencyTotalMs.Some? && turn.latencyTotalMs.value != 0 {
        totalLatency := totalLatency + turn.latencyTotalMs.value as real;
        latencyCount := latencyCount + 1;
      }
      if turn.costUsd.Some? && turn.costUsd.value != 0.0 {
        totalCost := totalCost + turn.costUsd.value;
      }
      if turn.status == Error {
        errorCount := errorCount + 1;
      }
      if turn.status == InputBlocked || turn.status == OutputBlocked {
        blockedCount := blockedCount + 1;
      }
      if turn.sessionId.Some? && turn.sessionId.value != "" {
        sessionIds := sessionIds + {turn.sessionId.value};
      }
    }
    assert rows[..|rows|] == rows;
    m := Summarize(count.GetOr(0), totalLatency, latencyCount, totalCost, errorCount, blockedCount, sessionIds);
  }

  /** Error, success and blocked shares make up the whole count. */
  lemma RatesPartition(count: Option<nat>, rows: seq<Turn>)
    requires count.GetOr(0) > 0
    ensures var m := Dashboard(count, rows);
      m.errorRate + m.successRate + Percent(m.turnsBlocked as real, m.totalTurns as real) == 100.0
  {
    var m := Dashboard(count, rows);
    var t := m.totalTurns as real;
    var e := m.turnsWithErrors as real;
    var b := m.turnsBlocked as real;
    PercentAdd(e, t - e - b, t);
    PercentAdd(e + (t - e - b), b, t);
    PercentWhole(t);
  }

  /** When the reported count covers every row received (in particular when
      it equals the number of rows), both rates are percentages and they
      leave room for the blocked share. */
  lemma RatesBounded(count: Option<nat>, rows: seq<Turn>)
    requires |rows| <= count.GetOr(0)
    ensures var m := Dashboard(count, rows);
      && 0.0 <= m.errorRate <= 100.0
      && 0.0 <= m.successRate <= 100.0
      && m.errorRate + m.successRate <= 100.0
  {
    var m := Dashboard(count, rows);
    if m.totalTurns > 0 {
      var t := m.totalTurns as real;
      var e := m.turnsWithErrors as real;
      var b := m.turnsBlocked as real;
      PercentRange(e, t);
      PercentRange(t - e - b, t);
      PercentRange(e + (t - e - b), t);
      PercentAdd(e, t - e - b, t);
    }
  }

  /** The rounded average lies within any integer range that holds every
      counted latency. */
  lemma AverageLatencyBounds(count: Option<nat>, rows: seq<Turn>, lo: int, hi: int)
    requires Count(rows, HasLatency) > 0
    requires forall i :: 0 <= i < |rows| && HasLatency(rows[i]) ==> lo <= rows[i].latencyTotalMs.value <= hi
    ensures lo <= Dashboard(count, rows).averageLatency <= hi
  {
    var average := SumOf(rows, LatencyOf) / Count(rows, HasLatency) as real;
    MeanLatencyBounds(rows, lo, hi);
    RoundBounds(average, lo, hi);
    assert Dashboard(count, rows).averageLatency == Round(average);
  }

  lemma MeanLatencyBounds(rows: seq<Turn>, lo: int, hi: int)
    requires Count(rows, HasLatency) > 0
    requires forall i :: 0 <= i < |rows| && HasLatency(rows[i]) ==> lo <= rows[i].latencyTotalMs.value <= hi
    ensures lo as real <= SumOf(rows, LatencyOf) / Count(rows, HasLatency) as real <= hi as real
  {
    var counted := Filter(rows, HasLatency);
    CountedLatencyBounds(rows, lo, hi);
    MeanOfBounded(counted, LatencyOf, lo as real, hi as real);
    SumOfFilter(rows, HasLatency, LatencyOf);
  }

  lemma CountedLatencyBounds(rows: seq<Turn>, lo: int, hi: int)
    requires forall i :: 0 <= i < |rows| && HasLatency(rows[i]) ==> lo <= rows[i].latencyTotalMs.value <= hi
    ensures forall i :: 0 <= i < |Filter(rows, HasLatency)| ==>
      lo as real <= LatencyOf(Filter(rows, HasLatency)[i]) <= hi as real
  {
    var counted := Filter(rows, HasLatency);
    forall i | 0 <= i < |counted| ensures lo as real <= LatencyOf(counted[i]) <= hi as real {
      var j :| 0 <= j < |rows| && rows[j] == counted[i];
    }
  }

  lemma RoundBounds(x: real, lo: int, hi: int)
    requires lo as real <= x <= hi as real
    ensures lo <= Round(x) <= hi
  {
  }

  /** `totalCost` adds up exactly the truthy `cost_usd` values. */
  lemma TotalCostOfTruthy(count: Option<nat>, rows: seq<Turn>)
    ensures Dashboard(count, rows).totalCost == SumOf(Filter(rows, HasCost), CostOf)
  {
    SumOfFilter(rows, HasCost, CostOf);
  }

  /** `turnsWithErrors` counts the rows whose status is `error`, and
      `turnsBlocked` those blocked on input or on output; each is positive
      exactly when such a row exists. */
  lemma FailureCounts(count: Option<nat>, rows: seq<Turn>)
    ensures var m := Dashboard(count, rows);
      && m.turnsWithErrors == |Filter(rows, IsError)|
      && m.turnsBlocked == |Filter(rows, IsBlocked)|
      && (m.turnsWithErrors > 0 <==> exists i :: 0 <= i < |rows| && rows[i].status == Error)
      && (m.turnsBlocked > 0 <==>
            exists i :: 0 <= i < |rows| && (rows[i].status == InputBlocked || rows[i].status == OutputBlocked))
  {
    CountPositive(rows, IsError);
    CountPositive(rows, IsBlocked);
  }
}
