/** The rows of the `agent_turns` table as the analytics hooks read them,
    and the reporting periods they are asked for. A row's timestamp is
    replaced by the keys the hooks derive from it with the date functions
    (the hour or day it falls in, in local time or in UTC). */
module Turns {
  import opened Common

  /** `"24h" | "7d" | "30d"` */
  datatype Period = H24 | D7 | D30

  /** `getPeriodHours`: the look-back window of the dashboard totals and of
      the agent distribution. */
  function PeriodHours(p: Period): (h: nat)
    ensures h == 24 * PeriodDays(p)
    ensures h in {24, 168, 720}
  {
    match p
    case H24 => 24
    case D7 => 24 * 7
    case D30 => 24 * 30
  }

  /** `getPeriodDays` (and the inline `periodDays` of the cost hook). */
  function PeriodDays(p: Period): (d: nat)
    ensures d in {1, 7, 30}
    ensures p == H24 <==> d == 1
  {
    match p
    case H24 => 1
    case D7 => 7
    case D30 => 30
  }

  datatype Status = Success | Error | InputBlocked | OutputBlocked

  datatype Turn = Turn(
    agentIdentifier: string,
    sessionId: Option<string>,
    model: Option<string>,
    costUsd: Option<real>,
    latencyContextMs: Option<int>,
    latencyGuardrailInputMs: Option<int>,
    latencyAgentMs: Option<int>,
    latencyGuardrailOutputMs: Option<int>,
    latencyTotalMs: Option<int>,
    status: Status,
    /** `created_at` as stored */
    createdAt: string,
    /** the local hour the row falls in, counted from a fixed origin */
    localHour: int,
    /** the local day the row falls in, counted from a fixed origin */
    localDay: int,
    /** the UTC calendar day, `toISOString().split("T")[0]`, as a day number */
    utcDay: int
  )

  /** `turn.agent_identifier || "unknown"` */
  function AgentKey(t: Turn): (a: string)
    ensures a != ""
    ensures t.agentIdentifier != "" ==> a == t.agentIdentifier
  {
    if t.agentIdentifier != "" then t.agentIdentifier else "unknown"
  }

  /** `turn.cost_usd || 0` */
  function CostOf(t: Turn): real {
    OrZero(t.costUsd)
  }

  predicate IsError(t: Turn) {
    t.status == Error
  }

  predicate IsBlocked(t: Turn) {
    t.status == InputBlocked || t.status == OutputBlocked
  }

  /** The local hour of day, `date.getHours()`, in 0..23. */
  function HourOfDay(t: Turn): (h: int)
    ensures 0 <= h < 24
  {
    t.localHour % 24
  }

  function UtcDay(t: Turn): int {
    t.utcDay
  }

  /** Every row weighs one, for counting with a sum. */
  function One(t: Turn): real {
    1.0
  }

  lemma SumOfOne(rows: seq<Turn>)
    ensures SumOf(rows, One) == |rows| as real
  {
    SumOfBounds(rows, One, 1.0, 1.0);
  }
}
