/** `useTurnsOverTime`: the turns and the errors per time slot, for the last
    24 hours (hourly) or the last 7 or 30 days (daily). Instants are given as
    the local hour or day they fall in, so `startOfHour` and `startOfDay` are
    that number and `subHours(now, i)` / `subDays(now, i)` subtract `i`. */
module TurnsOverTime {
  import opened Common
  import opened Turns
  import opened OrderedMap

  /** The current instant, as the local hour and the local day it falls in. */
  datatype Clock = Clock(hour: int, day: int)

  /** How many slots `getTimeSlots` makes: one per hour or per day. */
  function SlotCount(p: Period): (n: nat)
    ensures n == if p == H24 then PeriodHours(p) else PeriodDays(p)
  {
    match p
    case H24 => 24
    case D7 => 7
    case D30 => 30
  }

  /** The unit slots are counted in: hours for "24h", days otherwise. */
  function NowUnit(p: Period, clock: Clock): int {
    if p == H24 then clock.hour else clock.day
  }

  /** `startOfHour(turnDate)` or `startOfDay(turnDate)` */
  function TurnUnit(p: Period, t: Turn): int {
    if p == H24 then t.localHour else t.localDay
  }

  /** `format(slot, formatStr)`: "HH:mm" of a start of hour names the hour
      of day and "EEE" the weekday. "dd/MM" is modelled as the absolute day:
      the text has no year, so the dashboard would also file a row dated a
      year or more later under a slot, which the model does not. */
  function Label(p: Period, unit: int): int {
    match p
    case H24 => unit % 24
    case D7 => unit % 7
    case D30 => unit
  }

  function LabelOf(p: Period): int -> int {
    u => Label(p, u)
  }

  function RowLabel(p: Period, t: Turn): int {
    Label(p, TurnUnit(p, t))
  }

  /** The slots, oldest first, ending with the current hour or day. */
  function Slots(p: Period, clock: Clock): (s: seq<int>)
    ensures |s| == SlotCount(p) > 0
    ensures s[|s| - 1] == NowUnit(p, clock)
    ensures forall j :: 0 <= j < |s| - 1 ==> s[j + 1] == s[j] + 1
  {
    var n := SlotCount(p);
    var now := NowUnit(p, clock);
    seq(n, j => now - (n - 1) + j)
  }

  /** `getTimeSlots`: `for (let i = n - 1; i >= 0; i--) slots.push(now - i)` */
  method TimeSlots(p: Period, clock: Clock) returns (slots: seq<int>)
    ensures slots == Slots(p, clock)
  {
    var n := SlotCount(p);
    var now := NowUnit(p, clock);
    slots := [];
    var i: int := n - 1;
    while i >= 0
      invariant -1 <= i <= n - 1
      invariant |slots| == n - 1 - i
      invariant forall j :: 0 <= j < |slots| ==> slots[j] == now - (n - 1) + j
      decreases i + 1
    {
      slots := slots + [now - i];
      i := i - 1;
    }
  }

  lemma {:induction false} MulSign(k: int, m: int)
    requires m > 0
    ensures k >= 1 ==> k * m >= m
    ensures k <= 0 ==> k * m <= 0
    decreases if k < 0 then -k else k
  {
    if k > 1 {
      MulSign(k - 1, m);
      assert k * m == (k - 1) * m + m;
    } else if k < 0 {
      MulSign(k + 1, m);
      assert k * m == (k + 1) * m - m;
    }
  }

  /** Distinct units less than `m` apart fall in distinct residues. */
  lemma ModDistinct(a: int, b: int, m: int)
    requires 0 < b - a < m
    ensures a % m != b % m
  {
    var qa, qb := a / m, b / m;
    assert a == qa * m + a % m;
    assert b == qb * m + b % m;
    assert b - a == (qb - qa) * m + (b % m - a % m);
    MulSign(qb - qa, m);
  }

  /** Every residue is some slot's label: the `m` consecutive units from
      `base` cover them all. */
  lemma ModCover(base: int, m: int, u: int) returns (j: int)
    requires m > 0
    ensures 0 <= j < m && (base + j) % m == u % m
  {
    var d := u - base;
    j := d % m;
    var q := d / m;
    assert d == q * m + j;
    assert base + j == u + (-q) * m;
    ModShift(u, -q, m);
  }

  lemma ModShift(u: int, k: int, m: int)
    requires m > 0
    ensures (u + k * m) % m == u % m
  {
    var r := u % m;
    var q := u / m;
    assert u == q * m + r;
    assert u + k * m == (q + k) * m + r;
    ModUnique(u + k * m, q + k, r, m);
  }

  lemma ModUnique(x: int, q: int, r: int, m: int)
    requires m > 0 && 0 <= r < m && x == q * m + r
    ensures x % m == r
  {
    var q' := x / m;
    var r' := x % m;
    assert x == q' * m + r';
    assert (q' - q) * m == r - r';
    MulSign(q' - q, m);
    MulSign(q - q', m);
    assert (q - q') * m == r' - r;
  }

  /** The seeded keys are all different, so no slot is lost. */
  lemma LabelsDistinct(p: Period, clock: Clock)
    ensures Distinct(MapSeq(Slots(p, clock), LabelOf(p)))
  {
    var s := Slots(p, clock);
    var ls := MapSeq(s, LabelOf(p));
    forall i, j | 0 <= i < j < |ls| ensures ls[i] != ls[j] {
      assert s[j] - s[i] == j - i;
      match p {
        case H24 => ModDistinct(s[i], s[j], 24);
        case D7 => ModDistinct(s[i], s[j], 7);
        case D30 =>
      }
    }
  }

  // ---------------------------------------------------------------------
  // The query and the two loops

  /** `.gte("created_at", since)` and, when an agent is given,
      `.eq("agent_identifier", agent)`; `""` stands for no agent. */
  function Matches(p: Period, since: int, agent: string): Turn -> bool {
    t => TurnUnit(p, t) >= since && (agent == "" || t.agentIdentifier == agent)
  }

  function Fetched(p: Period, since: int, agent: string, table: seq<Turn>): seq<Turn> {
    Filter(table, Matches(p, since, agent))
  }

  datatype Tick = Tick(count: nat, errors: nat)

  /** The first loop: every slot's label set to zero counts. */
  function Seed(labels: seq<int>): (m: OMap<int, Tick>)
    ensures Valid(m)
    ensures Keys(m) == Dedup(labels)
    ensures forall k :: Get(m, k).Some? ==> Get(m, k).value == Tick(0, 0)
    decreases |labels|
  {
    if labels == [] then []
    else Set(Seed(labels[..|labels| - 1]), labels[|labels| - 1], Tick(0, 0))
  }

  /** One row of the second loop: a row whose label has a slot bumps its
      count, and its errors when the row failed; any other row is skipped. */
  function Bump(m: OMap<int, Tick>, k: int, isError: bool): (r: OMap<int, Tick>)
    ensures Keys(r) == Keys(m)
    ensures Valid(m) ==> Valid(r)
  {
    match Get(m, k)
    case Some(c) => Set(m, k, Tick(c.count + 1, c.errors + if isError then 1 else 0))
    case None => m
  }

  function BumpAll(m: OMap<int, Tick>, p: Period, rows: seq<Turn>): (r: OMap<int, Tick>)
    ensures Keys(r) == Keys(m)
    ensures Valid(m) ==> Valid(r)
    decreases |rows|
  {
    if rows == [] then m
    else
      var t := rows[|rows| - 1];
      Bump(BumpAll(m, p, rows[..|rows| - 1]), RowLabel(p, t), IsError(t))
  }

  function HasLabel(p: Period, k: int): Turn -> bool {
    t => RowLabel(p, t) == k
  }

  function ErrorWithLabel(p: Period, k: int): Turn -> bool {
    t => RowLabel(p, t) == k && IsError(t)
  }

  /** A slot's counters after `n` more rows, `e` of them failed; an absent
      slot stays absent. */
  function Grown(o: Option<Tick>, n: nat, e: nat): Option<Tick> {
    match o
    case None => None
    case Some(c) => Some(Tick(c.count + n, c.errors + e))
  }

  lemma GrownTwice(o: Option<Tick>, n1: nat, e1: nat, n2: nat, e2: nat)
    ensures Grown(Grown(o, n1, e1), n2, e2) == Grown(o, n1 + n2, e1 + e2)
  {
  }

  /** A slot's count grows by its rows, its errors by its failed rows;
      labels without a slot stay absent. */
  lemma {:induction false} BumpAllGet(m: OMap<int, Tick>, p: Period, rows: seq<Turn>, k: int)
    ensures Get(BumpAll(m, p, rows), k)
         == Grown(Get(m, k), Count(rows, HasLabel(p, k)), Count(rows, ErrorWithLabel(p, k)))
    decreases |rows|
  {
    if rows != [] {
      var front := rows[..|rows| - 1];
      var t := rows[|rows| - 1];
      var n2: nat := if RowLabel(p, t) == k then 1 else 0;
      var e2: nat := if RowLabel(p, t) == k && IsError(t) then 1 else 0;
      calc {
        Get(BumpAll(m, p, rows), k);
        Get(Bump(BumpAll(m, p, front), RowLabel(p, t), IsError(t)), k);
        { BumpGet(BumpAll(m, p, front), RowLabel(p, t), IsError(t), k); }
        Grown(Get(BumpAll(m, p, front), k), n2, e2);
        { BumpAllGet(m, p, front, k); }
        Grown(Grown(Get(m, k), Count(front, HasLabel(p, k)), Count(front, ErrorWithLabel(p, k))), n2, e2);
        { GrownTwice(Get(m, k), Count(front, HasLabel(p, k)), Count(front, ErrorWithLabel(p, k)), n2, e2);
          LabelCountsLast(rows, p, k); }
        Grown(Get(m, k), Count(rows, HasLabel(p, k)), Count(rows, ErrorWithLabel(p, k)));
      }
    }
  }

  lemma LabelCountsLast(rows: seq<Turn>, p: Period, k: int)
    requires rows != []
    ensures var t := rows[|rows| - 1];
      && Count(rows, HasLabel(p, k))
         == Count(rows[..|rows| - 1], HasLabel(p, k)) + (if RowLabel(p, t) == k then 1 else 0)
      && Count(rows, ErrorWithLabel(p, k))
         == Count(rows[..|rows| - 1], ErrorWithLabel(p, k)) + (if RowLabel(p, t) == k && IsError(t) then 1 else 0)
  {
    CountLast(rows, HasLabel(p, k));
    CountLast(rows, ErrorWithLabel(p, k));
  }

  /** What one bump does to the counters of any label. */
  lemma BumpGet(m: OMap<int, Tick>, k: int, isError: bool, j: int)
    ensures Get(Bump(m, k, isError), j)
         == Grown(Get(m, j), if j == k then 1 else 0, if j == k && isError then 1 else 0)
  {
  }

  function TickCount(e: (int, Tick)): real {
    e.1.count as real
  }

  function InSlots(p: Period, keys: seq<int>): Turn -> bool {
    t => RowLabel(p, t) in keys
  }

  /** The counts grow by exactly the rows that found a slot. */
  lemma {:induction false} BumpAllSum(m: OMap<int, Tick>, p: Period, rows: seq<Turn>)
    ensures SumOf(BumpAll(m, p, rows), TickCount) == SumOf(m, TickCount) + Count(rows, InSlots(p, Keys(m))) as real
    decreases |rows|
  {
    if rows != [] {
      var front := rows[..|rows| - 1];
      var t := rows[|rows| - 1];
      BumpAllSum(m, p, front);
      CountLast(rows, InSlots(p, Keys(m)));
      BumpSum(BumpAll(m, p, front), RowLabel(p, t), IsError(t));
    }
  }

  /** One bump adds one to the total count exactly when the label has a
      slot. */
  lemma BumpSum(m: OMap<int, Tick>, k: int, isError: bool)
    ensures SumOf(Bump(m, k, isError), TickCount) == SumOf(m, TickCount) + (if k in Keys(m) then 1.0 else 0.0)
  {
    match Get(m, k) {
      case Some(c) =>
        BumpSumPresent(m, k, isError, c);
      case None =>
        assert Bump(m, k, isError) == m;
    }
  }

  lemma BumpSumPresent(m: OMap<int, Tick>, k: int, isError: bool, c: Tick)
    requires Get(m, k) == Some(c)
    ensures SumOf(Bump(m, k, isError), TickCount) == SumOf(m, TickCount) + 1.0
  {
    var v := Tick(c.count + 1, c.errors + if isError then 1 else 0);
    calc {
      SumOf(Bump(m, k, isError), TickCount);
      SumOf(Set(m, k, v), TickCount);
      { SumOfSet(m, k, v, TickCount); }
      SumOf(m, TickCount) - TickCount((k, c)) + TickCount((k, v));
      SumOf(m, TickCount) + 1.0;
    }
  }

  /** `{ timestamp, count, errors }` */
  datatype Bucket = Bucket(timestamp: int, count: nat, errors: nat)

  function MkBucket(e: (int, Tick)): Bucket {
    Bucket(e.0, e.1.count, e.1.errors)
  }

  function BucketCount(b: Bucket): real {
    b.count as real
  }

  function TurnsOverTimeOf(p: Period, clock: Clock, agent: string, table: seq<Turn>): seq<Bucket> {
    var slots := Slots(p, clock);
    var rows := Fetched(p, slots[0], agent, table);
    MapSeq(BumpAll(Seed(MapSeq(slots, LabelOf(p))), p, rows), MkBucket)
  }

  /** The first loop: `grouped.set(format(slot), { count: 0, errors: 0 })`
      for every slot. */
  method SeedSlots(labels: seq<int>) returns (grouped: OMap<int, Tick>)
    ensures grouped == Seed(labels)
  {
    grouped := [];
    for i := 0 to |labels|
      invariant grouped == Seed(labels[..i])
    {
      SeedExtend(labels, i);
      grouped := Set(grouped, labels[i], Tick(0, 0));
    }
    assert labels[..|labels|] == labels;
  }

  lemma SeedExtend(labels: seq<int>, i: nat)
    requires i < |labels|
    ensures Seed(labels[..i + 1]) == Set(Seed(labels[..i]), labels[i], Tick(0, 0))
  {
    assert labels[..i + 1][..i] == labels[..i];
  }

  lemma BumpAllExtend(m: OMap<int, Tick>, p: Period, rows: seq<Turn>, i: nat)
    requires i < |rows|
    ensures BumpAll(m, p, rows[..i + 1]) == Bump(BumpAll(m, p, rows[..i]), RowLabel(p, rows[i]), IsError(rows[i]))
  {
    assert rows[..i + 1][..i] == rows[..i];
  }

  /** The second loop: each row bumps its slot's counters, if it has one. */
  method CountTurns(seeded: OMap<int, Tick>, p: Period, rows: seq<Turn>) returns (grouped: OMap<int, Tick>)
    ensures grouped == BumpAll(seeded, p, rows)
  {
    grouped := seeded;
    for i := 0 to |rows|
      invariant grouped == BumpAll(seeded, p, rows[..i])
    {
      BumpAllExtend(seeded, p, rows, i);
      grouped := BumpRow(grouped, RowLabel(p, rows[i]), IsError(rows[i]));
    }
    assert rows[..|rows|] == rows;
  }

  /** The loop's body: `existing.count++`, and `existing.errors++` for a
      failed row, when the row's label has a slot. */
  method BumpRow(grouped: OMap<int, Tick>, key: int, isError: bool) returns (r: OMap<int, Tick>)
    ensures r == Bump(grouped, key, isError)
  {
    r := grouped;
    var current := Get(grouped, key);
    if current.Some? {
      var c := Tick(current.value.count + 1, current.value.errors);
      if isError {
        c := Tick(c.count, c.errors + 1);
      }
      r := Set(grouped, key, c);
    }
  }

  /** The query function: the slots, the query from the first slot on, the
      two loops and the final `map`. */
  method RunTurnsOverTime(p: Period, clock: Clock, agent: string, table: seq<Turn>) returns (out: seq<Bucket>)
    ensures out == TurnsOverTimeOf(p, clock, agent, table)
  {
    var slots := TimeSlots(p, clock);
    var since := slots[0];
    var rows := Fetched(p, since, agent, table);
    var grouped := SeedSlots(MapSeq(slots, LabelOf(p)));
    grouped := CountTurns(grouped, p, rows);
    out := MapSeq(grouped, MkBucket);
  }

  // ---------------------------------------------------------------------
  // What the series means

  /** One bucket per slot, oldest first; each counts the fetched rows that
      fall in it, and its errors are the failed ones among them. */
  lemma TurnsOverTimeEntry(p: Period, clock: Clock, agent: string, table: seq<Turn>, j: nat)
    requires j < SlotCount(p)
    ensures var out := TurnsOverTimeOf(p, clock, agent, table);
      var slots := Slots(p, clock);
      var rows := Fetched(p, slots[0], agent, table);
      && |out| == SlotCount(p)
      && out[j].timestamp == Label(p, slots[j])
      && out[j].count == Count(rows, HasLabel(p, out[j].timestamp))
      && out[j].errors == Count(rows, ErrorWithLabel(p, out[j].timestamp))
      && out[j].errors <= out[j].count
  {
    var slots := Slots(p, clock);
    var rows := Fetched(p, slots[0], agent, table);
    var labels := MapSeq(slots, LabelOf(p));
    var seeded := Seed(labels);
    var m := BumpAll(seeded, p, rows);
    LabelsDistinct(p, clock);
    DedupDistinct(labels);
    assert Keys(m) == labels;
    GetAt(m, j);
    var k := labels[j];
    BumpAllGet(seeded, p, rows, k);
    assert Get(seeded, k).Some?;
    ErrorsAmongCount(rows, p, k);
  }

  lemma {:induction false} ErrorsAmongCount(rows: seq<Turn>, p: Period, k: int)
    ensures Count(rows, ErrorWithLabel(p, k)) <= Count(rows, HasLabel(p, k))
    decreases |rows|
  {
    if rows != [] {
      ErrorsAmongCount(rows[1..], p, k);
    }
  }

  /** The counts add up to the fetched rows whose label has a slot. */
  lemma TurnsOverTimeTotal(p: Period, clock: Clock, agent: string, table: seq<Turn>)
    ensures var slots := Slots(p, clock);
      SumOf(TurnsOverTimeOf(p, clock, agent, table), BucketCount)
      == Count(Fetched(p, slots[0], agent, table), InSlots(p, MapSeq(slots, LabelOf(p)))) as real
  {
    var slots := Slots(p, clock);
    var rows := Fetched(p, slots[0], agent, table);
    var labels := MapSeq(slots, LabelOf(p));
    var seeded := Seed(labels);
    var m := BumpAll(seeded, p, rows);
    SumOfMapSeq(m, MkBucket, BucketCount, TickCount);
    BumpAllSum(seeded, p, rows);
    SeedZero(labels);
    LabelsDistinct(p, clock);
    DedupDistinct(labels);
  }

  lemma {:induction false} SeedZero(labels: seq<int>)
    ensures SumOf(Seed(labels), TickCount) == 0.0
    decreases |labels|
  {
    if labels != [] {
      var m := Seed(labels[..|labels| - 1]);
      SeedZero(labels[..|labels| - 1]);
      SumOfSet(m, labels[|labels| - 1], Tick(0, 0), TickCount);
    }
  }

  /** Hours of the day and weekdays repeat, so over the last 24 hours or 7
      days every fetched row lands in a slot. */
  lemma TurnsOverTimeCountsAll(p: Period, clock: Clock, agent: string, table: seq<Turn>)
    requires p != D30
    ensures SumOf(TurnsOverTimeOf(p, clock, agent, table), BucketCount)
         == |Fetched(p, Slots(p, clock)[0], agent, table)| as real
  {
    var slots := Slots(p, clock);
    var rows := Fetched(p, slots[0], agent, table);
    var labels := MapSeq(slots, LabelOf(p));
    TurnsOverTimeTotal(p, clock, agent, table);
    forall i | 0 <= i < |rows| ensures InSlots(p, labels)(rows[i]) {
      RowHasSlot(p, clock, rows[i]);
    }
    CountAll(rows, InSlots(p, labels));
  }

  lemma RowHasSlot(p: Period, clock: Clock, t: Turn)
    requires p != D30
    ensures RowLabel(p, t) in MapSeq(Slots(p, clock), LabelOf(p))
  {
    var slots := Slots(p, clock);
    var labels := MapSeq(slots, LabelOf(p));
    var m := if p == H24 then 24 else 7;
    var j := ModCover(slots[0], m, TurnUnit(p, t));
    assert labels[j] == (slots[0] + j) % m;
    assert RowLabel(p, t) == TurnUnit(p, t) % m;
  }

  /** Over the last 30 days a fetched row lands in a slot exactly when it
      is not later than today. */
  lemma TurnsOverTimeMonth(clock: Clock, agent: string, table: seq<Turn>)
    ensures SumOf(TurnsOverTimeOf(D30, clock, agent, table), BucketCount)
         == Count(Fetched(D30, Slots(D30, clock)[0], agent, table), NotLater(clock)) as real
  {
    var slots := Slots(D30, clock);
    var rows := Fetched(D30, slots[0], agent, table);
    var labels := MapSeq(slots, LabelOf(D30));
    TurnsOverTimeTotal(D30, clock, agent, table);
    MonthLabels(clock);
    assert slots[0] == clock.day - 29;
    forall i | 0 <= i < |rows| ensures InSlots(D30, labels)(rows[i]) == NotLater(clock)(rows[i]) {
      assert Matches(D30, slots[0], agent)(rows[i]);
    }
    CountCongruent(rows, InSlots(D30, labels), NotLater(clock));
  }

  /** The 30 daily labels are exactly the days of the last 30. */
  lemma MonthLabels(clock: Clock)
    ensures forall u :: u in MapSeq(Slots(D30, clock), LabelOf(D30)) <==> clock.day - 29 <= u <= clock.day
  {
    var slots := Slots(D30, clock);
    var labels := MapSeq(slots, LabelOf(D30));
    forall u ensures u in labels <==> clock.day - 29 <= u <= clock.day {
      if clock.day - 29 <= u <= clock.day {
        assert labels[u - (clock.day - 29)] == u;
      }
      if u in labels {
        var j :| 0 <= j < |labels| && labels[j] == u;
        assert labels[j] == slots[j] == clock.day - 29 + j;
      }
    }
  }

  function NotLater(clock: Clock): Turn -> bool {
    (t: Turn) => t.localDay <= clock.day
  }
}
