/** The metrics table of the replay page: for each of four metrics the
    original and the replayed value, their difference, its text, and
    whether the replay did better, worse or the same. */
module MetricsComparison {
  import opened Common

  /** `{ tokensIn, tokensOut, cost, latency }` of one run. */
  datatype Usage = Usage(tokensIn: int, tokensOut: int, cost: real, latency: real)

  /** The number formats the table uses (`toLocaleString`,
      `formatCurrency`, `formatLatency`); they are not part of this model. */
  datatype Formats = Formats(locale: int -> string, currency: real -> string, latency: real -> string)

  datatype MetricRow = MetricRow(
    name: string,
    original: string,
    replay: string,
    diff: real,
    diffFormatted: string,
    betterWhenLower: bool
  )

  /** `diff >= 0 ? "+" : ""` */
  function Sign(d: real): string {
    if d >= 0.0 then "+" else ""
  }

  function Abs(d: real): real {
    if d < 0.0 then -d else d
  }

  /** The `metrics` array literal. */
  function Metrics(o: Usage, r: Usage, f: Formats): seq<MetricRow> {
    var dIn := r.tokensIn - o.tokensIn;
    var dOut := r.tokensOut - o.tokensOut;
    var dCost := r.cost - o.cost;
    var dLatency := r.latency - o.latency;
    [ MetricRow("Tokens Input", f.locale(o.tokensIn), f.locale(r.tokensIn), dIn as real,
                Sign(dIn as real) + IntToString(dIn), true),
      MetricRow("Tokens Output", f.locale(o.tokensOut), f.locale(r.tokensOut), dOut as real,
                Sign(dOut as real) + IntToString(dOut), true),
      MetricRow("Custo", f.currency(o.cost), f.currency(r.cost), dCost,
                Sign(dCost) + f.currency(dCost), true),
      MetricRow("Lat\U{00EA}ncia", f.latency(o.latency), f.latency(r.latency), dLatency,
                Sign(dLatency) + f.latency(Abs(dLatency)), true) ]
  }

  function RowName(m: MetricRow): string { m.name }

  /** Four rows in a fixed order, each with the replay's value minus the
      original's, and lower always better. */
  lemma MetricsRows(o: Usage, r: Usage, f: Formats)
    ensures var rows := Metrics(o, r, f);
      && MapSeq(rows, RowName) == ["Tokens Input", "Tokens Output", "Custo", "Lat\U{00EA}ncia"]
      && rows[0].diff == (r.tokensIn - o.tokensIn) as real
      && rows[1].diff == (r.tokensOut - o.tokensOut) as real
      && rows[2].diff == r.cost - o.cost
      && rows[3].diff == r.latency - o.latency
      && forall i :: 0 <= i < |rows| ==> rows[i].betterWhenLower
  {
  }

  /** Drops a leading `+`. */
  function Unsigned(s: string): string {
    if |s| > 0 && s[0] == '+' then s[1..] else s
  }

  /** The token rows' text carries a `+` exactly for a non-negative
      difference and reads back as the difference itself. */
  lemma TokenDiffText(o: Usage, r: Usage, f: Formats, i: nat)
    requires i < 2
    ensures var m := Metrics(o, r, f)[i];
      var d := if i == 0 then r.tokensIn - o.tokensIn else r.tokensOut - o.tokensOut;
      && (m.diffFormatted[0] == '+' <==> d >= 0)
      && (m.diffFormatted[0] == '-' <==> d < 0)
      && ParseInt(Unsigned(m.diffFormatted)) == d
  {
    var d := if i == 0 then r.tokensIn - o.tokensIn else r.tokensOut - o.tokensOut;
    var m := Metrics(o, r, f)[i];
    assert m.diffFormatted == Sign(d as real) + IntToString(d);
    IntToStringRoundTrip(d);
    if d >= 0 {
      assert Unsigned(m.diffFormatted) == IntToString(d);
    } else {
      assert m.diffFormatted == IntToString(d);
    }
  }

  /** The cost row prefixes `+` exactly for a non-negative difference; the
      latency row formats the magnitude, so a negative latency difference
      is shown with no sign. */
  lemma CostAndLatencyText(o: Usage, r: Usage, f: Formats)
    ensures var rows := Metrics(o, r, f);
      && rows[2].diffFormatted == (if rows[2].diff >= 0.0 then "+" else "") + f.currency(rows[2].diff)
      && (rows[3].diff >= 0.0 ==> rows[3].diffFormatted == "+" + f.latency(rows[3].diff))
      && (rows[3].diff < 0.0 ==> rows[3].diffFormatted == f.latency(-rows[3].diff))
  {
    var rows := Metrics(o, r, f);
    assert rows[3].diff >= 0.0 ==> Abs(rows[3].diff) == rows[3].diff;
  }

  predicate IsBetter(m: MetricRow) {
    if m.betterWhenLower then m.diff < 0.0 else m.diff > 0.0
  }

  predicate IsWorse(m: MetricRow) {
    if m.betterWhenLower then m.diff > 0.0 else m.diff < 0.0
  }

  predicate IsEqual(m: MetricRow) {
    m.diff == 0.0
  }

  /** Exactly one of better, worse and equal holds for any row. */
  lemma Classification(m: MetricRow)
    ensures IsBetter(m) || IsWorse(m) || IsEqual(m)
    ensures !(IsBetter(m) && IsWorse(m)) && !(IsBetter(m) && IsEqual(m)) && !(IsWorse(m) && IsEqual(m))
  {
  }

  /** In this table lower is always better: better is a drop, worse a rise. */
  lemma ClassificationOfMetrics(o: Usage, r: Usage, f: Formats, i: nat)
    requires i < 4
    ensures var m := Metrics(o, r, f)[i];
      && (IsBetter(m) <==> m.diff < 0.0)
      && (IsWorse(m) <==> m.diff > 0.0)
  {
  }

  datatype Arrow = Up | Down | Dash

  /** `isEqual ? Minus : diff > 0 ? ArrowUp : ArrowDown` */
  function ArrowOf(m: MetricRow): (a: Arrow)
    ensures a == Up <==> m.diff > 0.0
    ensures a == Down <==> m.diff < 0.0
    ensures a == Dash <==> IsEqual(m)
  {
    if IsEqual(m) then Dash else if m.diff > 0.0 then Up else Down
  }
}
