/** The summary line of the playground's execution-log panel: how many
    steps, how many tool calls, how many succeeded, and how long they took
    together. */
module ExecutionLogs {
  import opened Common
  import opened PlaygroundTypes

  predicate IsFailed(l: LogEntry) {
    l.status == Failed
  }

  predicate IsSucceeded(l: LogEntry) {
    l.status == Succeeded
  }

  predicate IsTool(l: LogEntry) {
    l.step == ToolStep
  }

  /** `logs.some((log) => log.status === "error")` */
  predicate AnyFailed(logs: seq<LogEntry>)
    decreases |logs|
  {
    logs != [] && (IsFailed(logs[0]) || AnyFailed(logs[1..]))
  }

  lemma {:induction false} AnyFailedMeans(logs: seq<LogEntry>)
    ensures AnyFailed(logs) <==> exists i :: 0 <= i < |logs| && logs[i].status == Failed
    decreases |logs|
  {
    if logs != [] {
      AnyFailedMeans(logs[1..]);
      if exists i :: 0 <= i < |logs| && logs[i].status == Failed {
        var i :| 0 <= i < |logs| && logs[i].status == Failed;
        if i > 0 {
          assert logs[1..][i - 1].status == Failed;
        }
      }
      if AnyFailed(logs[1..]) {
        var i :| 0 <= i < |logs[1..]| && logs[1..][i].status == Failed;
        assert logs[i + 1].status == Failed;
      }
    }
  }

  /** The values the panel's header shows. */
  datatype Summary = Summary(
    steps: nat,
    totalDuration: int,
    hasErrors: bool,
    successCount: nat,
    toolCount: nat
  )

  /** The panel: nothing for an empty list, otherwise its summary. */
  function Summarize(logs: seq<LogEntry>): (s: Option<Summary>)
    ensures s.None? <==> logs == []
    ensures s.Some? ==> s.value.steps == |logs|
    ensures s.Some? ==> s.value.successCount <= s.value.steps && s.value.toolCount <= s.value.steps
  {
    if logs == [] then None
    else Some(Summary(|logs|, TotalDuration(logs), AnyFailed(logs), Count(logs, IsSucceeded), Count(logs, IsTool)))
  }

  /** Each field means what its name says: the summed durations (a missing
      duration counts 0), some step failed, how many succeeded and how many
      were tool calls; successes and failures never exceed the steps. */
  lemma SummaryMeans(logs: seq<LogEntry>)
    requires logs != []
    ensures var s := Summarize(logs).value;
      && s.totalDuration == TotalDuration(logs)
      && (s.hasErrors <==> exists i :: 0 <= i < |logs| && logs[i].status == Failed)
      && (s.successCount > 0 <==> exists i :: 0 <= i < |logs| && logs[i].status == Succeeded)
      && (s.toolCount > 0 <==> exists i :: 0 <= i < |logs| && logs[i].step == ToolStep)
      && s.successCount + Count(logs, IsFailed) <= s.steps
  {
    AnyFailedMeans(logs);
    CountPositive(logs, IsSucceeded);
    CountPositive(logs, IsTool);
    CountDisjoint(logs, IsSucceeded, IsFailed);
  }

  /** With every step succeeded the panel shows `n/n ok` and no error. */
  lemma AllSucceeded(logs: seq<LogEntry>)
    requires logs != []
    requires forall i :: 0 <= i < |logs| ==> logs[i].status == Succeeded
    ensures Summarize(logs).value.successCount == |logs|
    ensures !Summarize(logs).value.hasErrors
  {
    CountAll(logs, IsSucceeded);
    AnyFailedMeans(logs);
  }

  // ---------------------------------------------------------------------
  // The texts

  /** `Execution Logs ({logs.length} steps)` */
  function StepsText(s: Summary): string {
    "Execution Logs (" + NatToString(s.steps) + " steps)"
  }

  /** `{successCount}/{logs.length} ok` */
  function OkText(s: Summary): string {
    NatToString(s.successCount) + "/" + NatToString(s.steps) + " ok"
  }

  /** The tool-count label, shown only when there is a tool call. */
  function ToolsText(s: Summary): (t: Option<string>)
    ensures t.None? <==> s.toolCount == 0
  {
    if s.toolCount > 0 then Some(NatToString(s.toolCount) + " tool" + (if s.toolCount != 1 then "s" else ""))
    else None
  }

  /** The duration: `toFixed(2)` of the seconds from one second on, given
      as `fixed2`, whole milliseconds below that. */
  function DurationText(s: Summary, fixed2: real -> string): string {
    if s.totalDuration >= 1000 then fixed2(s.totalDuration as real / 1000.0) + "s"
    else IntToString(s.totalDuration) + "ms"
  }

  /** The ok count reads back from the text before the slash, and the step
      count from the text between the slash and ` ok`. */
  lemma OkTextReadsBack(s: Summary)
    ensures var t := OkText(s);
      var a := NatToString(s.successCount);
      var b := NatToString(s.steps);
      && t[..|a|] == a && t[|a|] == '/' && t[|a| + 1..|a| + 1 + |b|] == b
      && ParseNat(a) == s.successCount && ParseNat(b) == s.steps
      && EndsWith(t, " ok")
  {
    var a := NatToString(s.successCount);
    var b := NatToString(s.steps);
    var t := a + "/" + b + " ok";
    assert t[..|a|] == a;
    assert t[|a| + 1..|a| + 1 + |b|] == b;
    assert t[|t| - 3..] == " ok";
    NatToStringRoundTrip(s.successCount);
    NatToStringRoundTrip(s.steps);
  }

  /** The label says "tools" for every count but one. */
  lemma ToolsPlural(s: Summary)
    requires s.toolCount > 0
    ensures var t := ToolsText(s).value;
      && StartsWith(t, NatToString(s.toolCount))
      && (EndsWith(t, "tools") <==> s.toolCount != 1)
      && (s.toolCount == 1 ==> t == "1 tool")
  {
    var n := NatToString(s.toolCount);
    var t := ToolsText(s).value;
    assert t[..|n|] == n;
    if s.toolCount == 1 {
      assert n == "1";
      assert t == "1 tool";
      assert t[|t| - 5..] == " tool";
    } else {
      assert t == n + " tools";
      assert t[|t| - 5..] == "tools";
    }
  }

  /** Below a second the text is the milliseconds followed by `ms`, and the
      number reads back; from a second on it ends in a bare `s`. */
  lemma DurationUnits(s: Summary, fixed2: real -> string)
    ensures var t := DurationText(s, fixed2);
      && (s.totalDuration < 1000 ==>
            && t == IntToString(s.totalDuration) + "ms"
            && ParseInt(t[..|t| - 2]) == s.totalDuration)
      && (s.totalDuration >= 1000 ==> t == fixed2(s.totalDuration as real / 1000.0) + "s")
  {
    if s.totalDuration < 1000 {
      var t := DurationText(s, fixed2);
      assert t[..|t| - 2] == IntToString(s.totalDuration);
      IntToStringRoundTrip(s.totalDuration);
    }
  }

  /** `isLast={index === logs.length - 1}` */
  predicate IsLast(logs: seq<LogEntry>, index: nat) {
    index == |logs| - 1
  }

  /** In a non-empty list exactly one entry, the final one, is flagged. */
  lemma OneLast(logs: seq<LogEntry>)
    requires logs != []
    ensures IsLast(logs, |logs| - 1)
    ensures forall i :: 0 <= i < |logs| - 1 ==> !IsLast(logs, i)
  {
  }
}
