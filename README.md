# AI Agents Dashboard — a Dafny model of its deterministic core

The AI Agents Dashboard is a Next.js observability UI. It reads the
`agent_turns` table and the agent configurations from Supabase. It replays
conversations against an agent service and offers a playground for chatting
with an agent. Beneath its pages lies a set of sequential computations over
data that is already fetched. This project models those computations in
Dafny and proves what they promise.

- **Turn analytics.** The bodies of the query hooks: dashboard totals and
  rates (`use-metrics.ts`), nearest-rank percentiles, throughput, latency
  breakdown, per-agent comparison and latency over time
  (`use-performance-metrics.ts`), cost totals, windows and groupings
  (`use-cost-metrics.ts`), pre-seeded time-slot buckets
  (`use-turns-over-time.ts`), agent shares (`use-agent-distribution.ts`) and
  the agent list merged with configurations (`use-agents.ts`). Rows are a
  `seq<Turn>`. A JavaScript `Map` is an insertion-ordered sequence of pairs
  (`OrderedMap`). `Array.prototype.sort` is a stable insertion sort
  (`StableSort`). The shared "loop into a map, then map and sort" pipeline
  is `Grouping`.
- **Replay comparison.** The diff percentage and HTML escaping
  (`diff-viewer.tsx`), and the metric deltas with their classification
  (`metrics-comparison.tsx`).
- **Serialisers.** CSV escaping and assembly (`lib/export.ts`), with a
  reader for section 2 of RFC 4180 to state the round trip. Also the two
  Markdown issue templates (`create-issue-modal.tsx`, `lib/github.ts`).
- **Small state machines.** The pagination window, the tag input, the
  label toggle and title guard of the issue dialog, and the playground
  page's send, clear, save and load transitions. Also the mock agent of
  the execute route, the execution-log summary and the sidebar's
  active-item rule.

Where the source updates state step by step, the model does too. Loops
become methods whose `ensures` ties their result to a specification
function. Components with state become classes (`TagInput.TagField`,
`IssueModal.IssueDialog`, `Playground.Page`). The properties are proved as
lemmas about those functions.

## Model

| member | source | states |
|---|---|---|
| Turns.PeriodHours | src/hooks/use-metrics.ts:7-16 | 24h, 7d and 30d look back 24, 168 and 720 hours, 24 times the period's days |
| Turns.PeriodDays | src/hooks/use-performance-metrics.ts:37-46 | the period lasts 1, 7 or 30 days, and 1 exactly for 24h |
| Turns.AgentKey | src/hooks/use-agent-distribution.ts:38 | an empty agent identifier is grouped as "unknown"; any other is kept |
| DashboardMetrics.SessionIds | src/hooks/use-metrics.ts:64-66 | the set the loop collects never holds an empty id and has at most one id per row |
| DashboardMetrics.InSessionIds | src/hooks/use-metrics.ts:64-66 | an id is collected exactly when some row carries it (null and "" are skipped) |
| DashboardMetrics.Dashboard | src/hooks/use-metrics.ts:39-82 | totalTurns is `count ?? 0`; both rates are 0 when it is 0; errors plus blocked never exceed the rows; averageLatency is 0 without a truthy latency |
| DashboardMetrics.ComputeDashboard | src/hooks/use-metrics.ts:43-82 | the accumulating loop and the formulas after it return exactly Dashboard |
| DashboardMetrics.FailureCounts | src/hooks/use-metrics.ts:58-63 | turnsWithErrors counts the "error" rows and turnsBlocked the input- or output-blocked rows; each is positive iff such a row exists |
| DashboardMetrics.RatesPartition | src/hooks/use-metrics.ts:70-71 | with a positive count, errorRate + successRate + the blocked share is 100 |
| DashboardMetrics.RatesBounded | src/hooks/use-metrics.ts:70-71 | when the count covers the rows, both rates lie in [0,100] and their sum is at most 100 |
| DashboardMetrics.AverageLatencyBounds | src/hooks/use-metrics.ts:69-76 | the rounded average of the truthy latencies lies within any integer range that holds all of them |
| DashboardMetrics.Round | src/hooks/use-metrics.ts:76 | `Math.round` gives the integer within one half of its argument, halves rounded up |
| DashboardMetrics.TotalCostOfTruthy | src/hooks/use-metrics.ts:55-57 | totalCost is the sum of exactly the truthy cost_usd values |
| PerformanceMetrics.SortAsc | src/hooks/use-performance-metrics.ts:50 | the sorted copy is ascending and a permutation of the values |
| PerformanceMetrics.NearestRank | src/hooks/use-performance-metrics.ts:51-52 | the index is max(0, ceil(p·n/100) − 1): 0 for p or n zero, otherwise k·100 < p·n ≤ (k+1)·100 |
| PerformanceMetrics.NearestRankInRange | src/hooks/use-performance-metrics.ts:51-52 | for p ≤ 100 the index is inside the list |
| PerformanceMetrics.NearestRankMonotone | src/hooks/use-performance-metrics.ts:51-52 | the index never decreases as p grows |
| PerformanceMetrics.Percentile | src/hooks/use-performance-metrics.ts:48-53 | the percentile of an empty list is 0 |
| PerformanceMetrics.PercentileRank | src/hooks/use-performance-metrics.ts:48-53 | for 0 < p ≤ 100 the result is an element with at least p% of the values at or below it and fewer than p% below it |
| PerformanceMetrics.PercentileIsElement | src/hooks/use-performance-metrics.ts:48-53 | for p ≤ 100 and a non-empty list the result is one of the values |
| PerformanceMetrics.PercentileExtremes | src/hooks/use-performance-metrics.ts:48-53 | p = 0 gives the minimum and p = 100 the maximum |
| PerformanceMetrics.PercentileMonotone | src/hooks/use-performance-metrics.ts:86-90 | a higher percentage never gives a lower percentile, so p50 ≤ p90 ≤ p99 |
| PerformanceMetrics.PercentileExample | src/hooks/use-performance-metrics.ts:48-53 | example: on [40,10,30,20] the 50th percentile is 20 and the 90th is 40 |
| PerformanceMetrics.TotalLatencies | src/hooks/use-performance-metrics.ts:82-84 | one latency per row whose latency_total_ms is not null |
| PerformanceMetrics.LatencyPercentiles | src/hooks/use-performance-metrics.ts:86-90 | p50 ≤ p90 ≤ p99, all 0 when no row has a latency |
| PerformanceMetrics.HourlyThroughputKeys | src/hooks/use-performance-metrics.ts:93-106 | one entry per distinct hour or day key that occurs in the rows, and no other |
| PerformanceMetrics.HourlyThroughputOrder | src/hooks/use-performance-metrics.ts:104-106 | entries come in strictly ascending key order |
| PerformanceMetrics.HourlyThroughputCounts | src/hooks/use-performance-metrics.ts:94-102 | each entry counts the rows with its key, and at least one |
| PerformanceMetrics.HourlyThroughputSum | src/hooks/use-performance-metrics.ts:93-106 | the counts add up to the number of turns |
| PerformanceMetrics.StageAverage | src/hooks/use-performance-metrics.ts:109-122 | a breakdown component is 0 when there are no turns |
| PerformanceMetrics.StageAverageSpec | src/hooks/use-performance-metrics.ts:109-122 | the component times the number of turns is the stage total (null/0 as 0), and it lies within the range of the values |
| PerformanceMetrics.LatencyBreakdown | src/hooks/use-performance-metrics.ts:109-122 | all four components are 0 for no turns |
| PerformanceMetrics.Mean | src/hooks/use-performance-metrics.ts:144-147 | the average of no latencies is 0 |
| PerformanceMetrics.FoldAgentStats | src/hooks/use-performance-metrics.ts:129-139 | after the loop an agent's record holds its non-null latencies in row order and the number of its error rows |
| PerformanceMetrics.AgentComparisonKeys | src/hooks/use-performance-metrics.ts:129-155 | one row per agent with turns, an empty identifier counting as "unknown", and no other |
| PerformanceMetrics.AgentComparisonEntry | src/hooks/use-performance-metrics.ts:141-154 | turns is the number of non-null latencies; the average and p90 are over them; errorRate is errors over turns ·100, or 0 when turns is 0 |
| PerformanceMetrics.AgentComparisonOrder | src/hooks/use-performance-metrics.ts:155 | rows are sorted by turns descending, ties in first-appearance order |
| PerformanceMetrics.AgentErrorRateUncapped | src/hooks/use-performance-metrics.ts:132-153 | errors are counted on all rows, so one latency and two errors give an errorRate of 200 |
| PerformanceMetrics.FoldPush | src/hooks/use-performance-metrics.ts:158-168 | a day's list holds that day's latencies in row order, and a day without one has no entry |
| PerformanceMetrics.LatencyOverTimeKeys | src/hooks/use-performance-metrics.ts:158-177 | one entry per date with at least one non-null latency, and no other |
| PerformanceMetrics.LatencyOverTimeEntry | src/hooks/use-performance-metrics.ts:170-176 | each date's figures are the mean and the p90 of that date's latencies, of which there is at least one |
| PerformanceMetrics.LatencyOverTimeOrder | src/hooks/use-performance-metrics.ts:177 | entries come in strictly ascending date order |
| PerformanceMetrics.ComputePerformance | src/hooks/use-performance-metrics.ts:82-185 | the three loops, each followed by its map and sort, give exactly PerformanceOf |
| CostMetrics.CostWindows | src/hooks/use-cost-metrics.ts:48-50 | the current window is the period's days long, and the previous one is as long and ends where the current one starts |
| CostMetrics.WindowsAdjacent | src/hooks/use-cost-metrics.ts:63-81 | no instant is in both windows, and together they cover everything from the previous start |
| CostMetrics.CostChange | src/hooks/use-cost-metrics.ts:96-98 | with a positive previous total the change c satisfies total = previous·(1 + c/100), so it is positive iff the cost grew and 0 iff it stayed; otherwise it is 0 |
| CostMetrics.FoldCostTurns | src/hooks/use-cost-metrics.ts:101-110 | after the loop a key's record holds the summed cost (null/0 as 0) and the number of its rows, and a key without rows has no record |
| CostMetrics.DailyCostsKeys | src/hooks/use-cost-metrics.ts:101-114 | one entry per date that has turns, and no other |
| CostMetrics.DailyCostsOrder | src/hooks/use-cost-metrics.ts:112-114 | dates come in strictly ascending order |
| CostMetrics.DailyCostsEntry | src/hooks/use-cost-metrics.ts:102-110 | each day holds its own rows' cost and their number, at least one |
| CostMetrics.DailyCostsSums | src/hooks/use-cost-metrics.ts:101-114 | daily costs add up to totalCost and daily counts to the number of turns |
| CostMetrics.MkModel | src/hooks/use-cost-metrics.ts:143-148 | avgCostPerTurn times turns gives back the cost when there are turns, and is 0 otherwise |
| CostMetrics.CostByModelKeys | src/hooks/use-cost-metrics.ts:132-149 | one entry per model that has turns, null and "" grouped as "unknown", and no other |
| CostMetrics.CostByModelEntry | src/hooks/use-cost-metrics.ts:133-140 | each model holds its own rows' cost and count, and every model has at least one turn |
| CostMetrics.CostByModelAverage | src/hooks/use-cost-metrics.ts:147 | so every average is a true division of cost by turns |
| CostMetrics.CostByModelSums | src/hooks/use-cost-metrics.ts:132-149 | models are sorted by cost descending; their costs add up to totalCost and their counts to the number of turns |
| CostMetrics.FoldAgentCost | src/hooks/use-cost-metrics.ts:117-121 | after the loop an agent's entry is the sum of its rows' costs, and an agent without rows has none |
| CostMetrics.CostByAgentEntry | src/hooks/use-cost-metrics.ts:123-128 | each agent holds its own cost and percentage = cost/totalCost·100, or 0 when totalCost is not positive |
| CostMetrics.CostByAgentKeys | src/hooks/use-cost-metrics.ts:117-129 | one entry per agent that has turns, an empty identifier as "unknown", and no other |
| CostMetrics.CostByAgentSum | src/hooks/use-cost-metrics.ts:123-129 | agents are sorted by cost descending and their costs add up to totalCost |
| CostMetrics.CostByAgentShares | src/hooks/use-cost-metrics.ts:127 | with a positive total the percentages add up to 100 (exact arithmetic); otherwise every percentage is 0 |
| CostMetrics.ComputeCostMetrics | src/hooks/use-cost-metrics.ts:86-158 | the two reductions, the change and the three loops with their map and sort give exactly CostMetricsOf |
| TurnsOverTime.SlotCount | src/hooks/use-turns-over-time.ts:12-31 | 24h makes 24 hourly slots, 7d and 30d make 7 and 30 daily slots |
| TurnsOverTime.Slots | src/hooks/use-turns-over-time.ts:8-32 | the slots are consecutive hours or days, oldest first, ending with the current one |
| TurnsOverTime.TimeSlots | src/hooks/use-turns-over-time.ts:8-32 | the countdown loops push exactly Slots |
| TurnsOverTime.LabelsDistinct | src/hooks/use-turns-over-time.ts:58-61 | the formatted slot keys are all different, so seeding loses no slot |
| TurnsOverTime.Seed | src/hooks/use-turns-over-time.ts:58-61 | after seeding every slot key is present, in slot order, with count 0 and errors 0 |
| TurnsOverTime.Bump | src/hooks/use-turns-over-time.ts:73-80 | a row never adds a key: the map keeps exactly its keys |
| TurnsOverTime.BumpAllGet | src/hooks/use-turns-over-time.ts:63-81 | a seeded key's count grows by its rows and its errors by its "error" rows; a key that was not seeded stays absent |
| TurnsOverTime.BumpAllSum | src/hooks/use-turns-over-time.ts:63-81 | the counts grow by exactly the rows whose key was seeded |
| TurnsOverTime.SeedSlots | src/hooks/use-turns-over-time.ts:58-61 | the seeding loop builds exactly Seed |
| TurnsOverTime.CountTurns | src/hooks/use-turns-over-time.ts:63-81 | the counting loop builds exactly BumpAll |
| TurnsOverTime.RunTurnsOverTime | src/hooks/use-turns-over-time.ts:37-87 | the query function returns exactly TurnsOverTimeOf, querying from the first slot |
| TurnsOverTime.TurnsOverTimeEntry | src/hooks/use-turns-over-time.ts:39-87 | one bucket per slot in slot order, even without rows; each counts its fetched rows, its errors are its "error" rows, and errors ≤ count |
| TurnsOverTime.TurnsOverTimeTotal | src/hooks/use-turns-over-time.ts:63-81 | the bucket counts add up to the fetched rows whose key has a slot, so at most the number of rows |
| TurnsOverTime.TurnsOverTimeCountsAll | src/hooks/use-turns-over-time.ts:58-87 | for 24h and 7d (hours of day and weekdays repeat) every fetched row lands in a slot, so the counts add up to the rows |
| TurnsOverTime.TurnsOverTimeMonth | src/hooks/use-turns-over-time.ts:58-87 | for 30d, with the "dd/MM" label read as the absolute day, a fetched row is counted exactly when it is not later than today |
| AgentDistribution.RunDistribution | src/hooks/use-agent-distribution.ts:34-50 | the counting loop with its running total, then the map and the sort, returns exactly Distribution |
| AgentDistribution.DistributionKeys | src/hooks/use-agent-distribution.ts:37-47 | one entry per agent that has turns, an empty identifier as "unknown", and no other |
| AgentDistribution.DistributionEntry | src/hooks/use-agent-distribution.ts:38-48 | an agent's count is its number of turns (at least one) and its percentage is count/total·100 with total the number of rows |
| AgentDistribution.DistributionSums | src/hooks/use-agent-distribution.ts:39-50 | entries are sorted by count descending and the counts add up to total |
| AgentDistribution.DistributionShares | src/hooks/use-agent-distribution.ts:48 | with at least one row the percentages add up to 100 (exact arithmetic) |
| AgentDistribution.DistributionTies | src/hooks/use-agent-distribution.ts:50 | agents with equal counts keep the order in which they first appear |
| Agents.FirstRow | src/hooks/use-agents.ts:46-54 | the first row of an agent, if any: it belongs to the agent and no earlier row does; none exactly when no row does |
| Agents.FoldStats | src/hooks/use-agents.ts:46-54 | after the loop an agent's record holds its number of rows and the created_at of its first row, and an agent without rows has none |
| Agents.LastActivityIsLatest | src/hooks/use-agents.ts:37-51 | rows arrive newest first, so the recorded row is not older than any other row of that agent |
| Agents.LastConfig | src/hooks/use-agents.ts:57-59 | the last config with an identifier, if any; none exactly when no config has it |
| Agents.ConfigMapGet | src/hooks/use-agents.ts:57-59 | the config map holds, for each identifier, its last config: later duplicates win |
| Agents.UseAgents | src/hooks/use-agents.ts:23-75 | a config error other than 42P01 is thrown, a 42P01 error means no configs, a turns error is thrown; otherwise the result is AgentsOf |
| Agents.RunUseAgents | src/hooks/use-agents.ts:23-75 | the same with the turn loop written out returns exactly UseAgents |
| Agents.AgentsIdentifiers | src/hooks/use-agents.ts:62-67 | each identifier of discovered ∪ configured once, the discovered ones first in their own order |
| Agents.AgentsEntry | src/hooks/use-agents.ts:67-75 | turnCount is the number of the agent's rows (0 without turns), lastActivity the created_at of its first row (none without turns), config its last config (none without one) |
| DiffViewer.ChangedChars | src/components/replay/diff-viewer.tsx:106-111 | the changed characters never exceed the total |
| DiffViewer.EqualChars | src/components/replay/diff-viewer.tsx:106-111 | unchanged plus changed characters make up the total |
| DiffViewer.DiffPercentage | src/components/replay/diff-viewer.tsx:113 | the percentage lies in [0,100] and is 0 when there are no characters |
| DiffViewer.CalculateDiffPercentage | src/components/replay/diff-viewer.tsx:99-114 | the counting loop returns exactly changed/total·100, or 0 for no characters |
| DiffViewer.RenderDiff | src/components/replay/diff-viewer.tsx:17-43 | the map callback that renders each segment and bumps the counters returns the joined segment HTML and the percentage by the same formula as calculateDiffPercentage, applied to the (cleaned-up) script it is given |
| DiffViewer.IdenticalIffUnchanged | src/components/replay/diff-viewer.tsx:65 | the "identical" message shows exactly when no character changed |
| DiffViewer.DiffPercentageExtremes | src/components/replay/diff-viewer.tsx:106-113 | an all-equal script gives 0; a script with no equal segment and some text gives 100 |
| DiffViewer.TotalCharsOfScript | src/components/replay/diff-viewer.tsx:101-111 | under diff_main's contract (equal+delete spell the original, equal+insert the replay) total = \|original\| + \|replay\| − equal, and changed = total − equal |
| DiffViewer.EscapeHtmlPerChar | src/components/replay/diff-viewer.tsx:90-97 | because `&` is replaced first, the chained replacements escape each character on its own |
| DiffViewer.EscapeHtmlSafe | src/components/replay/diff-viewer.tsx:90-97 | the output has no raw `<`, `>`, `"` or `'`, and every `&` begins one of the five entities |
| DiffViewer.EscapeHtmlRoundTrip | src/components/replay/diff-viewer.tsx:91-96 | decoding the five entities gives back the original text |
| MetricsComparison.MetricsRows | src/components/replay/metrics-comparison.tsx:35-68 | exactly four rows, Tokens Input, Tokens Output, Custo, Latência; each diff is replay − original and every row is better when lower |
| MetricsComparison.TokenDiffText | src/components/replay/metrics-comparison.tsx:41-49 | a token row's text starts with "+" iff diff ≥ 0 and with "-" iff diff < 0, and reads back as the diff itself |
| MetricsComparison.CostAndLatencyText | src/components/replay/metrics-comparison.tsx:57-65 | the cost text gets "+" exactly when diff ≥ 0; the latency text formats \|diff\|, so a drop carries no sign at all |
| MetricsComparison.Classification | src/components/replay/metrics-comparison.tsx:87-93 | exactly one of better, worse and equal holds for any row |
| MetricsComparison.ClassificationOfMetrics | src/components/replay/metrics-comparison.tsx:42-93 | in this table better ⇔ diff < 0 and worse ⇔ diff > 0 |
| MetricsComparison.ArrowOf | src/components/replay/metrics-comparison.tsx:109-115 | up iff diff > 0, down iff diff < 0, dash iff diff = 0 |
| CsvExport.FormatValue | src/lib/export.ts:61-69 | null and undefined become the empty text (objects give their JSON text, anything else its String form) |
| CsvExport.DoubleQuotes | src/lib/export.ts:56 | doubling quotes never shortens a value and leaves a value without quotes as it is |
| CsvExport.EscapeCsv | src/lib/export.ts:53-59 | a value without comma, line feed or quote is returned unchanged; otherwise the result is wrapped in quotes |
| CsvExport.CarriageReturnUnquoted | src/lib/export.ts:55-58 | a lone carriage return does not make a field quoted |
| CsvExport.CollapseDoubled | src/lib/export.ts:56 | collapsing `""` undoes the doubling |
| CsvExport.EscapeCsvRoundTrip | src/lib/export.ts:55-56 | stripping the outer quotes of an escaped field and collapsing `""` gives back the value |
| CsvExport.Lookup | src/lib/export.ts:31 | a key the row does not have reads as missing |
| CsvExport.DefaultColumns | src/lib/export.ts:19-22 | without a column list the columns are the first row's keys in order, each labelled with its key |
| CsvExport.Values | src/lib/export.ts:28-35 | a row's fields are its formatted values in column order |
| CsvExport.Records | src/lib/export.ts:28-35 | one record per data row, in order |
| CsvExport.ExportCsv | src/lib/export.ts:8-38 | there is no CSV exactly when there is no data |
| CsvExport.ReadFieldOf | src/lib/export.ts:53-59 | an escaped field followed by a comma, a line feed or the end reads back as the value (section 2 of RFC 4180) |
| CsvExport.ReadRecordOf | src/lib/export.ts:25-35 | a record of escaped fields joined by commas reads back as its fields |
| CsvExport.ReadDocumentOf | src/lib/export.ts:38 | records joined by line feeds read back as the records |
| CsvExport.ExportCsvRoundTrip | src/lib/export.ts:19-38 | the CSV reads back as the header of column labels followed by each row's values in the same column order |
| CsvExport.DefaultHeader | src/lib/export.ts:19-25 | without a column list the header lists the first row's keys in order |
| Pagination.Range | src/components/ui/pagination.tsx:135-137 | the pages a..b in order, none when a > b |
| Pagination.PushRange | src/components/ui/pagination.tsx:135-137 | a `for` loop appends exactly the pages a..b |
| Pagination.Pages | src/components/ui/pagination.tsx:117-147 | the `useMemo` callback builds exactly PagesSpec |
| Pagination.FewPages | src/components/ui/pagination.tsx:121-124 | with at most five pages the items are exactly 1..totalPages |
| Pagination.ManyPagesEnds | src/components/ui/pagination.tsx:126-143 | with more than five pages the list starts at 1, ends at totalPages and has 3 to 7 entries, for any current page |
| Pagination.PagesIncreasing | src/components/ui/pagination.tsx:126-143 | page numbers strictly increase along the list for any current page, so none repeats |
| Pagination.EllipsisCountOf | src/components/ui/pagination.tsx:128-141 | the list holds one ellipsis for currentPage > 3 and one for currentPage < totalPages − 2 |
| Pagination.EllipsisPlacement | src/components/ui/pagination.tsx:128-141 | for a current page in range, the second entry is an ellipsis iff currentPage > 3 and the one before last iff currentPage < totalPages − 2 |
| Pagination.EllipsisHidesPages | src/components/ui/pagination.tsx:128-141 | every ellipsis sits between two pages and stands for at least one page that is not listed |
| Pagination.CurrentListed | src/components/ui/pagination.tsx:126-143 | a current page between 1 and totalPages is always listed |
| Pagination.ControlsOf | src/components/ui/pagination.tsx:149-181 | nothing is rendered iff totalPages ≤ 1; Previous is disabled iff currentPage = 1 and Next iff currentPage = totalPages |
| Pagination.ControlsStayInRange | src/components/ui/pagination.tsx:156-181 | from a page in range an enabled button leads to a page in range |
| TagInput.TagsAfterKey | src/components/playground/tag-input.tsx:23-35 | a key press adds at most one tag |
| TagInput.InputAfterKey | src/components/playground/tag-input.tsx:23-35 | a key press either keeps the typed text or clears it |
| TagInput.RemoveTagFrom | src/components/playground/tag-input.tsx:37-39 | the result holds exactly the tags other than the removed one |
| TagInput.EnterAdds | src/components/playground/tag-input.tsx:24-31 | Enter on non-blank text clears the text and appends its trimmed lower-case form exactly when that tag is new and the list has room |
| TagInput.AddedTagShape | src/components/playground/tag-input.tsx:26 | an added tag is non-empty, has no surrounding white space and no upper-case ASCII letter |
| TagInput.EnterBlankNoChange | src/components/playground/tag-input.tsx:24 | Enter on blank text changes neither the tags nor the text |
| TagInput.BackspaceDropsLast | src/components/playground/tag-input.tsx:32-33 | Backspace on empty text drops exactly the last tag |
| TagInput.BackspaceWithText | src/components/playground/tag-input.tsx:32 | Backspace on non-empty text leaves the tags alone |
| TagInput.DisabledKeepsTags | src/components/playground/tag-input.tsx:37-67 | a full list disables the input, so a key press changes neither the tags nor the text; removing a listed tag from a valid full list enables it again |
| TagInput.RemoveTagFromDistinct | src/components/playground/tag-input.tsx:37-39 | on a list without repeats, removal takes away that tag only, so the list shrinks by one iff the tag was there |
| TagInput.EventsKeepValid | src/components/playground/tag-input.tsx:23-39 | every key press and removal keeps the list without repeats and within `maxTags` |
| TagInput.TagField.constructor | src/components/playground/tag-input.tsx:15-21 | starts with the given tags, empty text and `maxTags` defaulting to 10 |
| TagInput.TagField.Edit | src/components/playground/tag-input.tsx:64-67 | replaces the text unless the list is full (the input is then disabled), keeps the tags and the field's invariant |
| TagInput.TagField.KeyDown | src/components/playground/tag-input.tsx:23-67 | on an enabled input the new tags and text are TagsAfterKey and InputAfterKey of the old ones; on a full (disabled) one nothing changes; the invariant is kept |
| TagInput.TagField.RemoveTag | src/components/playground/tag-input.tsx:37-39 | the new tags are RemoveTagFrom of the old ones, text unchanged, invariant kept |
| TagInput.TagField.IsDisabled | src/components/playground/tag-input.tsx:66-67 | disabled iff the list has reached `maxTags`, which under the invariant means exactly `maxTags` tags |
| IssueText.RoleLabel | src/components/playground/create-issue-modal.tsx:48 | the label reads "Usuário" iff the role is `user`, "Agente" otherwise |
| IssueText.Cut | src/components/playground/create-issue-modal.tsx:48 | content within the limit is kept whole; longer content keeps its first `limit` characters followed by `...` |
| IssueText.ExcerptCovers | src/components/playground/create-issue-modal.tsx:44-50 | the excerpt has one line per entry for the last min(6, n) entries, in their order, each labelled by role with its content cut |
| IssueText.CutIsPrefix | src/components/playground/create-issue-modal.tsx:48 | a cut content is the real content or its start followed by `...` |
| IssueText.ShownPrompt | src/components/playground/create-issue-modal.tsx:69 | an empty system prompt is shown as a non-empty placeholder; any other prompt is shown as is |
| IssueText.Head | src/components/playground/create-issue-modal.tsx:52-60 | the context block opens with the `## Contexto` heading |
| IssueText.RenderEnds | src/components/playground/create-issue-modal.tsx:52-99 | a body made of sections opens with the first section's text and closes with the last one's |
| IssueModal.ShownContext | src/components/playground/create-issue-modal.tsx:94 | an empty additional context is replaced by a non-empty sentence; any other is shown as is |
| IssueModal.BodySectionsShape | src/components/playground/create-issue-modal.tsx:39-99 | the sections come in their fixed order; the error section is there iff some message has an error; configuration and additional context always are |
| IssueModal.ErrorQuotesFirst | src/components/playground/create-issue-modal.tsx:39-42 | the error section quotes the error of the first message that has one |
| IssueModal.IssueBodyEnds | src/components/playground/create-issue-modal.tsx:52-99 | the body opens with the context heading and closes with the footer line |
| IssueModal.EmptyFieldsShown | src/components/playground/create-issue-modal.tsx:69-94 | an empty additional context shows the fixed sentence and an empty prompt shows `(vazio)` |
| IssueModal.Toggled | src/components/playground/create-issue-modal.tsx:134-140 | the tag is in the result iff it was not in the labels; every other label's membership is unchanged |
| IssueModal.ToggleTwiceAbsent | src/components/playground/create-issue-modal.tsx:134-140 | toggling an absent label twice gives back the same list |
| IssueModal.ToggleTwicePresent | src/components/playground/create-issue-modal.tsx:134-140 | toggling a present label twice, on a list without repeats, gives the same labels, same length, still without repeats (the label moves to the end) |
| IssueModal.InitialTitle | src/components/playground/create-issue-modal.tsx:111-113 | the title starts as `[Playground] ` followed by the session name, if any |
| IssueModal.IssueDialog.constructor | src/components/playground/create-issue-modal.tsx:111-116 | the initial title, an empty additional context, no created URL and the labels `playground`, `bug` |
| IssueModal.IssueDialog.SetTitle | src/components/playground/create-issue-modal.tsx:203-208 | the title becomes the typed text; context, labels and URL stay as they were |
| IssueModal.IssueDialog.SetContext | src/components/playground/create-issue-modal.tsx:229-235 | the additional context becomes the typed text; title, labels and URL stay as they were |
| IssueModal.IssueDialog.Close | src/components/playground/create-issue-modal.tsx:175-179 | the created URL is forgotten, so the form shows again; title, context and labels stay as they were |
| IssueModal.IssueDialog.ToggleLabel | src/components/playground/create-issue-modal.tsx:134-140 | the labels become Toggled of the old labels |
| IssueModal.IssueDialog.Create | src/components/playground/create-issue-modal.tsx:118-132 | sends RequestFor of the title, context and labels as they were before the call; the created URL is recorded only when a request was sent and the call succeeded |
| IssueModal.RequestFor | src/components/playground/create-issue-modal.tsx:118-127 | nothing is sent iff the title is blank; otherwise the trimmed title and the current labels are sent |
| IssueModal.SentTitleTrimmed | src/components/playground/create-issue-modal.tsx:119-124 | a sent title is non-empty with no white space at either end |
| GithubTemplate.Append | src/lib/github.ts:80-133 | one `template +=` step extends the text rendered so far by exactly the next section |
| GithubTemplate.GenerateIssueTemplate | src/lib/github.ts:50-136 | the step-by-step build equals the template made of the sections TemplateSections selects |
| GithubTemplate.TemplateSectionsShape | src/lib/github.ts:80-127 | the sections come in their fixed order; the error section is there iff an error is given, the additional context iff one is given; the configuration always is |
| GithubTemplate.TemplateEnds | src/lib/github.ts:69-133 | the template opens with the context heading and closes with the footer line |
| GithubTemplate.TemplateShowsFields | src/lib/github.ts:80-97 | a given error is quoted in a fenced block; an empty prompt is shown as `(vazio)` |
| MockAgent.ModelOf | src/app/api/playground/execute/route.ts:9 | a non-empty model override wins, then a non-empty model, then `gemini-3-flash` |
| MockAgent.OrElseNumber | src/app/api/playground/execute/route.ts:10 | a present non-zero number is kept; a missing or zero one gives the fallback |
| MockAgent.TemperatureNeverZero | src/app/api/playground/execute/route.ts:10 | the temperature used is never 0: a zero override and a zero temperature both fall back to 0.7 |
| MockAgent.TurnNumber | src/app/api/playground/execute/route.ts:12 | the turn is at least 1 and the history holds between 2(n−1) and 2n−1 entries, i.e. one turn per user/assistant pair plus one |
| MockAgent.LastAssistant | src/app/api/playground/execute/route.ts:59 | a non-empty result is the content of some assistant entry, and whenever an assistant entry exists the result is the content of the last one |
| MockAgent.LastAssistantIndex | src/app/api/playground/execute/route.ts:59 | finds an assistant entry at or after the given one with no assistant entry after it |
| MockAgent.ToolChoice | src/app/api/playground/execute/route.ts:14-48 | a message mentioning `agend` gets search_patient then get_available_slots; otherwise one mentioning `cancel` gets search_patient then get_appointments; any other gets no tool call |
| MockAgent.RuleFor | src/app/api/playground/execute/route.ts:64-78 | the chosen reply rule holds for the message and the last assistant text, and no rule checked before it holds |
| MockAgent.FirstDigit | src/app/api/playground/execute/route.ts:67 | finds the first digit of the message, or reports that there is none |
| MockAgent.DigitRun | src/app/api/playground/execute/route.ts:67 | the run of at most `max` digits from a position is as long as it can be |
| MockAgent.TimeMatch | src/app/api/playground/execute/route.ts:67 | `/\d{1,2}[h:]?\d{0,2}/` finds nothing iff the message has no digit; a match is 1 to 5 characters long, starts with a digit and occurs in the message |
| MockAgent.ConfirmTimeQuotesMessage | src/app/api/playground/execute/route.ts:66-67 | when the confirmation rule is chosen, the time pattern always matches, so the fallback text is never shown |
| MockAgent.GreetingCarriesTurn | src/app/api/playground/execute/route.ts:77 | the greeting starts with `[MOCK - Turn `, then the turn number's digits, which read back as the turn, then `]` |
| MockAgent.JitterRange | src/app/api/playground/execute/route.ts:80-94 | `base + Math.floor(r * span)` lies in [base, base + span) for r in [0, 1) |
| MockAgent.ToolLogs | src/app/api/playground/execute/route.ts:50-56 | one success log per tool call, in the same order |
| MockAgent.MockReply | src/app/api/playground/execute/route.ts:58-87 | the assistant and final response are the same text, chosen by RuleFor from the lower-case message, the last assistant text and the turn number; the tool calls are ToolCallsFor the message |
| MockAgent.MockTokens | src/app/api/playground/execute/route.ts:80-89 | input tokens lie in [800, 1400), output tokens in [200, 600), and the cost is (input + 2·output) / 10⁶ dollars |
| MockAgent.MockLogsShape | src/app/api/playground/execute/route.ts:107-137 | the logs are context, input guardrail, one tool log per call (name and latency), LLM, output guardrail, all successful |
| MockAgent.SumDurations | src/app/api/playground/execute/route.ts:176-179 | the `reduce` loop returns the total duration of the logs |
| MockAgent.Post | src/app/api/playground/execute/route.ts:141-189 | the handler's answer is PostOf its inputs: parse, then try the service, then build the mock |
| MockAgent.WhenMock | src/app/api/playground/execute/route.ts:141-189 | a server error iff the text is not JSON, or the mock cannot read the body and the service gave no answer to forward; the mock iff the body was read and the agent is not configured, unreachable, answered with an error status or with a body that is not JSON; the service's answer iff the text is JSON and the service answered ok |
| MockAgent.UnreadableForwarded | src/app/api/playground/execute/route.ts:143-158 | a JSON body whose fields the mock cannot read is still forwarded when the service answers ok, while text that is not JSON gives a 500 before the service is tried |
| MockAgent.MockTotal | src/app/api/playground/execute/route.ts:174-181 | a mock's `total_ms` is the sum of its log durations: the four fixed steps' jitters plus the tool latencies, not the separately drawn latencies |
| MockAgent.MockLogsTotal | src/app/api/playground/execute/route.ts:107-137 | the total duration of the mock logs is the four step jitters plus the tool latencies |
| MockAgent.TwoDurations | src/app/api/playground/execute/route.ts:176-179 | the total of a two-entry log list is the sum of its two durations |
| MockAgent.ToolLogsDuration | src/app/api/playground/execute/route.ts:50-56 | the tool logs' total duration equals the sum of the tool calls' latencies |
| ExecutionLogs.AnyFailedMeans | src/components/playground/execution-logs.tsx:33 | `some(status === "error")` holds iff some log failed |
| ExecutionLogs.Summarize | src/components/playground/execution-logs.tsx:28-35 | no summary (nothing rendered) iff there are no logs; otherwise the step count is the number of logs and the success and tool counts do not exceed it |
| ExecutionLogs.SummaryMeans | src/components/playground/execution-logs.tsx:32-35 | the total is the sum of durations with a missing one as 0; errors are flagged iff some log failed; the success and tool counts are positive iff such a log exists; successes and failures together do not exceed the steps |
| ExecutionLogs.AllSucceeded | src/components/playground/execution-logs.tsx:33-34 | when every log succeeded the header reads n/n ok and no error is flagged |
| ExecutionLogs.ToolsText | src/components/playground/execution-logs.tsx:58-60 | the tool count is shown iff it is non-zero |
| ExecutionLogs.OkTextReadsBack | src/components/playground/execution-logs.tsx:66 | the `successCount/steps ok` text holds both counts in decimal, separated by a slash, and they read back |
| ExecutionLogs.ToolsPlural | src/components/playground/execution-logs.tsx:58-60 | the tool text starts with the count and ends in `tools` iff the count is not 1; a single call reads `1 tool` |
| ExecutionLogs.DurationUnits | src/components/playground/execution-logs.tsx:69-71 | a total under 1000 is shown in whole milliseconds (and reads back); from 1000 on, in seconds with two decimals |
| ExecutionLogs.OneLast | src/components/playground/execution-logs.tsx:84-88 | exactly the final entry is marked as last |
| Sidebar.ActiveFlags | src/components/layout/sidebar.tsx:39-41 | one flag per navigation item, in order, set iff that item is active for the path |
| Sidebar.ActiveRule | src/components/layout/sidebar.tsx:40-41 | Dashboard is active iff the path is exactly `/`; every other item iff the path starts with its href |
| Sidebar.AgentsPrefixActive | src/components/layout/sidebar.tsx:41 | example of the prefix test (the general rule is ActiveRule): `/agents/new` and also `/agentsX` highlight Agentes |
| Sidebar.HrefsApart | src/components/layout/sidebar.tsx:16-22 | no item's href other than `/` starts with another item's href |
| Sidebar.AtMostOneActive | src/components/layout/sidebar.tsx:16-41 | for any path at most one item is highlighted |
| Sidebar.RootPage | src/components/layout/sidebar.tsx:17-41 | example: on `/` only Dashboard is highlighted (the general rule is ActiveRule and AtMostOneActive) |
| Playground.RequestFor | src/app/playground/page.tsx:57-87 | no request is made iff no agent is selected; the request carries the user's text, the agent, the model and the history before this message |
| Playground.ReplyContent | src/app/playground/page.tsx:92 | the reply shown is `final_response` when non-empty, otherwise `assistant_response` |
| Playground.SendWithoutAgent | src/app/playground/page.tsx:57-60 | with no agent selected a send changes neither the messages nor the configuration |
| Playground.SendAnswered | src/app/playground/page.tsx:62-115 | an answered send appends the user's message and the reply, without an error, to the old messages, and appends the same pair to the history, leaving the rest of the configuration alone |
| Playground.SendRaised | src/app/playground/page.tsx:62-126 | a failed send appends the user's message and an empty assistant message whose error is the thrown `Error`'s message (kept even when empty) or `Erro desconhecido` for any other thrown value; that message counts as failed exactly when its error text is non-empty; the configuration is unchanged |
| Playground.SendKeepsPairs | src/app/playground/page.tsx:72-115 | a history of user/assistant pairs stays one; its turn number is one more than the number of pairs; after an answered send the turn number grows by one and the last assistant turn is the reply just shown |
| Playground.SaveAfterSend | src/app/playground/page.tsx:214 | after any send with an agent selected the session can be saved; after a clear it cannot |
| Playground.SaveCallFor | src/app/playground/page.tsx:146-162 | an update of the current session iff one is being edited, otherwise a creation under the configured agent; both carry the form data, configuration and messages |
| Playground.SessionAfterSave | src/app/playground/page.tsx:146-165 | an edited session keeps its id; a successful creation makes the new session current; a failed save changes nothing |
| Playground.SecondSaveUpdates | src/app/playground/page.tsx:146-165 | after a successful save, saving again updates rather than creates |
| Playground.Page.constructor | src/app/playground/page.tsx:19-38 | the default configuration, no messages and no current session |
| Playground.Page.SendMessage | src/app/playground/page.tsx:55-130 | the request, new messages and new configuration are RequestFor, MessagesAfterSend and ConfigAfterSend of the old state (so an answer appends the reply, and a thrown `Error` appends its own message, empty or not, with `Erro desconhecido` only for other thrown values) |
| Playground.Page.ClearChat | src/app/playground/page.tsx:132-137 | no messages, no current session, an empty history with the rest of the configuration kept, and saving disabled |
| Playground.Page.SaveSession | src/app/playground/page.tsx:139-170 | the call made is SaveCallFor of the current state; the current session becomes SessionAfterSave of the outcome |
| Playground.Page.LoadSession | src/app/playground/page.tsx:46-53 | the configuration, messages and current session become those of the loaded session |
| OrderedMap.Get | src/hooks/use-agent-distribution.ts:39 | `get` finds nothing iff the key was never set |
| OrderedMap.Set | src/hooks/use-agent-distribution.ts:39 | `set` keeps a present key in place and appends a new one, stores the value, leaves every other key's value alone and keeps keys unique |
| OrderedMap.RunTally | src/hooks/use-agent-distribution.ts:37-41 | the `for` loop over the rows leaves exactly Tally of the rows |
| OrderedMap.TallyGet | src/hooks/use-agent-distribution.ts:37-41 | the value a key ends with is that key's own fold over its rows, nothing if it has none |
| OrderedMap.TallyKeys | src/hooks/use-agent-distribution.ts:37-44 | `counts.entries()` yields the rows' keys in order of first appearance, each once |
| OrderedMap.TallySum | src/hooks/use-agent-distribution.ts:37-41 | when each step adds a row's weight to its entry, the entries add up to the total weight of the rows |
| Grouping.FoldCount | src/hooks/use-agent-distribution.ts:39 | counting with `(get ?? 0) + 1` gives each key the number of its rows |
| Grouping.RunGrouped | src/hooks/use-agent-distribution.ts:34-50 | the loop followed by the map and the sort yields Grouped of the rows |
| Grouping.GroupedKeys | src/hooks/use-agent-distribution.ts:34-50 | the output has one record per key that occurs in the rows, and no other |
| Grouping.GroupedEntry | src/hooks/use-agent-distribution.ts:44-49 | every output record is built from its key's own fold over the rows |
| Grouping.GroupedSum | src/hooks/use-agent-distribution.ts:37-50 | totals survive the grouping: the records' amounts add up to the rows' amounts |
| Grouping.GroupedStable | src/hooks/use-agent-distribution.ts:44-50 | records with equal sort keys keep the order in which their keys first appeared |
| StableSort.SortDesc | src/hooks/use-agent-distribution.ts:50 | the result is ordered by descending key and is a permutation of the input |
| StableSort.SortDescStable | src/hooks/use-agent-distribution.ts:50 | sorting keeps the relative order of rows with the same key |
| StableSort.SumOfSortDesc | src/hooks/use-agent-distribution.ts:50 | sorting does not change a total over the rows |
| StableSort.SortDescDistinct | src/hooks/use-agent-distribution.ts:50 | rows that differ in some projection still do after sorting |
| StableSort.CountSortDesc | src/hooks/use-agent-distribution.ts:50 | sorting does not change how many rows pass a test |
| PlaygroundTypes.FirstError | src/components/playground/create-issue-modal.tsx:39 | `find(m => m.error)` finds nothing iff no message has an error, and otherwise the first one that has |

## Left out

- Dates and time zones: `startOfHour`, `format`, `toISOString`, local `getHours`, daylight saving. Each timestamp is replaced by the integer hour and day keys the hooks derive from it. Date strings are compared through those keys, in the same order.
- `getPeriodInterval` (`src/hooks/use-cost-metrics.ts:29-38`, and its exported twin in `src/types/metrics.ts:35`) is called at `use-cost-metrics.ts:44`, but its result `interval` is never used, so it is not modelled.
- Query errors: `useMetrics` (use-metrics.ts:37), `usePerformanceMetrics` (use-performance-metrics.ts:77), `useCostMetrics` (use-cost-metrics.ts:67 and :83), `useTurnsOverTime` (use-turns-over-time.ts:53) and `useAgentDistribution` (use-agent-distribution.ts:31) rethrow a database error, and react-query then reports an error instead of metrics. `DashboardMetrics.ComputeDashboard`, `PerformanceMetrics.ComputePerformance`, `CostMetrics.ComputeCostMetrics`, `TurnsOverTime.RunTurnsOverTime` and `AgentDistribution.RunDistribution` model only the successful query, as a total function of the fetched rows. Only `Agents.UseAgents` models the failure path (the 42P01 rule and the rethrown errors).
- Supabase query building: the `gte`/`lt` filters, `order("created_at")`, `count: "exact"`, the react-query `enabled` flags, caching and polling. Each hook receives the rows the query would return, in the order it would return them. The window bounds and the 42P01 handling are modelled.
- Floating point: costs, rates and averages are exact reals. "Percentages add up to 100" holds only in that idealisation. `toFixed`, the `parseFloat(toFixed(6))` cost rounding, `toLocaleString`, `formatCurrency`, `formatLatency` and `formatMs` are left out, or passed in as functions when a text depends on them.
- TurnsOverTime.TurnsOverTimeMonth: the 30-day labels are absolute days, while `format(slot, "dd/MM")` has no year and the query has only a lower bound. A row dated a year or more after one of the 30 slots would be counted under that slot by the dashboard, but is not counted by the model. Rows dated in the future are outside this model.
- MockAgent.MockTokens: states the cost as the exact value (in + 2·out)/10⁶, without the six-decimal rounding of `toFixed(6)`. That rounding does not change the value except through floating-point error.
- `String(number)` for reals (temperatures, costs) is a parameter or an uninterpreted text. Integers are printed and parsed by `Common.IntToString`.
- `JSON.stringify` and `JSON.parse` are uninterpreted texts: the object cells of the CSV and the context blocks of the issue templates.
- `toLowerCase` folds ASCII letters only; Unicode case mapping is not modelled, so `TagInput.NewTag` keeps a non-ASCII capital as it is. `trim` (`Common.Trim`, used by `TagInput.NewTag` and `IssueModal.RequestFor`) strips the full ECMAScript set: tab, vertical tab, form feed, space, no-break space, the byte-order mark, the other Unicode space separators (U+1680, U+2000 to U+200A, U+202F, U+205F, U+3000) and the line terminators LF, CR, U+2028 and U+2029.
- Strings are sequences of characters, not UTF-16 code units. `slice(0, 200)` and `length` therefore count characters, even for text outside the Basic Multilingual Plane.
- `diff_main` and `diff_cleanupSemantic` are foreign. Their output script is an input, and their contract is a precondition where a lemma needs it. The two callers count different scripts: `DiffViewer` renders and counts the script after `diff_cleanupSemantic` (diff-viewer.tsx:20), while `calculateDiffPercentage` counts the raw `diff_main` script (diff-viewer.tsx:101). The cleanup can turn an equal segment into a deletion plus an insertion, so for the same two texts the two percentages can differ. The model does not relate the two scripts.
- The details objects of execution-log entries are not modelled, because nothing reads them.
- `Math.random`, `crypto.randomUUID` and `new Date()` are parameters: `MockAgent.Draws` holds reals in [0, 1), and `Playground.Stamps` holds ids and timestamps.
- The network is an input. The agent service's answer is `MockAgent.Upstream`: not configured, unreachable (which covers the 15-second timeout), or an answer with a status and a body. The playground call's result is `Playground.Outcome`, and the session save's result is `Playground.SaveOutcome`. `AGENTS_API_URL` is the `NotConfigured` case.
- MockAgent.RequestBody: the fields are typed as the mock reads them. A field of another type that does not make `generateMockResponse` throw (a numeric `model`, a string `chat_history`) is not modelled; a body that makes it throw is `MockAgent.Unreadable`.
- The `_mock: true` flag of the route's answer is the `Mock` constructor of `MockAgent.Answer`.
- `handleCreateIssue` of the playground page and `createGitHubIssue` are network calls and are not part of this model. `IssueModal.IssueDialog.Create` takes their outcome as an input.
- Rendering, toasts, dialog-open flags (`saveModalOpen`, `issueModalOpen`, `showConfig`), the expanded state of the log panel and the CSV download (`Blob`, object URL, link click) are UI effects and are left out.
- Concurrency: overlapping polls and the interleaving of awaited calls are not modelled. Each handler is one atomic transition. `handleSendMessage` writes the history with a functional update, and the model applies it to the configuration the handler started from.
- The form modals (adding and editing agents, saving sessions, configuration overrides, model parameters) only check for non-empty text and assemble payloads, and are left out.
