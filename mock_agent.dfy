/** The playground's execute endpoint: it forwards the request to the
    agents service when one is configured and answers, and otherwise
    replies with a canned response chosen by keywords of the message. The
    values `Math.random` supplies are parameters. */
module MockAgent {
  import opened Common
  import opened PlaygroundTypes

  /** The request body fields the mock reads; each may be absent. */
  datatype RequestBody = RequestBody(
    userMessage: Option<string>,
    model: Option<string>,
    modelOverride: Option<string>,
    temperature: Option<real>,
    temperatureOverride: Option<real>,
    chatHistory: Option<seq<ChatMessage>>
  )

  const DEFAULT_MODEL: string := "gemini-3-flash"
  const DEFAULT_TEMPERATURE: real := 0.7

  // ---------------------------------------------------------------------
  // Request fields

  /** `model_override || model || "gemini-3-flash"` */
  function ModelOf(b: RequestBody): (m: string)
    ensures b.modelOverride.Some? && b.modelOverride.value != "" ==> m == b.modelOverride.value
    ensures (b.modelOverride.None? || b.modelOverride.value == "") && b.model.Some? && b.model.value != ""
      ==> m == b.model.value
    ensures (b.modelOverride.None? || b.modelOverride.value == "") && (b.model.None? || b.model.value == "")
      ==> m == DEFAULT_MODEL
  {
    OrElse(b.modelOverride, OrElse(b.model, DEFAULT_MODEL))
  }

  /** `x || fallback` for an optional number: absent and 0 are falsy. */
  function OrElseNumber(x: Option<real>, fallback: real): (r: real)
    ensures x.Some? && x.value != 0.0 ==> r == x.value
    ensures x.None? || x.value == 0.0 ==> r == fallback
  {
    if x.Some? && x.value != 0.0 then x.value else fallback
  }

  /** `temperature_override || temperature || 0.7` */
  function TemperatureOf(b: RequestBody): real {
    OrElseNumber(b.temperatureOverride, OrElseNumber(b.temperature, DEFAULT_TEMPERATURE))
  }

  /** The temperature is never 0: an explicit 0 falls back to 0.7. */
  lemma TemperatureNeverZero(b: RequestBody)
    ensures TemperatureOf(b) != 0.0
    ensures b.temperatureOverride == Some(0.0) && b.temperature == Some(0.0) ==> TemperatureOf(b) == DEFAULT_TEMPERATURE
  {
  }

  function HistoryOf(b: RequestBody): seq<ChatMessage> {
    b.chatHistory.GetOr([])
  }

  /** `Math.floor(chatHistory.length / 2) + 1`: a user and an assistant
      entry make one turn. */
  function TurnNumber(history: seq<ChatMessage>): (n: nat)
    ensures n >= 1
    ensures 2 * (n - 1) <= |history| < 2 * n
  {
    |history| / 2 + 1
  }

  /** The content of the last assistant entry, or "" when there is none. */
  function LastAssistant(history: seq<ChatMessage>): (c: string)
    ensures c != "" ==> exists i :: 0 <= i < |history| && history[i].role == "assistant" && history[i].content == c
    ensures forall i :: 0 <= i < |history| && history[i].role == "assistant" ==>
      c == history[LastAssistantIndex(history, i)].content
    decreases |history|
  {
    if history == [] then ""
    else if history[|history| - 1].role == "assistant" then history[|history| - 1].content
    else LastAssistant(history[..|history| - 1])
  }

  /** The index of the last assistant entry, given that entry `i` is one. */
  function LastAssistantIndex(history: seq<ChatMessage>, i: nat): (j: nat)
    requires i < |history| && history[i].role == "assistant"
    ensures i <= j < |history| && history[j].role == "assistant"
    ensures forall k :: j < k < |history| ==> history[k].role != "assistant"
    decreases |history|
  {
    if history[|history| - 1].role == "assistant" then |history| - 1
    else LastAssistantIndex(history[..|history| - 1], i)
  }

  // ---------------------------------------------------------------------
  // Tool calls

  const SEARCH_ARGS: string := "{\"phone\":\"+5581999999999\"}"
  const SEARCH_RESULT: string := "{\"found\":true,\"name\":\"Jo\U{00E3}o Silva\",\"id\":\"p-123\"}"

  /** The two calls of a scheduling request. */
  const SCHEDULING_CALLS: seq<ToolCall> := [
    ToolCall("search_patient", SEARCH_ARGS, SEARCH_RESULT, 234, "tc-1"),
    ToolCall("get_available_slots", "{\"date\":\"2026-02-10\",\"professional_id\":\"prof-1\"}",
      "{\"slots\":[\"14:00\",\"15:00\",\"16:00\"]}", 156, "tc-2")
  ]

  /** The two calls of a cancellation request. */
  const CANCELLATION_CALLS: seq<ToolCall> := [
    ToolCall("search_patient", SEARCH_ARGS, SEARCH_RESULT, 198, "tc-1"),
    ToolCall("get_appointments", "{\"patient_id\":\"p-123\",\"status\":\"scheduled\"}",
      "{\"appointments\":[{\"date\":\"2026-02-12\",\"time\":\"14:00\",\"professional\":\"Dra. Maria\"}]}", 167, "tc-2")
  ]

  /** `mockToolCalls`, chosen by the lower-cased message. */
  function ToolCallsFor(lower: string): seq<ToolCall> {
    if Contains(lower, "agend") then SCHEDULING_CALLS
    else if Contains(lower, "cancel") then CANCELLATION_CALLS
    else []
  }

  function ToolName(t: ToolCall): string { t.name }

  /** Scheduling wins over cancelling; a message with neither word calls no
      tool. */
  lemma ToolChoice(lower: string)
    ensures Contains(lower, "agend") ==> MapSeq(ToolCallsFor(lower), ToolName) == ["search_patient", "get_available_slots"]
    ensures !Contains(lower, "agend") && Contains(lower, "cancel") ==>
      MapSeq(ToolCallsFor(lower), ToolName) == ["search_patient", "get_appointments"]
    ensures !Contains(lower, "agend") && !Contains(lower, "cancel") ==> ToolCallsFor(lower) == []
  {
  }

  // ---------------------------------------------------------------------
  // The reply

  /** The reply rules, in the order they are tried. */
  datatype Rule = AskTime | ConfirmTime | OfferSlots | ConfirmCancel | Confirmed | Thanks | Greeting

  function Order(r: Rule): nat {
    match r
    case AskTime => 1
    case ConfirmTime => 2
    case OfferSlots => 3
    case ConfirmCancel => 4
    case Confirmed => 5
    case Thanks => 6
    case Greeting => 7
  }

  /** The condition of each rule, on the lower-cased message and the last
      assistant message. */
  predicate Holds(r: Rule, lower: string, last: string) {
    match r
    case AskTime => Contains(lower, "agend") && Contains(last, "hor\U{00E1}rio")
    case ConfirmTime => Contains(lower, "14") || Contains(lower, "15") || Contains(lower, "16")
    case OfferSlots => Contains(lower, "agend")
    case ConfirmCancel => Contains(lower, "cancel")
    case Confirmed => Contains(lower, "sim") || Contains(lower, "confirma")
    case Thanks => Contains(lower, "obrigad") || Contains(lower, "valeu") || Contains(lower, "tchau")
    case Greeting => true
  }

  /** The `if`/`else if` chain: the first rule whose condition holds. */
  function RuleFor(lower: string, last: string): (r: Rule)
    ensures Holds(r, lower, last)
    ensures forall q: Rule :: Order(q) < Order(r) ==> !Holds(q, lower, last)
  {
    if Holds(AskTime, lower, last) then AskTime
    else if Holds(ConfirmTime, lower, last) then ConfirmTime
    else if Holds(OfferSlots, lower, last) then OfferSlots
    else if Holds(ConfirmCancel, lower, last) then ConfirmCancel
    else if Holds(Confirmed, lower, last) then Confirmed
    else if Holds(Thanks, lower, last) then Thanks
    else Greeting
  }

  predicate IsDigit(c: char) {
    '0' <= c <= '9'
  }

  /** The first digit of `s`, if any. */
  function FirstDigit(s: string): (i: Option<nat>)
    ensures i.None? ==> forall k :: 0 <= k < |s| ==> !IsDigit(s[k])
    ensures i.Some? ==> i.value < |s| && IsDigit(s[i.value])
    ensures i.Some? ==> forall k :: 0 <= k < i.value ==> !IsDigit(s[k])
    decreases |s|
  {
    if s == [] then None
    else if IsDigit(s[0]) then Some(0)
    else
      var j := FirstDigit(s[1..]);
      if j.Some? then Some(j.value + 1) else None
  }

  /** How many digits, at most `max`, follow position `i`. */
  function DigitRun(s: string, i: nat, max: nat): (n: nat)
    requires i <= |s|
    ensures n <= max && i + n <= |s|
    ensures forall k :: i <= k < i + n ==> IsDigit(s[k])
    ensures n < max && i + n < |s| ==> !IsDigit(s[i + n])
    decreases max
  {
    if max == 0 || i == |s| || !IsDigit(s[i]) then 0 else 1 + DigitRun(s, i + 1, max - 1)
  }

  /** Where the greedy match of `\d{1,2}[h:]?\d{0,2}` starting at `i`
      ends. */
  function TimeEnd(s: string, i: nat): (e: nat)
    requires i < |s| && IsDigit(s[i])
    ensures i < e <= |s| && e <= i + 5
  {
    var a := i + DigitRun(s, i, 2);
    var b := if a < |s| && (s[a] == 'h' || s[a] == ':') then a + 1 else a;
    b + DigitRun(s, b, 2)
  }

  /** `lowerMsg.match(/\d{1,2}[h:]?\d{0,2}/)?.[0]`: the leftmost match. */
  function TimeMatch(s: string): (m: Option<string>)
    ensures m.None? <==> forall k :: 0 <= k < |s| ==> !IsDigit(s[k])
    ensures m.Some? ==> 1 <= |m.value| <= 5 && IsDigit(m.value[0]) && Contains(s, m.value)
  {
    var i := FirstDigit(s);
    if i.None? then None
    else
      var e := TimeEnd(s, i.value);
      ContainsAt(s, s[i.value..e], i.value);
      Some(s[i.value..e])
  }

  const TIME_FALLBACK: string := "o hor\U{00E1}rio selecionado"

  /** The reply text of each rule. */
  function ReplyText(r: Rule, lower: string, turn: nat): string {
    match r
    case AskTime => "Perfeito! Vou confirmar o agendamento. Para qual hor\U{00E1}rio gostaria de agendar?"
    case ConfirmTime =>
      "\U{00D3}timo! Agendamento confirmado para " + TimeMatch(lower).GetOr(TIME_FALLBACK)
      + ". Voc\U{00EA} receber\U{00E1} uma confirma\U{00E7}\U{00E3}o por WhatsApp. Posso ajudar com mais alguma coisa?"
    case OfferSlots =>
      "Claro! Posso ajudar com o agendamento. Encontrei hor\U{00E1}rios dispon\U{00ED}veis na segunda-feira: 14h, 15h e 16h. Qual hor\U{00E1}rio prefere?"
    case ConfirmCancel =>
      "Encontrei uma consulta agendada para 12/02 \U{00E0}s 14h com Dra. Maria. Deseja confirmar o cancelamento?"
    case Confirmed => "Pronto! A\U{00E7}\U{00E3}o confirmada com sucesso. Posso ajudar com mais alguma coisa?"
    case Thanks => "Por nada! Qualquer d\U{00FA}vida, \U{00E9} s\U{00F3} chamar. Tenha um \U{00F3}timo dia! \U{1F60A}"
    case Greeting => GREETING_PREFIX + NatToString(turn) + "]" + GREETING_REST
  }

  const GREETING_PREFIX: string := "[MOCK - Turn "
  const GREETING_REST: string :=
    " Ol\U{00E1}! Sou o assistente CenterFisio. Posso ajudar com agendamentos, cancelamentos, informa\U{00E7}\U{00F5}es sobre procedimentos e conv\U{00EA}nios. Como posso ajudar?"

  /** A message that names 14, 15 or 16 always holds a time, so the
      confirmation quotes it and its fallback text is never used. */
  lemma ConfirmTimeQuotesMessage(lower: string, last: string)
    requires RuleFor(lower, last) == ConfirmTime
    ensures TimeMatch(lower).Some?
  {
    var hour: string;
    if Contains(lower, "14") { hour := "14"; }
    else if Contains(lower, "15") { hour := "15"; }
    else { hour := "16"; }
    var i := ContainsWitness(lower, hour);
    assert lower[i] == lower[i..i + |hour|][0] == '1';
  }

  /** The greeting carries the turn number, which reads back from the
      digits after its opening words. */
  lemma GreetingCarriesTurn(lower: string, turn: nat)
    ensures var text := ReplyText(Greeting, lower, turn);
      var digits := NatToString(turn);
      && StartsWith(text, GREETING_PREFIX)
      && text[|GREETING_PREFIX|..|GREETING_PREFIX| + |digits|] == digits
      && ParseNat(digits) == turn
      && text[|GREETING_PREFIX| + |digits|] == ']'
  {
    var digits := NatToString(turn);
    assert ReplyText(Greeting, lower, turn) == GREETING_PREFIX + digits + "]" + GREETING_REST;
    GreetingParts(GREETING_PREFIX, digits, GREETING_REST);
    NatToStringRoundTrip(turn);
  }

  lemma GreetingParts(prefix: string, digits: string, rest: string)
    ensures var text := prefix + digits + "]" + rest;
      && text[..|prefix|] == prefix
      && text[|prefix|..|prefix| + |digits|] == digits
      && text[|prefix| + |digits|] == ']'
  {
    var text := prefix + digits + "]" + rest;
    assert text[..|prefix|] == prefix;
    assert text[|prefix|..|prefix| + |digits|] == digits;
  }

  // ---------------------------------------------------------------------
  // The mock response

  /** The values `Math.random` supplies, in the order the response uses
      them. */
  datatype Draws = Draws(
    tokensIn: real, tokensOut: real,
    contextMs: real, guardrailInputMs: real, guardrailOutputMs: real, agentMs: real,
    logContext: real, logGuardrailInput: real, logLlm: real, logGuardrailOutput: real
  )

  predicate Unit(x: real) {
    0.0 <= x < 1.0
  }

  /** Every draw is in `[0, 1)`, as `Math.random` promises. */
  predicate ValidDraws(d: Draws) {
    && Unit(d.tokensIn) && Unit(d.tokensOut)
    && Unit(d.contextMs) && Unit(d.guardrailInputMs) && Unit(d.guardrailOutputMs) && Unit(d.agentMs)
    && Unit(d.logContext) && Unit(d.logGuardrailInput) && Unit(d.logLlm) && Unit(d.logGuardrailOutput)
  }

  /** `base + Math.floor(r * span)` */
  function Jitter(base: int, r: real, span: int): int {
    base + (r * span as real).Floor
  }

  lemma JitterRange(base: int, r: real, span: nat)
    requires Unit(r) && span > 0
    ensures base <= Jitter(base, r, span) < base + span
  {
  }

  datatype Latencies = Latencies(contextMs: int, guardrailInputMs: int, guardrailOutputMs: int, agentMs: int, totalMs: int)

  datatype ConfigUsed = ConfigUsed(model: string, temperature: real, systemPrompt: string)

  /** The mock `ReplayResponse`. */
  datatype MockResponse = MockResponse(
    assistantResponse: string,
    finalResponse: string,
    toolCalls: seq<ToolCall>,
    tokensIn: int,
    tokensOut: int,
    costUsd: real,
    latencies: Latencies,
    inputSafe: bool,
    outputSafe: bool,
    sanitized: bool,
    configUsed: ConfigUsed,
    logs: seq<LogEntry>
  )

  /** A tool call as a log entry. */
  function ToolLog(t: ToolCall): LogEntry {
    LogEntry(ToolStep, t.name, Some(t.latencyMs), Succeeded)
  }

  function ToolLogs(calls: seq<ToolCall>): (logs: seq<LogEntry>)
    ensures |logs| == |calls|
    ensures forall i :: 0 <= i < |calls| ==> logs[i] == ToolLog(calls[i])
  {
    if calls == [] then [] else ToolLogs(calls[..|calls| - 1]) + [ToolLog(calls[|calls| - 1])]
  }

  /** `execution_logs`: context and input guardrail, one entry per tool
      call, then the model and the output guardrail. */
  function MockLogs(model: string, calls: seq<ToolCall>, d: Draws): seq<LogEntry> {
    [ LogEntry(ContextStep, "Contexto do paciente carregado", Some(Jitter(35, d.logContext, 30)), Succeeded),
      LogEntry(GuardrailInputStep, "Input validado com sucesso", Some(Jitter(80, d.logGuardrailInput, 60)), Succeeded) ]
    + ToolLogs(calls)
    + [ LogEntry(LlmStep, "Resposta gerada com " + model, Some(Jitter(600, d.logLlm, 500)), Succeeded),
        LogEntry(GuardrailOutputStep, "Output validado com sucesso", Some(Jitter(30, d.logGuardrailOutput, 40)), Succeeded) ]
  }

  /** `generateMockResponse`, with `total_ms` still 0. */
  function GenerateMock(b: RequestBody, d: Draws): MockResponse {
    var lower := ToLower(b.userMessage.GetOr(""));
    var history := HistoryOf(b);
    var calls := ToolCallsFor(lower);
    var reply := ReplyText(RuleFor(lower, LastAssistant(history)), lower, TurnNumber(history));
    var tokensIn := (800.0 + d.tokensIn * 600.0).Floor;
    var tokensOut := (200.0 + d.tokensOut * 400.0).Floor;
    var model := ModelOf(b);
    MockResponse(
      reply, reply, calls, tokensIn, tokensOut,
      tokensIn as real * 0.000001 + tokensOut as real * 0.000002,
      Latencies(Jitter(35, d.contextMs, 30), Jitter(80, d.guardrailInputMs, 60),
                Jitter(30, d.guardrailOutputMs, 40), Jitter(600, d.agentMs, 500), 0),
      true, true, false,
      ConfigUsed(model, TemperatureOf(b), "Voc\U{00EA} \U{00E9} um assistente de atendimento da CenterFisio..."),
      MockLogs(model, calls, d))
  }

  /** The reply follows the first matching rule, and both response fields
      carry it. */
  lemma MockReply(b: RequestBody, d: Draws)
    ensures var lower := ToLower(b.userMessage.GetOr(""));
      var m := GenerateMock(b, d);
      var history := HistoryOf(b);
      && m.assistantResponse == m.finalResponse
      && m.finalResponse == ReplyText(RuleFor(lower, LastAssistant(history)), lower, TurnNumber(history))
      && m.toolCalls == ToolCallsFor(lower)
  {
  }

  /** With draws in `[0, 1)`, the token counts fall in `[800, 1400)` and
      `[200, 600)`, and the cost is one micro-dollar per input token and
      two per output token. */
  lemma MockTokens(b: RequestBody, d: Draws)
    requires ValidDraws(d)
    ensures var m := GenerateMock(b, d);
      && 800 <= m.tokensIn < 1400
      && 200 <= m.tokensOut < 600
      && m.costUsd == (m.tokensIn + 2 * m.tokensOut) as real / 1000000.0
  {
  }

  /** Four fixed entries around one entry per tool call, in call order. */
  lemma MockLogsShape(model: string, calls: seq<ToolCall>, d: Draws)
    ensures var logs := MockLogs(model, calls, d);
      var n := |calls|;
      && |logs| == 4 + n
      && logs[0].step == ContextStep && logs[1].step == GuardrailInputStep
      && logs[n + 2].step == LlmStep && logs[n + 3].step == GuardrailOutputStep
      && (forall i :: 0 <= i < n ==>
            logs[i + 2].step == ToolStep && logs[i + 2].message == calls[i].name
            && logs[i + 2].durationMs == Some(calls[i].latencyMs))
      && forall i :: 0 <= i < |logs| ==> logs[i].status == Succeeded
  {
  }

  // ---------------------------------------------------------------------
  // The endpoint

  /** What the agents service did with the forwarded request. */
  datatype Upstream =
    | NotConfigured
    | Unreachable
    | Answered(ok: bool, body: Option<string>)

  /** The endpoint's answer: the service's own body, the mock, or a 500
      with the error's message. */
  datatype Answer = Forwarded(body: string) | Mock(response: MockResponse) | ServerError(status: int, message: string)

  /** The request body as the handler meets it: `request.json()` throws on
      text that is not JSON; a JSON value whose fields `generateMockResponse`
      cannot read (`null`, a numeric `user_message`) throws only once the
      mock is built; otherwise the fields as the mock reads them. */
  datatype Parsed = NotJson(message: string) | Unreadable(message: string) | Read(body: RequestBody)

  /** The service answered with a success status and a JSON body. */
  predicate ForwardsFrom(upstream: Upstream) {
    upstream.Answered? && upstream.ok && upstream.body.Some?
  }

  /** `POST`: parse, try the service, and only then build the mock. */
  function PostOf(parsed: Parsed, upstream: Upstream, d: Draws): Answer {
    if parsed.NotJson? then ServerError(500, parsed.message)
    else if ForwardsFrom(upstream) then Forwarded(upstream.body.value)
    else if parsed.Unreadable? then ServerError(500, parsed.message)
    else
      var m := GenerateMock(parsed.body, d);
      Mock(m.(latencies := m.latencies.(totalMs := TotalDuration(m.logs))))
  }

  /** The `reduce` over the logs that fills in `total_ms`. */
  method SumDurations(logs: seq<LogEntry>) returns (total: int)
    ensures total == TotalDuration(logs)
  {
    total := 0;
    var i := 0;
    while i < |logs|
      invariant 0 <= i <= |logs|
      invariant total == TotalDuration(logs[..i])
    {
      assert logs[..i + 1][..i] == logs[..i];
      total := total + DurationOf(logs[i]);
      i := i + 1;
    }
    assert logs[..i] == logs;
  }

  /** `POST`: forward the service's answer when there is one, otherwise
      build the mock and total its logs. */
  method Post(parsed: Parsed, upstream: Upstream, d: Draws) returns (answer: Answer)
    ensures answer == PostOf(parsed, upstream, d)
  {
    if parsed.NotJson? {
      return ServerError(500, parsed.message);
    }
    if upstream.Answered? && upstream.ok && upstream.body.Some? {
      return Forwarded(upstream.body.value);
    }
    if parsed.Unreadable? {
      return ServerError(500, parsed.message);
    }
    var mock := GenerateMock(parsed.body, d);
    var total := SumDurations(mock.logs);
    answer := Mock(mock.(latencies := mock.latencies.(totalMs := total)));
  }

  /** A 500 comes from text that is not JSON, or from a body the mock
      cannot read when the service gave no answer to forward; the mock is
      the answer exactly when the body was read and the service is not
      configured, unreachable, failing or unreadable. */
  lemma WhenMock(parsed: Parsed, upstream: Upstream, d: Draws)
    ensures PostOf(parsed, upstream, d).ServerError? <==>
      parsed.NotJson? || (parsed.Unreadable? && !ForwardsFrom(upstream))
    ensures PostOf(parsed, upstream, d).Mock? <==>
      parsed.Read? && (upstream.NotConfigured? || upstream.Unreachable? || !upstream.ok || upstream.body.None?)
    ensures PostOf(parsed, upstream, d).Forwarded? <==> !parsed.NotJson? && ForwardsFrom(upstream)
  {
  }

  /** The service's answer is passed on whatever fields the body holds: a
      body the mock could not read is forwarded all the same. */
  lemma UnreadableForwarded(message: string, upstream: Upstream, d: Draws)
    requires ForwardsFrom(upstream)
    ensures PostOf(Unreadable(message), upstream, d) == Forwarded(upstream.body.value)
    ensures PostOf(NotJson(message), upstream, d) == ServerError(500, message)
  {
  }

  /** The mock's `total_ms` is the sum of its logs' durations: the four
      fixed steps plus the latency of every tool call. */
  lemma MockTotal(parsed: Parsed, upstream: Upstream, d: Draws)
    requires PostOf(parsed, upstream, d).Mock?
    ensures var m := PostOf(parsed, upstream, d).response;
      && m.latencies.totalMs == TotalDuration(m.logs)
      && m.latencies.totalMs
         == Jitter(35, d.logContext, 30) + Jitter(80, d.logGuardrailInput, 60)
          + ToolLatency(m.toolCalls)
          + Jitter(600, d.logLlm, 500) + Jitter(30, d.logGuardrailOutput, 40)
  {
    var m := GenerateMock(parsed.body, d);
    GeneratedLogs(parsed.body, d);
    MockLogsTotal(m.configUsed.model, m.toolCalls, d);
    assert PostOf(parsed, upstream, d).response == m.(latencies := m.latencies.(totalMs := TotalDuration(m.logs)));
  }

  lemma GeneratedLogs(b: RequestBody, d: Draws)
    ensures var m := GenerateMock(b, d); m.logs == MockLogs(m.configUsed.model, m.toolCalls, d)
  {
  }

  lemma MockLogsTotal(model: string, calls: seq<ToolCall>, d: Draws)
    ensures TotalDuration(MockLogs(model, calls, d))
         == Jitter(35, d.logContext, 30) + Jitter(80, d.logGuardrailInput, 60)
          + ToolLatency(calls)
          + Jitter(600, d.logLlm, 500) + Jitter(30, d.logGuardrailOutput, 40)
  {
    var logs := MockLogs(model, calls, d);
    var head := logs[..2];
    var tools := ToolLogs(calls);
    var tail := logs[2 + |tools|..];
    assert logs == head + tools + tail;
    TotalDurationConcat(head + tools, tail);
    TotalDurationConcat(head, tools);
    ToolLogsDuration(calls);
    TwoDurations(head);
    TwoDurations(tail);
  }

  lemma TwoDurations(logs: seq<LogEntry>)
    requires |logs| == 2
    ensures TotalDuration(logs) == DurationOf(logs[0]) + DurationOf(logs[1])
  {
    var first := logs[..1];
    assert first[..0] == [];
    assert TotalDuration(first) == DurationOf(logs[0]);
  }

  /** The total latency of some tool calls. */
  function ToolLatency(calls: seq<ToolCall>): int {
    if calls == [] then 0 else ToolLatency(calls[..|calls| - 1]) + calls[|calls| - 1].latencyMs
  }

  lemma {:induction false} ToolLogsDuration(calls: seq<ToolCall>)
    ensures TotalDuration(ToolLogs(calls)) == ToolLatency(calls)
    decreases |calls|
  {
    if calls != [] {
      var init := calls[..|calls| - 1];
      var logs := ToolLogs(calls);
      ToolLogsDuration(init);
      assert logs[..|logs| - 1] == ToolLogs(init);
    }
  }
}
