/** The records the playground passes around: its configuration, the chat
    history sent to the agent, and the messages shown in the timeline. */
module PlaygroundTypes {
  import opened Common

  /** `{ role, content }`, an entry of the chat history. */
  datatype ChatMessage = ChatMessage(role: string, content: string)

  /** A tool call reported by the agent. Arguments and result are JSON
      objects, carried here as their text. */
  datatype ToolCall = ToolCall(name: string, argsJson: string, resultJson: string, latencyMs: int, toolCallId: string)

  datatype MessageMetrics = MessageMetrics(tokensIn: int, tokensOut: int, cost: real, latency: int)

  /** `PlaygroundMessage`. The id and timestamp are random and clock values
      given from outside. */
  datatype Message = Message(
    id: string,
    role: string,
    content: string,
    timestamp: string,
    metrics: Option<MessageMetrics>,
    toolCalls: Option<seq<ToolCall>>,
    error: Option<string>
  )

  /** `PlaygroundConfig`. The two contexts are JSON objects, carried as
      their text. */
  datatype PlaygroundConfig = PlaygroundConfig(
    agentIdentifier: string,
    model: string,
    systemPrompt: string,
    temperature: real,
    maxTokens: Option<int>,
    patientContext: string,
    crmContext: string,
    chatHistory: seq<ChatMessage>
  )

  /** `m.error` is truthy: present and not empty. */
  predicate HasError(m: Message) {
    m.error.Some? && m.error.value != ""
  }

  /** `messages.find(m => m.error)`, as the index of the message found. */
  function FirstError(messages: seq<Message>): (r: Option<nat>)
    ensures r.None? <==> forall i :: 0 <= i < |messages| ==> !HasError(messages[i])
    ensures r.Some? ==> r.value < |messages| && HasError(messages[r.value])
    ensures r.Some? ==> forall i :: 0 <= i < r.value ==> !HasError(messages[i])
  {
    if messages == [] then None
    else if HasError(messages[0]) then Some(0)
    else
      match FirstError(messages[1..])
      case None => None
      case Some(i) => Some(i + 1)
  }

  function AsChat(m: Message): ChatMessage {
    ChatMessage(m.role, m.content)
  }

  // ---------------------------------------------------------------------
  // Execution logs

  datatype LogStep = ContextStep | GuardrailInputStep | ToolStep | LlmStep | GuardrailOutputStep | CompleteStep | ErrorStep

  datatype LogStatus = Pending | Succeeded | Failed | Skipped

  /** One entry of `execution_logs`, without its `details` object. */
  datatype LogEntry = LogEntry(step: LogStep, message: string, durationMs: Option<int>, status: LogStatus)

  /** `log.duration_ms || 0` */
  function DurationOf(l: LogEntry): int {
    OrZeroInt(l.durationMs)
  }

  /** `logs.reduce((sum, log) => sum + (log.duration_ms || 0), 0)` */
  function TotalDuration(logs: seq<LogEntry>): int {
    if logs == [] then 0 else TotalDuration(logs[..|logs| - 1]) + DurationOf(logs[|logs| - 1])
  }

  lemma {:induction false} TotalDurationConcat(a: seq<LogEntry>, b: seq<LogEntry>)
    ensures TotalDuration(a + b) == TotalDuration(a) + TotalDuration(b)
    decreases |b|
  {
    if b == [] {
      assert a + b == a;
    } else {
      var b' := b[..|b| - 1];
      assert (a + b)[..|a + b| - 1] == a + b';
      TotalDurationConcat(a, b');
    }
  }
}
