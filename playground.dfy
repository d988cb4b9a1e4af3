/** The playground page: the configuration, the chat timeline and the saved
    session it is editing, and how sending a message, clearing the chat,
    saving and loading a session change them. The agent call, the session
    store, random ids and the clock are outside the model: their outcomes
    are parameters. */
module Playground {
  import opened Common
  import opened PlaygroundTypes
  import MockAgent

  /** `defaultConfig` */
  const DEFAULT_CONFIG: PlaygroundConfig :=
    PlaygroundConfig("", "gpt-4", "", 0.7, None, "{}", "{}", [])

  const UNKNOWN_ERROR: string := "Erro desconhecido"

  /** The body sent to the execute endpoint. */
  datatype ExecuteRequest = ExecuteRequest(
    systemPrompt: string,
    chatHistory: seq<ChatMessage>,
    userMessage: string,
    patientContext: string,
    crmContext: string,
    model: string,
    temperature: real,
    agentIdentifier: string
  )

  /** The fields of the endpoint's answer the page reads. */
  datatype ExecuteResult = ExecuteResult(
    finalResponse: string,
    assistantResponse: string,
    tokensIn: int,
    tokensOut: int,
    costUsd: real,
    totalMs: int,
    toolCalls: seq<ToolCall>
  )

  /** How the call ended: an answer, or a thrown value, with its message
      when it is an `Error`. */
  datatype Outcome = Answered(result: ExecuteResult) | Raised(message: Option<string>)

  /** The ids and timestamps the handler draws: one pair for the user's
      message, one for the reply. */
  datatype Stamps = Stamps(userId: string, userTime: string, replyId: string, replyTime: string)

  /** The agent must be chosen before anything is sent. */
  predicate HasAgent(c: PlaygroundConfig) {
    c.agentIdentifier != ""
  }

  /** The request a send makes, none without an agent. */
  function RequestFor(c: PlaygroundConfig, content: string): (r: Option<ExecuteRequest>)
    ensures r.None? <==> !HasAgent(c)
    ensures r.Some? ==> r.value.chatHistory == c.chatHistory && r.value.userMessage == content
    ensures r.Some? ==> r.value.agentIdentifier == c.agentIdentifier && r.value.model == c.model
  {
    if !HasAgent(c) then None
    else Some(ExecuteRequest(c.systemPrompt, c.chatHistory, content, c.patientContext, c.crmContext,
                             c.model, c.temperature, c.agentIdentifier))
  }

  /** `result.final_response || result.assistant_response` */
  function ReplyContent(r: ExecuteResult): (text: string)
    ensures r.finalResponse != "" ==> text == r.finalResponse
    ensures r.finalResponse == "" ==> text == r.assistantResponse
  {
    if r.finalResponse != "" then r.finalResponse else r.assistantResponse
  }

  function UserMessage(content: string, s: Stamps): Message {
    Message(s.userId, "user", content, s.userTime, None, None, None)
  }

  function ReplyMessage(r: ExecuteResult, s: Stamps): Message {
    Message(s.replyId, "assistant", ReplyContent(r), s.replyTime,
            Some(MessageMetrics(r.tokensIn, r.tokensOut, r.costUsd, r.totalMs)), Some(r.toolCalls), None)
  }

  /** The reply a failed send shows: an `Error`'s own message, even an
      empty one, and the fixed text for anything else thrown. */
  function ErrorMessage(message: Option<string>, s: Stamps): Message {
    Message(s.replyId, "assistant", "", s.replyTime, None, None, Some(message.GetOr(UNKNOWN_ERROR)))
  }

  /** The timeline after a send. */
  function MessagesAfterSend(c: PlaygroundConfig, messages: seq<Message>, content: string, s: Stamps, o: Outcome): seq<Message> {
    if !HasAgent(c) then messages
    else match o
      case Answered(r) => messages + [UserMessage(content, s), ReplyMessage(r, s)]
      case Raised(e) => messages + [UserMessage(content, s), ErrorMessage(e, s)]
  }

  /** The configuration after a send. */
  function ConfigAfterSend(c: PlaygroundConfig, content: string, o: Outcome): PlaygroundConfig {
    if HasAgent(c) && o.Answered? then
      c.(chatHistory := c.chatHistory + [ChatMessage("user", content), ChatMessage("assistant", ReplyContent(o.result))])
    else c
  }

  // ---------------------------------------------------------------------
  // What a send does

  /** Without an agent a send changes nothing and calls nothing. */
  lemma SendWithoutAgent(c: PlaygroundConfig, messages: seq<Message>, content: string, s: Stamps, o: Outcome)
    requires !HasAgent(c)
    ensures MessagesAfterSend(c, messages, content, s, o) == messages
    ensures ConfigAfterSend(c, content, o) == c
    ensures RequestFor(c, content).None?
  {
  }

  /** An answered send adds the user's message and then the reply, whose
      text is the final response or else the assistant response; the chat
      history gains the same two turns and nothing else in the
      configuration moves. */
  lemma SendAnswered(c: PlaygroundConfig, messages: seq<Message>, content: string, s: Stamps, r: ExecuteResult)
    requires HasAgent(c)
    ensures var m := MessagesAfterSend(c, messages, content, s, Answered(r));
      && |m| == |messages| + 2 && m[..|messages|] == messages
      && m[|messages|].role == "user" && m[|messages|].content == content
      && m[|messages| + 1].role == "assistant" && m[|messages| + 1].content == ReplyContent(r)
      && !HasError(m[|messages| + 1])
    ensures var c' := ConfigAfterSend(c, content, Answered(r));
      && c'.chatHistory == c.chatHistory + [ChatMessage("user", content), ChatMessage("assistant", ReplyContent(r))]
      && c'.(chatHistory := c.chatHistory) == c
  {
  }

  /** A failed send adds the user's message and an empty reply carrying the
      thrown `Error`'s message, or `Erro desconhecido` when something else
      was thrown; the reply counts as failed unless that message is empty.
      The chat history is left as it was. */
  lemma SendRaised(c: PlaygroundConfig, messages: seq<Message>, content: string, s: Stamps, e: Option<string>)
    requires HasAgent(c)
    ensures var m := MessagesAfterSend(c, messages, content, s, Raised(e));
      && |m| == |messages| + 2 && m[..|messages|] == messages
      && m[|messages|].role == "user" && m[|messages|].content == content
      && m[|messages| + 1].role == "assistant" && m[|messages| + 1].content == ""
      && (e.Some? ==> m[|messages| + 1].error == e)
      && (e.None? ==> m[|messages| + 1].error == Some(UNKNOWN_ERROR))
      && (HasError(m[|messages| + 1]) <==> e.None? || e.value != "")
    ensures ConfigAfterSend(c, content, Raised(e)) == c
  {
  }

  // ---------------------------------------------------------------------
  // The chat history as the agent sees it

  /** User and assistant turns alternate, starting with the user. */
  predicate Alternating(h: seq<ChatMessage>) {
    forall i :: 0 <= i < |h| ==> h[i].role == (if i % 2 == 0 then "user" else "assistant")
  }

  predicate Paired(h: seq<ChatMessage>) {
    Alternating(h) && |h| % 2 == 0
  }

  /** Every send keeps the history in user/assistant pairs, so the turn
      number the agent computes from it counts the exchanges so far; after
      an answered send the last assistant turn the agent sees is the reply
      just shown. */
  lemma SendKeepsPairs(c: PlaygroundConfig, content: string, o: Outcome)
    requires Paired(c.chatHistory)
    ensures var h := ConfigAfterSend(c, content, o).chatHistory;
      && Paired(h)
      && MockAgent.TurnNumber(h) == |h| / 2 + 1
      && (HasAgent(c) && o.Answered? ==>
            && MockAgent.TurnNumber(h) == MockAgent.TurnNumber(c.chatHistory) + 1
            && MockAgent.LastAssistant(h) == ReplyContent(o.result))
  {
    var h := ConfigAfterSend(c, content, o).chatHistory;
    if HasAgent(c) && o.Answered? {
      var n := |c.chatHistory|;
      forall i | 0 <= i < |h|
        ensures h[i].role == (if i % 2 == 0 then "user" else "assistant")
      {
        if i >= n {
          assert i == n || i == n + 1;
        }
      }
      assert h[|h| - 1] == ChatMessage("assistant", ReplyContent(o.result));
    }
  }

  /** `canSave`: an agent is chosen and the timeline is not empty. */
  predicate CanSaveWith(c: PlaygroundConfig, messages: seq<Message>) {
    HasAgent(c) && |messages| > 0
  }

  /** A send that reaches the agent always leaves something to save; a
      cleared chat never has anything. */
  lemma SaveAfterSend(c: PlaygroundConfig, messages: seq<Message>, content: string, s: Stamps, o: Outcome)
    ensures HasAgent(c) ==> CanSaveWith(ConfigAfterSend(c, content, o), MessagesAfterSend(c, messages, content, s, o))
    ensures !CanSaveWith(c.(chatHistory := []), [])
  {
  }

  // ---------------------------------------------------------------------
  // Saving

  /** The name, scenario, tags and notes from the save dialog; the scenario
      and notes are optional. */
  datatype SessionData = SessionData(name: string, scenario: Option<string>, tags: seq<string>, notes: Option<string>)

  /** The store call a save makes. */
  datatype SaveCall =
    | Update(id: string, data: SessionData, config: PlaygroundConfig, timeline: seq<Message>)
    | Create(data: SessionData, agentIdentifier: string, config: PlaygroundConfig, timeline: seq<Message>)

  /** What the store did: the session it created (with its id) or an
      error. */
  datatype SaveOutcome = Saved(newId: string) | SaveFailed

  /** `currentSessionId` is truthy. */
  predicate Editing(id: Option<string>) {
    id.Some? && id.value != ""
  }

  /** Update the session being edited, or create one. */
  function SaveCallFor(id: Option<string>, data: SessionData, c: PlaygroundConfig, messages: seq<Message>): (call: SaveCall)
    ensures call.Update? <==> Editing(id)
    ensures call.Update? ==> call.id == id.value
    ensures call.Create? ==> call.agentIdentifier == c.agentIdentifier
    ensures call.config == c && call.timeline == messages && call.data == data
  {
    if Editing(id) then Update(id.value, data, c, messages)
    else Create(data, c.agentIdentifier, c, messages)
  }

  /** The session id after a save: a created session becomes the one being
      edited; an update or a failure leaves it. */
  function SessionAfterSave(id: Option<string>, o: SaveOutcome): (r: Option<string>)
    ensures Editing(id) ==> r == id
    ensures !Editing(id) && o.Saved? ==> r == Some(o.newId)
    ensures o.SaveFailed? ==> r == id
  {
    if !Editing(id) && o.Saved? then Some(o.newId) else id
  }

  /** Once a session was created, the next save with the same id updates
      it instead of creating another. */
  lemma SecondSaveUpdates(id: Option<string>, newId: string, data: SessionData, c: PlaygroundConfig, messages: seq<Message>)
    requires newId != ""
    ensures SaveCallFor(SessionAfterSave(id, Saved(newId)), data, c, messages).Update?
  {
  }

  /** A stored session, as loading reads it. */
  datatype TestSession = TestSession(id: string, name: string, config: PlaygroundConfig, timeline: seq<Message>)

  // ---------------------------------------------------------------------
  // The page

  class Page {
    var config: PlaygroundConfig
    var messages: seq<Message>
    var currentSessionId: Option<string>

    constructor ()
      ensures config == DEFAULT_CONFIG && messages == [] && currentSessionId == None
    {
      config := DEFAULT_CONFIG;
      messages := [];
      currentSessionId := None;
    }

    /** `canSave` */
    predicate CanSave()
      reads this
    {
      CanSaveWith(config, messages)
    }

    /** `handleSendMessage`, with the call's outcome given. */
    method SendMessage(content: string, s: Stamps, o: Outcome) returns (request: Option<ExecuteRequest>)
      modifies this`messages, this`config
      ensures request == RequestFor(old(config), content)
      ensures messages == MessagesAfterSend(old(config), old(messages), content, s, o)
      ensures config == ConfigAfterSend(old(config), content, o)
    {
      if config.agentIdentifier == "" {
        return None;
      }
      messages := messages + [UserMessage(content, s)];
      var updatedHistory := config.chatHistory + [ChatMessage("user", content)];
      request := Some(ExecuteRequest(config.systemPrompt, config.chatHistory, content, config.patientContext,
                                     config.crmContext, config.model, config.temperature, config.agentIdentifier));
      match o
      case Answered(r) =>
        messages := messages + [ReplyMessage(r, s)];
        config := config.(chatHistory := updatedHistory + [ChatMessage("assistant", ReplyContent(r))]);
      case Raised(e) =>
        messages := messages + [ErrorMessage(e, s)];
    }

    /** `handleClearChat`: an empty timeline and history, no session; the
        rest of the configuration stays. */
    method ClearChat()
      modifies this
      ensures messages == [] && currentSessionId == None
      ensures config == old(config).(chatHistory := [])
      ensures !CanSave()
    {
      messages := [];
      config := config.(chatHistory := []);
      currentSessionId := None;
    }

    /** `handleSaveSession`, with the store's outcome given. */
    method SaveSession(data: SessionData, o: SaveOutcome) returns (call: SaveCall)
      modifies this`currentSessionId
      ensures call == SaveCallFor(old(currentSessionId), data, config, messages)
      ensures currentSessionId == SessionAfterSave(old(currentSessionId), o)
    {
      if currentSessionId.Some? && currentSessionId.value != "" {
        call := Update(currentSessionId.value, data, config, messages);
      } else {
        call := Create(data, config.agentIdentifier, config, messages);
        if o.Saved? {
          currentSessionId := Some(o.newId);
        }
      }
    }

    /** The load effect: the stored configuration, timeline and id replace
        the page's. */
    method LoadSession(session: TestSession)
      modifies this
      ensures config == session.config && messages == session.timeline && currentSessionId == Some(session.id)
    {
      config := session.config;
      messages := session.timeline;
      currentSessionId := Some(session.id);
    }
  }
}
