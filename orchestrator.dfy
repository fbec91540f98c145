/**
 * The school web site agent's router: it finds the student's latest message,
 * asks the model which specialist should answer (announcements or
 * regulations), records the decision in the graph state in place and
 * reports it on the stream writer. Every failure falls back to the
 * announcement agent.
 */
module Orchestrator {
  import opened Common
  import opened Text
  import opened Messages

  /** The two specialist agents, with the string values the graph uses. */
  datatype AgentType = Announcement | Yonetmelik {
    function Value(): string {
      match this
      case Announcement => "announcement_agent"
      case Yonetmelik => "yonetmelik_agent"
    }
  }

  /** `AgentType(value)`: the agent with that value; `None` where Python
      raises `ValueError`. */
  function AgentFromValue(value: string): (r: Option<AgentType>)
    ensures r.Some? ==> r.value.Value() == value
    ensures r.None? <==> value != Announcement.Value() && value != Yonetmelik.Value()
  {
    if value == Announcement.Value() then Some(Announcement)
    else if value == Yonetmelik.Value() then Some(Yonetmelik)
    else None
  }

  /** Every agent is named by its value, and by no other agent's. */
  lemma AgentValueRoundTrip(a: AgentType)
    ensures AgentFromValue(a.Value()) == Some(a)
  {
  }

  const OrchestratorSystemPrompt: string := @"
Sen bir üniversite asistan orkestratörüsün. Kullanıcının sorusunu analiz edip doğru uzman asistana yönlendiriyorsun.

Kullanabileceğin uzman asistanlar:

1. ANNOUNCEMENT_AGENT (Duyuru Asistanı):
   - Güncel duyurular, haberler, etkinlikler
   - Sınav tarihleri, kayıt dönemleri, son tarihler
   - Departman duyuruları ve güncellemeler
   - Web sitesindeki anlık bilgiler

2. YONETMELIK_AGENT (Yönetmelik Asistanı):
   - Okul yönetmelikleri ve yönergeler
   - Kalıcı kurallar ve prosedürler
   - Akademik politikalar
   - Resmi belgeler ve düzenlemeler

Görevin:
1. Kullanıcının sorusunu dikkatlice analiz et
2. Hangi asistanın daha uygun olduğuna karar ver
3. Sadece şu formatla yanıt ver: ""ANNOUNCEMENT"" veya ""YONETMELIK""

Karar kriterleri:
- Zaman belirten ifadeler (son, bu hafta, bugün) → ANNOUNCEMENT
- ""Duyuru"", ""haber"", ""etkinlik"" kelimeleri → ANNOUNCEMENT  
- Kural, yönetmelik, prosedür soruları → YONETMELIK
- ""Nasıl yapılır"", ""şartlar"", ""gereklilikler"" → YONETMELIK
- Belirsiz durumlarda içerik tipine göre en mantıklısını seç

Sadece ""ANNOUNCEMENT"" veya ""YONETMELIK"" kelimelerinden birini döndür, başka bir şey yazma.
"

  const NoUserMessageReason: string := "No user message found"

  /** The graph state of the school web site agent; keys that were never set
      are `None`. */
  class RouterState {
    var messages: seq<Message>
    var nextAgent: Option<string>
    var routingReason: Option<string>
    var currentAgent: Option<string>

    constructor(messages: seq<Message>)
      ensures this.messages == messages
      ensures nextAgent.None? && routingReason.None? && currentAgent.None?
    {
      this.messages := messages;
      nextAgent := None;
      routingReason := None;
      currentAgent := None;
    }
  }

  /** One custom stream event: `{"agent": ..., "routing_reason": ...}`. */
  datatype RoutingEvent = RoutingEvent(agent: string, routingReason: string)

  /** The stream writer as an event log. `failure` is the error it raises,
      if it raises one; a write that raises records nothing. */
  class StreamWriter {
    var events: seq<RoutingEvent>
    const failure: Option<string>

    constructor(failure: Option<string>)
      ensures events == [] && this.failure == failure
    {
      events := [];
      this.failure := failure;
    }

    method Write(event: RoutingEvent) returns (raised: Option<string>)
      modifies this
      ensures raised == failure
      ensures events == if failure.None? then old(events) + [event] else old(events)
    {
      raised := failure;
      if failure.None? {
        events := events + [event];
      }
    }
  }

  /** The index of the most recent human message, or -1 when there is none. */
  function LastHumanIndex(messages: seq<Message>): (r: int)
    ensures -1 <= r < |messages|
    ensures r >= 0 ==> messages[r].Human?
    ensures forall j :: r < j < |messages| ==> !messages[j].Human?
  {
    if messages == [] then -1
    else if messages[|messages| - 1].Human? then |messages| - 1
    else LastHumanIndex(messages[..|messages| - 1])
  }

  /** The text of the most recent human message, if there is one. */
  function LastUserText(messages: seq<Message>): Option<string> {
    var i := LastHumanIndex(messages);
    if i >= 0 then Some(messages[i].content) else None
  }

  /** The loop over `reversed(messages)` that stops at the first human
      message. */
  method FindLastUserMessage(messages: seq<Message>) returns (found: Option<string>)
    ensures found == LastUserText(messages)
    ensures found.None? <==> forall j :: 0 <= j < |messages| ==> !messages[j].Human?
  {
    found := None;
    var i := |messages|;
    while i > 0
      invariant 0 <= i <= |messages|
      invariant forall j :: i <= j < |messages| ==> !messages[j].Human?
    {
      i := i - 1;
      if messages[i].Human? {
        found := Some(messages[i].content);
        return;
      }
    }
  }

  /** What the router makes of the model's answer. */
  datatype Decision = Decision(agent: AgentType, reason: string)

  /** The classification of the model's answer: its stripped, upper-cased
      text names the regulations agent (checked first) or the announcement
      agent, or is unclear. */
  function Classify(output: string): (d: Decision)
    ensures var decision := Upper(Strip(output));
      && (d.agent == Yonetmelik <==> Contains(decision, "YONETMELIK"))
      && (Contains(decision, "YONETMELIK") || Contains(decision, "ANNOUNCEMENT") ==> d.reason == decision)
      && (!Contains(decision, "YONETMELIK") && !Contains(decision, "ANNOUNCEMENT") ==>
            d.reason == "UNCLEAR: " + decision + " -> DEFAULT: ANNOUNCEMENT")
  {
    var decision := Upper(Strip(output));
    if Contains(decision, "YONETMELIK") then Decision(Yonetmelik, decision)
    else if Contains(decision, "ANNOUNCEMENT") then Decision(Announcement, decision)
    else Decision(Announcement, "UNCLEAR: " + decision + " -> DEFAULT: ANNOUNCEMENT")
  }

  /** The two messages the classifier is called with. */
  function RoutingPrompt(userText: string): seq<Message> {
    [System(OrchestratorSystemPrompt), Human(userText)]
  }

  /** The fallback of the `except` branch. */
  method RecordError(state: RouterState, error: string)
    modifies state
    ensures state.messages == old(state.messages)
    ensures state.nextAgent == Some(Announcement.Value()) && state.currentAgent == Some(Announcement.Value())
    ensures state.routingReason == Some("ERROR: " + error)
  {
    state.nextAgent := Some(Announcement.Value());
    state.routingReason := Some("ERROR: " + error);
    state.currentAgent := Some(Announcement.Value());
  }

  /** `router_node`. The model is passed in; `request` is the classifier call
      the node made, if any. */
  method RouterNode(state: RouterState, llm: seq<Message> -> LlmOutcome, writer: StreamWriter)
    returns (request: Option<seq<Message>>)
    modifies state, writer
    ensures state.messages == old(state.messages)
    ensures state.nextAgent.Some? && AgentFromValue(state.nextAgent.value).Some?
    ensures var user := LastUserText(old(state.messages));
      (user.None? || user.value == "") ==>
        && request.None?
        && state.nextAgent == Some(Announcement.Value())
        && state.routingReason == Some(NoUserMessageReason)
        && state.currentAgent == old(state.currentAgent)
        && writer.events == old(writer.events)
    ensures var user := LastUserText(old(state.messages));
      (user.Some? && user.value != "") ==> request == Some(RoutingPrompt(user.value))
    ensures request.Some? && llm(request.value).Raised? ==>
      && state.nextAgent == Some(Announcement.Value())
      && state.currentAgent == Some(Announcement.Value())
      && state.routingReason == Some("ERROR: " + llm(request.value).error)
      && writer.events == old(writer.events)
    ensures request.Some? && llm(request.value).Reply? ==>
      var d := Classify(llm(request.value).text);
      if writer.failure.None? then
        && state.nextAgent == Some(d.agent.Value())
        && state.currentAgent == Some(d.agent.Value())
        && state.routingReason == Some(d.reason)
        && writer.events == old(writer.events) + [RoutingEvent(d.agent.Value(), d.reason)]
      else
        && state.nextAgent == Some(Announcement.Value())
        && state.currentAgent == Some(Announcement.Value())
        && state.routingReason == Some("ERROR: " + writer.failure.value)
        && writer.events == old(writer.events)
  {
    var messages := state.messages;
    var lastUserMessage := FindLastUserMessage(messages);
    if lastUserMessage.None? || lastUserMessage.value == "" {
      state.nextAgent := Some(Announcement.Value());
      state.routingReason := Some(NoUserMessageReason);
      AgentValueRoundTrip(Announcement);
      return None;
    }
    request := Some(RoutingPrompt(lastUserMessage.value));
    var response := llm(request.value);
    if response.Raised? {
      RecordError(state, response.error);
      AgentValueRoundTrip(Announcement);
      return;
    }
    var decision := Upper(Strip(response.text));
    var agent: AgentType;
    if Contains(decision, "YONETMELIK") {
      agent := Yonetmelik;
    } else if Contains(decision, "ANNOUNCEMENT") {
      agent := Announcement;
    } else {
      agent := Announcement;
      decision := "UNCLEAR: " + decision + " -> DEFAULT: ANNOUNCEMENT";
    }
    assert Decision(agent, decision) == Classify(response.text);
    state.nextAgent := Some(agent.Value());
    state.routingReason := Some(decision);
    state.currentAgent := Some(agent.Value());
    var raised := writer.Write(RoutingEvent(agent.Value(), decision));
    if raised.Some? {
      RecordError(state, raised.value);
      AgentValueRoundTrip(Announcement);
    } else {
      AgentValueRoundTrip(agent);
    }
  }

  /** `route_to_agent`: the recorded agent, the announcement agent when none
      was recorded, `None` where an unknown value makes Python raise. */
  function RouteToAgent(nextAgent: Option<string>): (r: Option<AgentType>)
    ensures nextAgent.None? ==> r == Some(Announcement)
    ensures nextAgent.Some? ==> (r.Some? <==> AgentFromValue(nextAgent.value).Some?)
    ensures nextAgent.Some? && r.Some? ==> r.value.Value() == nextAgent.value
  {
    match nextAgent
    case None => Some(Announcement)
    case Some(v) => AgentFromValue(v)
  }

  // ---------------------------------------------------------------------
  // Properties of the classification

  /** The regulations keyword, in any letter case and anywhere in a longer
      answer, routes to the regulations agent. */
  lemma KeywordAnywhereRoutes(a: string, w: string, b: string)
    requires Upper(w) == "YONETMELIK"
    ensures Classify(a + w + b).agent == Yonetmelik
  {
    forall i | 0 <= i < |w| ensures !IsSpace(w[i]) {
      assert UpperChar(w[i]) == Upper(w)[i];
      assert 'A' <= Upper(w)[i] <= 'Z';
    }
    StripKeepsInnerPiece(a, w, b);
    UpperKeepsOccurrence(Strip(a + w + b), w);
  }

  /** Letter case does not matter to the router. */
  lemma ClassifyIgnoresCase(output: string)
    ensures Classify(Lower(output)) == Classify(output)
  {
    StripLower(output);
    UpperLower(Strip(output));
  }

  /** An answer that names neither agent is recorded as unclear and falls
      back to the announcement agent. */
  lemma UnclearFallsBack(output: string)
    requires !Contains(Upper(Strip(output)), "YONETMELIK") && !Contains(Upper(Strip(output)), "ANNOUNCEMENT")
    ensures Classify(output).agent == Announcement
    ensures "UNCLEAR: " <= Classify(output).reason
  {
  }

  /** The router's record is always one `route_to_agent` accepts, so the
      conditional edge picks exactly the agent the router chose. */
  lemma RouteAfterRouter(a: AgentType)
    ensures RouteToAgent(Some(a.Value())) == Some(a)
  {
  }
}
