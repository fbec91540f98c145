/**
 * The course helper's utilities: building the initial graph state and the
 * session configuration, rendering a conversation, listing the sources of
 * retrieved documents, the retrieval heuristic, course id validation, the
 * token estimate and context truncation, and the error response with the
 * helper that reads the answer back out of a result.
 */
module CourseUtils {
  import opened Common
  import opened Text
  import opened Messages
  import opened CourseState

  // ---------------------------------------------------------------------
  // Initial state

  /** A Python list of messages that callers share by reference. */
  class MessageList {
    var items: seq<Message>

    constructor (items: seq<Message>)
      ensures this.items == items
    {
      this.items := items;
    }
  }

  /** `create_initial_state`: `conversation_history or []` then an append.
      A non-empty history list is the very list of the new state and gains
      the question in place; a missing or empty one is replaced by a fresh
      list and left untouched. */
  method CreateInitialState(courseId: string, question: string, history: MessageList?)
    returns (messages: MessageList, state: CourseState)
    modifies history
    ensures history != null && old(history.items) != [] ==>
      messages == history && messages.items == old(history.items) + [Human(question)]
    ensures history == null || old(history.items) == [] ==>
      fresh(messages) && messages.items == [Human(question)]
    ensures history != null && old(history.items) == [] ==> history.items == []
    ensures state == CourseState(messages.items, Present(courseId), Null, Null, Present(true))
  {
    if history != null && history.items != [] {
      messages := history;
    } else {
      messages := new MessageList([]);
    }
    messages.items := messages.items + [Human(question)];
    state := CourseState(messages.items, Present(courseId), Null, Null, Present(true));
  }

  // ---------------------------------------------------------------------
  // Session configuration

  /** The checkpointer configuration; only its thread id carries data. */
  datatype SessionConfig = SessionConfig(threadId: string)

  /** `create_session_config`: the thread id is `session-<session id>`,
      followed by `-<course id>` when a non-empty course id is given. */
  function CreateSessionConfig(sessionId: string, courseId: Option<string>): (r: SessionConfig)
    ensures "session-" + sessionId <= r.threadId
    ensures courseId.None? || courseId.value == "" <==> r.threadId == "session-" + sessionId
    ensures courseId.Some? && courseId.value != "" ==>
      r.threadId == "session-" + sessionId + "-" + courseId.value
  {
    var threadId := "session-" + sessionId;
    if courseId.Some? && courseId.value != "" then
      SessionConfig(threadId + "-" + courseId.value)
    else
      SessionConfig(threadId)
  }

  /** Under one course id, distinct sessions get distinct thread ids. */
  lemma SessionConfigInjective(s1: string, s2: string, courseId: Option<string>)
    requires CreateSessionConfig(s1, courseId) == CreateSessionConfig(s2, courseId)
    ensures s1 == s2
  {
    var t1, t2 := CreateSessionConfig(s1, courseId).threadId, CreateSessionConfig(s2, courseId).threadId;
    assert |s1| == |s2|;
    assert s1 == t1[8..8 + |s1|] == t2[8..8 + |s2|] == s2;
  }

  /** Across course ids the thread ids are ambiguous: a session id that
      contains a dash can share its thread, and so its saved conversation,
      with a different session under a course id. */
  lemma SessionConfigCollides()
    ensures CreateSessionConfig("a-b", None) == CreateSessionConfig("a", Some("b"))
  {
  }

  // ---------------------------------------------------------------------
  // Conversation rendering

  /** One message as `format_conversation_history` shows it: user turns as
      `Student:`, model turns as `Assistant:`, anything else as `System:`. */
  function Labelled(m: Message): string {
    match m
    case Human(c) => "Student: " + c
    case AI(c) => "Assistant: " + c
    case _ => "System: " + m.content
  }

  /** The rendering of a whole conversation: the labelled messages, in order,
      separated by blank lines. */
  function RenderedHistory(messages: seq<Message>): string {
    Join(seq(|messages|, i requires 0 <= i < |messages| => Labelled(messages[i])), "\n\n")
  }

  /** `format_conversation_history`. */
  method FormatConversationHistory(messages: seq<Message>) returns (s: string)
    ensures s == RenderedHistory(messages)
  {
    var formatted: seq<string> := [];
    for i := 0 to |messages|
      invariant |formatted| == i
      invariant forall j :: 0 <= j < i ==> formatted[j] == Labelled(messages[j])
    {
      var msg := messages[i];
      if msg.Human? {
        formatted := formatted + ["Student: " + msg.content];
      } else if msg.AI? {
        formatted := formatted + ["Assistant: " + msg.content];
      } else {
        formatted := formatted + ["System: " + msg.content];
      }
    }
    s := Join(formatted, "\n\n");
    assert formatted == seq(|messages|, i requires 0 <= i < |messages| => Labelled(messages[i]));
  }

  /** An empty conversation renders as the empty string. */
  lemma RenderedHistoryEmpty()
    ensures RenderedHistory([]) == ""
  {
  }

  /** One more message adds a blank line and its labelled text at the end. */
  lemma RenderedHistoryAppend(messages: seq<Message>, m: Message)
    requires messages != []
    ensures RenderedHistory(messages + [m]) == RenderedHistory(messages) + "\n\n" + Labelled(m)
  {
    var parts := seq(|messages|, i requires 0 <= i < |messages| => Labelled(messages[i]));
    var more := messages + [m];
    assert seq(|more|, i requires 0 <= i < |more| => Labelled(more[i])) == parts + [Labelled(m)];
    JoinSnoc(parts, Labelled(m), "\n\n");
  }

  /** The rendering starts with the first message's label and text. */
  lemma RenderedHistoryStartsWithFirst(messages: seq<Message>)
    requires messages != []
    ensures Labelled(messages[0]) <= RenderedHistory(messages)
  {
    var parts := seq(|messages|, i requires 0 <= i < |messages| => Labelled(messages[i]));
    JoinStartsWithFirst(parts, "\n\n");
  }

  // ---------------------------------------------------------------------
  // Sources of retrieved documents

  /** What `extract_sources_from_documents` keeps of one document. */
  datatype SourceInfo = SourceInfo(source: string, page: Option<string>, section: Option<string>, relevanceScore: real)

  /** The source entry of one document: `source` defaults to "Unknown",
      `page` and `section` may be missing, the score defaults to 0. */
  function SourceOf(doc: Doc): (r: SourceInfo)
    ensures Get(doc.metadata, "source").Some? ==> r.source == Get(doc.metadata, "source").value
    ensures Get(doc.metadata, "source").None? ==> r.source == "Unknown"
    ensures r.page == Get(doc.metadata, "page") && r.section == Get(doc.metadata, "section")
    ensures doc.relevanceScore.None? ==> r.relevanceScore == 0.0
    ensures doc.relevanceScore.Some? ==> r.relevanceScore == doc.relevanceScore.value
  {
    SourceInfo(
      Get(doc.metadata, "source").GetOr("Unknown"),
      Get(doc.metadata, "page"),
      Get(doc.metadata, "section"),
      doc.relevanceScore.GetOr(0.0))
  }

  /** `extract_sources_from_documents`: one entry per document, in order. */
  method ExtractSourcesFromDocuments(documents: seq<Doc>) returns (sources: seq<SourceInfo>)
    ensures |sources| == |documents|
    ensures forall i :: 0 <= i < |documents| ==> sources[i] == SourceOf(documents[i])
  {
    sources := [];
    for i := 0 to |documents|
      invariant |sources| == i
      invariant forall j :: 0 <= j < i ==> sources[j] == SourceOf(documents[j])
    {
      var metadata := documents[i].metadata;
      sources := sources + [SourceInfo(
        Get(metadata, "source").GetOr("Unknown"),
        Get(metadata, "page"),
        Get(metadata, "section"),
        documents[i].relevanceScore.GetOr(0.0))];
    }
  }

  // ---------------------------------------------------------------------
  // Token estimate and truncation

  /** `estimate_token_count`: four characters per token, rounded down. */
  function EstimateTokenCount(text: string): (n: nat)
    ensures 4 * n <= |text| < 4 * n + 4
  {
    |text| / 4
  }

  const TruncationMarker: string := "\n\n[Context truncated due to length...]"

  /** The token budget `truncate_context` uses when none is given. */
  const DefaultMaxTokens: int := 4000

  /** `truncate_context`. The comparison `last_period > max_chars * 0.8` is
      written over integers as `5 * last_period > 4 * max_chars`. The result
      is the context itself or a prefix of it followed by the marker, and a
      context within the budget is never changed. */
  function TruncateContext(context: string, maxTokens: int): (r: string)
    ensures EstimateTokenCount(context) <= maxTokens ==> r == context
    ensures r == context
         || (|r| >= |TruncationMarker| && r[|r| - |TruncationMarker|..] == TruncationMarker
             && r[..|r| - |TruncationMarker|] <= context)
  {
    if EstimateTokenCount(context) <= maxTokens then context
    else
      KeptPrefix(context, maxTokens) + TruncationMarker
  }

  /** A context within the budget comes back unchanged. */
  lemma TruncateWithinBudget(context: string, maxTokens: int)
    requires EstimateTokenCount(context) <= maxTokens
    ensures TruncateContext(context, maxTokens) == context
  {
  }

  /** Under the default budget every context of fewer than 16004 characters
      comes back unchanged. */
  lemma DefaultBudgetKeepsShortContexts(context: string)
    requires |context| < 4 * DefaultMaxTokens + 4
    ensures TruncateContext(context, DefaultMaxTokens) == context
  {
    TruncateWithinBudget(context, DefaultMaxTokens);
  }

  /** The part of a truncated context that is kept: the first
      `4 * max_tokens` characters (with Python's reading of a negative stop),
      cut back to the last period when that period lies past four fifths. */
  function KeptPrefix(context: string, maxTokens: int): (kept: string)
    ensures kept <= SliceTo(context, 4 * maxTokens)
  {
    var maxChars := maxTokens * 4;
    var truncated := SliceTo(context, maxChars);
    var lastPeriod := RFind(truncated, '.');
    if 5 * lastPeriod > 4 * maxChars then truncated[..lastPeriod + 1] else truncated
  }

  /** A context over the budget comes back as a prefix of itself, strictly
      shorter unless the context is empty, followed by the marker; for a non-negative budget the prefix has
      at most `4 * max_tokens` characters. Because of the marker the result
      may exceed the budget, by at most nine tokens. */
  lemma TruncateOverBudget(context: string, maxTokens: int)
    requires EstimateTokenCount(context) > maxTokens
    ensures TruncateContext(context, maxTokens) == KeptPrefix(context, maxTokens) + TruncationMarker
    ensures KeptPrefix(context, maxTokens) <= context
    ensures context != [] ==> |KeptPrefix(context, maxTokens)| < |context|
    ensures maxTokens >= 0 ==> |KeptPrefix(context, maxTokens)| <= 4 * maxTokens
    ensures maxTokens >= 0 ==> EstimateTokenCount(TruncateContext(context, maxTokens)) <= maxTokens + 9
  {
    assert 4 * EstimateTokenCount(context) <= |context|;
    assert |context| > 4 * maxTokens;
  }

  /** The kept prefix is either the whole `4 * max_tokens` cut, or it ends
      with that cut's last period, which lies past four fifths of it; with a
      negative budget it may also be empty when the cut has no period (the
      index -1 then lies past four fifths of the negative length). */
  lemma KeptPrefixAtPeriod(context: string, maxTokens: int)
    ensures var kept, cut := KeptPrefix(context, maxTokens), SliceTo(context, 4 * maxTokens);
      || kept == cut
      || (&& kept != [] && kept[|kept| - 1] == '.'
          && 5 * (|kept| - 1) > 16 * maxTokens
          && forall j :: |kept| <= j < |cut| ==> cut[j] != '.')
      || (maxTokens < 0 && kept == [] && forall j :: 0 <= j < |cut| ==> cut[j] != '.')
    // Conversely, the cut's last period is used exactly when it lies past
    // four fifths of the cut; a cut without a period is kept whole unless the
    // budget is negative.
    ensures var kept, cut := KeptPrefix(context, maxTokens), SliceTo(context, 4 * maxTokens);
      forall j :: 0 <= j < |cut| && cut[j] == '.' && (forall k :: j < k < |cut| ==> cut[k] != '.') ==>
        && (5 * j > 16 * maxTokens ==> kept == cut[..j + 1])
        && (5 * j <= 16 * maxTokens ==> kept == cut)
    ensures var kept, cut := KeptPrefix(context, maxTokens), SliceTo(context, 4 * maxTokens);
      (forall k :: 0 <= k < |cut| ==> cut[k] != '.') ==>
        && (maxTokens >= 0 ==> kept == cut)
        && (maxTokens < 0 ==> kept == [])
  {
    var cut := SliceTo(context, 4 * maxTokens);
    var lastPeriod := RFind(cut, '.');
    if 5 * lastPeriod > 4 * (maxTokens * 4) && lastPeriod >= 0 {
      var kept := cut[..lastPeriod + 1];
      assert kept == KeptPrefix(context, maxTokens);
      assert kept[|kept| - 1] == cut[lastPeriod];
    }
  }

  // ---------------------------------------------------------------------
  // Retrieval heuristic

  const Greetings: seq<string> := ["hi", "hello", "hey", "thanks", "thank you", "bye", "goodbye"]
  const Acknowledgements: seq<string> := ["ok", "sure", "yes", "no"]

  /** `should_retrieve`: no retrieval for an exact greeting (after `lower`
      and `strip`) or for a question of at most two words that contains an
      acknowledgement as a substring; retrieval otherwise. */
  function ShouldRetrieve(question: string): (r: bool)
    ensures !r ==> Strip(Lower(question)) in Greetings
                   || (WordCount(question) <= 2 && exists a | a in Acknowledgements :: Contains(Strip(Lower(question)), a))
  {
    var lowered := Strip(Lower(question));
    if lowered in Greetings then false
    else if WordCount(question) <= 2 && exists a | a in Acknowledgements :: Contains(lowered, a) then false
    else true
  }

  /** A greeting, in any ASCII letter case and with surrounding whitespace,
      skips retrieval whatever its length. */
  lemma GreetingSkips(question: string)
    requires Strip(Lower(question)) in Greetings
    ensures !ShouldRetrieve(question)
  {
  }

  /** A question that is no greeting and contains no acknowledgement is
      retrieved whatever its length, "exam date" for one. */
  lemma PlainQuestionRetrieves(question: string)
    requires Strip(Lower(question)) !in Greetings
    requires forall a | a in Acknowledgements :: !Contains(Strip(Lower(question)), a)
    ensures ShouldRetrieve(question)
  {
  }

  /** A short question containing an acknowledgement skips retrieval, and
      the test is a substring test: "grading notes" contains "no". */
  lemma ShortAcknowledgementSkips(question: string, a: string)
    requires WordCount(question) <= 2 && a in Acknowledgements && Contains(Strip(Lower(question)), a)
    ensures !ShouldRetrieve(question)
  {
  }

  lemma ShortQuestionWithNoInsideSkips(q: string)
    requires q == "grading notes"
    ensures !ShouldRetrieve(q)
  {
    GradingNotesIsTwoPlainWords(q);
    assert q == "grading " + "no" + "tes";
    ContainsInfix("grading ", "no", "tes");
    ShortAcknowledgementSkips(q, "no");
  }

  lemma GradingNotesIsTwoPlainWords(q: string)
    requires q == "grading notes"
    ensures WordCount(q) == 2
    ensures Strip(Lower(q)) == q
  {
    WordsAroundSpace("grading", ' ', "notes", true);
    assert "grading" + [' '] + "notes" == q;
    WordsOfWord("grading");
    WordsOfWord("notes");
    LowerWithoutCapitals(q);
    StripNoSpaceEnds(q);
  }

  /** Every greeting has at most two words, so a question of more than two
      words is always sent to retrieval. */
  lemma MoreThanTwoWordsRetrieves(question: string)
    requires WordCount(question) > 2
    ensures ShouldRetrieve(question)
  {
    var lowered := Strip(Lower(question));
    LowerSamePattern(question);
    WordsSamePattern(question, Lower(question), true);
    WordCountStrip(Lower(question));
    if lowered in Greetings {
      GreetingsAreShort(lowered);
      assert false;
    }
  }

  lemma GreetingsAreShort(g: string)
    requires g in Greetings
    ensures WordCount(g) <= 2
  {
    if g == "thank you" {
      WordsAroundSpace("thank", ' ', "you", true);
      assert "thank" + [' '] + "you" == g;
      WordsOfWord("thank");
      WordsOfWord("you");
    } else {
      WordsOfWord(g);
    }
  }

  // --- word-count facts used above

  lemma StripNoSpaceEnds(s: string)
    requires s != [] && !IsSpace(s[0]) && !IsSpace(s[|s| - 1])
    ensures Strip(s) == s
  {
  }

  /** The number of words depends only on where the whitespace is. */
  lemma {:induction false} WordsSamePattern(s: string, t: string, afterSpace: bool)
    requires |s| == |t| && forall i :: 0 <= i < |s| ==> (IsSpace(s[i]) <==> IsSpace(t[i]))
    ensures WordsFrom(s, afterSpace) == WordsFrom(t, afterSpace)
    decreases |s|
  {
    if s != [] {
      WordsSamePattern(s[1..], t[1..], IsSpace(s[0]));
    }
  }

  /** Leading whitespace does not change the count. */
  lemma WordsAfterLeadingSpace(s: string)
    ensures WordCount(StripLeft(s)) == WordCount(s)
  {
    WordsFromFirstNonSpace(s, 0);
    assert s[0..] == s;
  }

  lemma {:induction false} WordsFromFirstNonSpace(s: string, i: nat)
    requires i <= |s|
    ensures WordsFrom(s[FirstNonSpace(s, i)..], true) == WordsFrom(s[i..], true)
    decreases |s| - i
  {
    if i < |s| && IsSpace(s[i]) {
      assert s[i..][1..] == s[i + 1..];
      WordsFromFirstNonSpace(s, i + 1);
    }
  }

  /** Trailing whitespace does not change the count. */
  lemma {:induction false} WordsBeforeTrailingSpace(r: string, sp: string, afterSpace: bool)
    requires forall i :: 0 <= i < |sp| ==> IsSpace(sp[i])
    ensures WordsFrom(r + sp, afterSpace) == WordsFrom(r, afterSpace)
    decreases |r|
  {
    if r == [] {
      assert r + sp == sp;
      WordsOfSpaces(sp, afterSpace);
    } else {
      assert (r + sp)[1..] == r[1..] + sp;
      WordsBeforeTrailingSpace(r[1..], sp, IsSpace(r[0]));
    }
  }

  /** `strip` does not change the number of words. */
  lemma WordCountStrip(s: string)
    ensures WordCount(Strip(s)) == WordCount(s)
  {
    var l := StripLeft(s);
    var r := StripRight(l);
    assert l == r + l[|r|..];
    WordsBeforeTrailingSpace(r, l[|r|..], true);
    WordsAfterLeadingSpace(s);
  }

  lemma LowerWithoutCapitals(s: string)
    requires forall i :: 0 <= i < |s| ==> !('A' <= s[i] <= 'Z')
    ensures Lower(s) == s
  {
  }

  /** `lower` keeps every code point's whitespace class. */
  lemma LowerSamePattern(s: string)
    ensures |Lower(s)| == |s| && forall i :: 0 <= i < |s| ==> (IsSpace(s[i]) <==> IsSpace(Lower(s)[i]))
  {
  }

  // ---------------------------------------------------------------------
  // Course id validation

  /** `validate_course_id`: a string (not `None` or another type) of 2 to 20
      code points. `None` and non-string arguments are both `None` here. */
  function ValidateCourseId(courseId: Option<string>): (ok: bool)
    ensures ok <==> courseId.Some? && 2 <= |courseId.value| <= 20
  {
    if courseId.None? || courseId.value == "" then false
    else if |courseId.value| < 2 || |courseId.value| > 20 then false
    else true
  }

  // ---------------------------------------------------------------------
  // Error response and reading an answer back

  const ErrorApology: string := "I apologize, but I encountered an error: "

  /** `create_error_response`: one model message with the apology and the
      error, no documents, an empty context, no further retrieval. */
  function CreateErrorResponse(errorMessage: string): (r: CourseState)
    ensures r.messages == [AI(ErrorApology + errorMessage)]
    ensures r.retrievedDocuments == Present([]) && r.context == Present("")
    ensures r.needsRetrieval == Present(false) && r.courseId == Absent
  {
    CourseState([AI(ErrorApology + errorMessage)], Absent, Present([]), Present(""), Present(false))
  }

  /** `get_answer_from_result`: the text of the last message, or `None` when
      there are no messages. */
  function GetAnswerFromResult(result: CourseState): (r: Option<string>)
    ensures r.None? <==> result.messages == []
    ensures r.Some? ==> r.value == result.messages[|result.messages| - 1].content
  {
    if result.messages == [] then None
    else Some(result.messages[|result.messages| - 1].content)
  }

  /** Reading the answer of an error response gives the apology followed by
      the error text. */
  lemma ErrorResponseAnswer(errorMessage: string)
    ensures GetAnswerFromResult(CreateErrorResponse(errorMessage)) == Some(ErrorApology + errorMessage)
  {
  }
}
