/**
 * The course helper's generation node: the last message is the question,
 * every earlier message is chat history, and the model is prompted with the
 * fixed system prompt, the course id and retrieved context, the history and
 * the question. A successful answer gets a citation line when documents were
 * retrieved; a failed model call becomes a fixed apology.
 */
module Generate {
  import opened Common
  import opened Text
  import opened Messages
  import opened CourseState

  const RagSystemPrompt: string := @"You are a helpful course assistant. Your role is to answer student questions based on the course materials provided.

**Instructions:**
1. Answer questions using ONLY the information from the retrieved course materials provided below
2. If the materials don't contain enough information to answer the question, clearly state this
3. Provide specific references to the source materials when possible
4. Be concise but comprehensive
5. Use a friendly, educational tone
6. If you're uncertain, acknowledge it rather than making assumptions
7. Break down complex topics into understandable explanations

**Important:**
- Do NOT make up information not present in the course materials
- Do NOT use knowledge outside of the provided context
- If the question is outside the scope of the course materials, politely redirect to the course materials or instructor
"

  const GenerationApology: string :=
    "I apologize, but I encountered an error while generating the response. Please try again."

  /** What the node returns: the messages to add to the conversation, and
      the prompt the model was called with, if it was called; or the
      `TypeError` that `len(context)` raises, outside the `try`, when the
      context is `None`. */
  datatype GenerateStep =
    | GenerateStep(messages: seq<Message>, prompt: Option<seq<Message>>)
    | ContextLenError

  /** A dictionary value as the prompt template renders it: `None` prints as
      "None". */
  function Rendered(f: Field<string>, default: string): string {
    match f
    case Absent => default
    case Null => "None"
    case Present(s) => s
  }

  /** The second system message: `Course ID: {course_id}\n\n{context}`. */
  function CourseContextMessage(state: CourseState): string {
    "Course ID: " + Rendered(state.courseId, "unknown") + "\n\n" + Rendered(state.context, "")
  }

  /** The prompt for a non-empty conversation. */
  function PromptFor(state: CourseState): (prompt: seq<Message>)
    requires state.messages != []
  {
    var n := |state.messages|;
    [System(RagSystemPrompt), System(CourseContextMessage(state))]
    + state.messages[..n - 1]
    + [Human(state.messages[n - 1].content)]
  }

  /** The number of retrieved documents, when the state holds a non-empty
      list of them (the only case that earns a citation). */
  function CitedCount(docs: Field<seq<Doc>>): (n: nat)
    ensures n > 0 <==> docs.Present? && docs.value != []
    ensures n > 0 ==> n == |docs.value|
  {
    if docs.Present? then |docs.value| else 0
  }

  function CitationSuffix(n: nat): string {
    "\n\n---\n*Based on " + NatToString(n) + " course material(s)*"
  }

  /** The answer for a successful model call. */
  function Answer(reply: string, docs: Field<seq<Doc>>): string {
    if CitedCount(docs) > 0 then reply + CitationSuffix(CitedCount(docs)) else reply
  }

  /** `generate_node`, with the model passed in. */
  function GenerateNode(state: CourseState, llm: seq<Message> -> LlmOutcome): (step: GenerateStep)
    ensures step.ContextLenError? <==> state.messages != [] && state.context.Null?
    ensures state.messages == [] ==> step == GenerateStep([], None)
    ensures state.messages != [] && !state.context.Null? ==>
      && step.GenerateStep? && |step.messages| == 1 && step.messages[0].AI?
      && step.prompt == Some(PromptFor(state))
    ensures step.GenerateStep? && step.prompt.Some? && llm(PromptFor(state)).Raised? ==>
      step.messages == [AI(GenerationApology)]
    ensures step.GenerateStep? && step.prompt.Some? && llm(PromptFor(state)).Reply? ==>
      var reply := llm(PromptFor(state)).text;
      var answer := step.messages[0].content;
      && reply <= answer
      && (answer == reply <==> !(state.retrievedDocuments.Present? && state.retrievedDocuments.value != []))
  {
    if state.messages == [] then GenerateStep([], None)
    else if state.context.Null? then ContextLenError
    else
      var prompt := PromptFor(state);
      match llm(prompt)
      case Reply(text) => GenerateStep([AI(Answer(text, state.retrievedDocuments))], Some(prompt))
      case Raised(_) => GenerateStep([AI(GenerationApology)], Some(prompt))
  }

  // ---------------------------------------------------------------------
  // Properties

  /** The prompt is the fixed system prompt, the course message, then the
      conversation itself: the question is the last message's text and the
      history is every message before it, so a conversation ending with the
      student's message reappears unchanged after the two system messages. */
  lemma PromptLayout(state: CourseState)
    requires state.messages != []
    ensures var prompt := PromptFor(state);
      && |prompt| == |state.messages| + 2
      && prompt[0] == System(RagSystemPrompt)
      && prompt[1] == System(CourseContextMessage(state))
      && prompt[|prompt| - 1] == Human(state.messages[|state.messages| - 1].content)
      && (forall i :: 0 <= i < |state.messages| - 1 ==> prompt[i + 2] == state.messages[i])
      && (state.messages[|state.messages| - 1].Human? ==> prompt[2..] == state.messages)
  {
    var prompt := PromptFor(state);
    var ms := state.messages;
    if ms[|ms| - 1].Human? {
      assert ms[|ms| - 1] == Human(ms[|ms| - 1].content);
      assert prompt[2..] == ms[..|ms| - 1] + [ms[|ms| - 1]];
      assert ms[..|ms| - 1] + [ms[|ms| - 1]] == ms;
    }
  }

  /** Each missing value takes its template default on its own: a missing
      course id reads "unknown", a missing context is empty; a course id
      that is present is quoted as it is. */
  lemma CourseContextDefaults(state: CourseState)
    ensures state.courseId.Absent? ==>
      "Course ID: unknown\n\n" <= CourseContextMessage(state)
    ensures state.context.Absent? ==>
      CourseContextMessage(state) == "Course ID: " + Rendered(state.courseId, "unknown") + "\n\n"
    ensures state.courseId.Present? ==>
      "Course ID: " + state.courseId.value + "\n\n" <= CourseContextMessage(state)
  {
  }

  /** The citation states the number of retrieved documents, and that number
      can be read back from it. */
  lemma CitationStatesCount(m: nat, n: nat)
    requires CitationSuffix(m) == CitationSuffix(n)
    ensures m == n
  {
    var p := "\n\n---\n*Based on ";
    var q := " course material(s)*";
    var a, b := NatToString(m), NatToString(n);
    assert CitationSuffix(m) == p + a + q;
    assert CitationSuffix(n) == p + b + q;
    assert |a| == |b|;
    assert a == (p + a + q)[|p|..|p| + |a|];
    assert b == (p + b + q)[|p|..|p| + |b|];
    NatToStringInjective(m, n);
  }

  /** A failed model call yields the same apology whatever the error was:
      nothing of the error reaches the conversation. */
  lemma FailureHidesError(state: CourseState, llm1: seq<Message> -> LlmOutcome, llm2: seq<Message> -> LlmOutcome)
    requires state.messages != []
    requires llm1(PromptFor(state)).Raised? && llm2(PromptFor(state)).Raised?
    ensures GenerateNode(state, llm1) == GenerateNode(state, llm2)
  {
  }

  /** A successful answer with documents ends with the citation naming
      their number. */
  lemma AnswerCitesDocuments(state: CourseState, llm: seq<Message> -> LlmOutcome)
    requires state.messages != [] && !state.context.Null? && llm(PromptFor(state)).Reply?
    requires state.retrievedDocuments.Present? && state.retrievedDocuments.value != []
    ensures GenerateNode(state, llm).GenerateStep?
    ensures GenerateNode(state, llm).messages
         == [AI(llm(PromptFor(state)).text + CitationSuffix(|state.retrievedDocuments.value|))]
  {
  }
}
