/**
 * One turn of the course helper graph: START, then the retrieval node, then
 * the generation node, then END. Each node's returned keys overwrite the
 * state's, except `messages`, whose returned list is appended.
 */
module CourseGraph {
  import opened Common
  import opened Text
  import opened Messages
  import opened CourseState
  import opened Retrieval
  import opened Generate

  /** The state after the retrieval node's update is merged in. */
  function AfterRetrieve(state: CourseState, update: RetrieveUpdate): (s: CourseState)
    ensures s.messages == state.messages && s.courseId == state.courseId
  {
    state.(retrievedDocuments := Present(update.retrievedDocuments),
           context := Present(update.context),
           needsRetrieval := Present(update.needsRetrieval))
  }

  /** Runs one turn, with the retriever, the score formatting and the model
      passed in. */
  method RunTurn(state: CourseState, retrieve: RetrievalRequest -> RetrievalOutcome,
                 formatScore: real -> string, llm: seq<Message> -> LlmOutcome)
    returns (final: CourseState, request: Option<RetrievalRequest>, prompt: Option<seq<Message>>)
    ensures final.courseId == state.courseId && final.needsRetrieval == Present(false)
    ensures state.messages == [] ==>
      final.messages == [] && request.None? && prompt.None?
      && final.context == Present("") && final.retrievedDocuments == Present([])
    ensures state.messages != [] ==>
      && |final.messages| == |state.messages| + 1
      && final.messages[..|state.messages|] == state.messages
      && final.messages[|state.messages|].AI?
      && prompt.Some? && |prompt.value| >= 2 && prompt.value[1] == System(CourseContextMessage(final))
    // Without a course id nothing is retrieved, the model is told so, and its
    // reply comes back without a citation.
    ensures state.messages != [] && !IsNonEmpty(state.courseId) ==>
      && request.None?
      && final.context == Present(NoCourseIdContext)
      && (llm(prompt.value).Reply? ==> final.messages[|state.messages|] == AI(llm(prompt.value).text))
    // With a course id the retriever is asked for the last message's text.
    ensures state.messages != [] && IsNonEmpty(state.courseId) ==>
      request == Some(RetrievalRequest(state.messages[|state.messages| - 1].content,
                                       state.courseId.value, RetrievalK, RetrievalScoreThreshold))
    // A retriever error becomes the context, and the reply stays uncited.
    ensures request.Some? && retrieve(request.value).RetrievalError? ==>
      && final.context == Present(RetrievalErrorPrefix + retrieve(request.value).error)
      && final.retrievedDocuments == Present([])
      && (llm(prompt.value).Reply? ==> final.messages[|state.messages|] == AI(llm(prompt.value).text))
    // Found documents and their rendering become the state's.
    ensures request.Some? && retrieve(request.value).RetrievalResults? ==>
      var docs := retrieve(request.value).results;
      && final.retrievedDocuments == Present(docs)
      && final.context == Present(RenderContext(docs, formatScore))
    // With documents, the reply is cited with their number.
    ensures request.Some? && retrieve(request.value).RetrievalResults? && prompt.Some? && llm(prompt.value).Reply? ==>
      var docs := retrieve(request.value).results;
      && final.retrievedDocuments == Present(docs)
      && final.messages[|state.messages|]
         == AI(if docs == [] then llm(prompt.value).text
               else llm(prompt.value).text + CitationSuffix(|docs|))
    ensures state.messages != [] && llm(prompt.value).Raised? ==>
      final.messages[|state.messages|] == AI(GenerationApology)
  {
    var update;
    update, request := RetrieveNode(state, retrieve, formatScore);
    var retrieved := AfterRetrieve(state, update);
    var step := GenerateNode(retrieved, llm);
    // The retrieval node always leaves a string context behind, so the
    // generation node's `len(context)` cannot raise here.
    assert step.GenerateStep?;
    prompt := step.prompt;
    final := retrieved.(messages := retrieved.messages + step.messages);
    if state.messages != [] {
      assert final.messages[..|state.messages|] == state.messages;
      assert CourseContextMessage(final) == CourseContextMessage(retrieved);
      assert prompt.value[1] == System(CourseContextMessage(retrieved));
    }
  }
}
