# note.verse.ai agents in Dafny

note.verse.ai is a university assistant built from two agent graphs.

- The **course helper** answers student questions from course material (retrieval-augmented generation).
  - A retrieval node asks the course-document retriever for the five best documents of the student's course.
  - It renders them as a Markdown context.
  - A generation node prompts the language model with a fixed system prompt, that context, the chat history and the question.
  - It appends a citation line when documents were found, or answers with a fixed apology when the model call fails.
  - Utility functions build the initial state and the session's thread id, render conversations, list sources, estimate tokens, truncate context, decide whether retrieval is worthwhile, validate course ids and build error responses.
  - A regulation search tool clamps the requested result count, searches a vector store and keeps the hits in the agent's runtime state.
- The **school web site agent** routes each question.
  - A router finds the student's latest message and asks the model whether the announcement agent or the regulation ("yönetmelik") agent should answer.
  - It records the decision in the graph state in place and reports it on the stream writer.
  - Every failure falls back to the announcement agent.
  - The announcement scraper turns each item of the department's "/Duyurular" page into a `{title, url, date}` record and skips incomplete items.

The model follows the program's structure:

| module | file | models |
|---|---|---|
| `Common` | common.dfy | `Option`; `Field` for a dictionary key that is missing, `None` or set |
| `Messages` | messages.dfy | chat messages and the outcome of a model call |
| `CourseState` | course_state.dfy | retrieved documents, metadata lookup, the course helper's state |
| `Text` | text.dfy | the Python `str` operations the code uses |
| `CourseUtils` | course_utils.dfy | src/apps/course_helper_agent/utils.py |
| `Retrieval` | retrieval.dfy | src/apps/course_helper_agent/nodes/retrieval.py |
| `Generate` | generate.dfy | src/apps/course_helper_agent/nodes/generate.py |
| `CourseGraph` | course_graph.dfy | one turn of src/apps/course_helper_agent/graph.py |
| `Orchestrator` | orchestrator.dfy | `AgentType`, `router_node` and `route_to_agent` of src/apps/school_web_site_agent/orchestrator.py |
| `RegulationTool` | regulation_tool.dfy | src/apps/course_helper_agent/tool.py |
| `Announcements` | announcements.dfy | the item loop of src/apps/school_web_site_agent/tools.py |

Code that changes things step by step is modelled as methods with loops:

- the retrieval node's context assembly;
- the conversation and source loops;
- the router's backward scan;
- the result loop of the regulation tool;
- the scraper's item loop.

Each method is proved against a specification function.

Objects the source updates in place are classes:

- the caller's message list in `create_initial_state`;
- the router's graph state and its stream writer;
- the tool's runtime state.

The generation node, the utilities that only compute, and `route_to_agent` are functions.

Calls to code outside the model are parameters:

- the language model, the course-document retriever and the vector store search;
- the `:.2f` formatting of a relevance score.

A method reports the call it made (`request`, `prompt`, `searchK`), so the branches that make no call can be stated.

## Model

| member | source | states |
|---|---|---|
| CourseUtils.CreateInitialState | src/apps/course_helper_agent/utils.py:25-34 | a non-empty history list becomes the state's list and gains the question at its end in place; a missing or empty history gives a fresh list holding only the question, and an empty caller list stays empty; course id set, documents and context `None`, retrieval needed |
| CourseUtils.CreateSessionConfig | src/apps/course_helper_agent/utils.py:48-56 | the thread id is `session-<session id>`, followed by `-<course id>` exactly when a non-empty course id is given |
| CourseUtils.SessionConfigInjective | src/apps/course_helper_agent/utils.py:48-56 | under the same course id, equal thread ids mean equal session ids |
| CourseUtils.SessionConfigCollides | src/apps/course_helper_agent/utils.py:48-56 | session `a-b` without a course and session `a` of course `b` share one thread id |
| CourseUtils.FormatConversationHistory | src/apps/course_helper_agent/utils.py:69-78 | the loop's result is the labelled messages in order, joined by blank lines |
| CourseUtils.RenderedHistoryEmpty | src/apps/course_helper_agent/utils.py:69-78 | an empty conversation renders as "" |
| CourseUtils.RenderedHistoryAppend | src/apps/course_helper_agent/utils.py:69-78 | one more message adds a blank line and its `Student:`/`Assistant:`/`System:` line at the end |
| CourseUtils.RenderedHistoryStartsWithFirst | src/apps/course_helper_agent/utils.py:69-78 | the rendering begins with the first message's labelled text |
| CourseUtils.SourceOf | src/apps/course_helper_agent/utils.py:93-99 | source is the metadata's `source` when present and "Unknown" when absent; page and section are the metadata's entries or `None`; the score is the document's or 0 |
| CourseUtils.ExtractSourcesFromDocuments | src/apps/course_helper_agent/utils.py:91-101 | one source entry per document, same length and order |
| CourseUtils.EstimateTokenCount | src/apps/course_helper_agent/utils.py:115 | the estimate n satisfies 4n ≤ length < 4n + 4 |
| CourseUtils.TruncateContext | src/apps/course_helper_agent/utils.py:179-193 | a context within the budget is returned unchanged; any result is the context itself or a prefix of it followed by the truncation marker |
| CourseUtils.DefaultBudgetKeepsShortContexts | src/apps/course_helper_agent/utils.py:168-182 | under the default budget of 4000 tokens, every context of fewer than 16004 characters is returned unchanged |
| CourseUtils.TruncateWithinBudget | src/apps/course_helper_agent/utils.py:179-182 | a context whose estimate is within the budget is returned unchanged |
| CourseUtils.TruncateOverBudget | src/apps/course_helper_agent/utils.py:179-193 | over budget the result is a prefix of the context, strictly shorter when the context is non-empty, followed by the fixed marker; for a non-negative budget the prefix has at most 4·max_tokens characters and the result's estimate exceeds the budget by at most 9 |
| CourseUtils.KeptPrefix | src/apps/course_helper_agent/utils.py:185-191 | the kept part is a prefix of the `context[:max_chars]` cut (where it is cut is stated by KeptPrefixAtPeriod) |
| CourseUtils.KeptPrefixAtPeriod | src/apps/course_helper_agent/utils.py:185-191 | the kept part is the whole cut, or ends at the cut's last period lying past four fifths of the cut, or (negative budget only) is empty for a cut without a period; conversely, a last period past four fifths is always cut at, a last period before that keeps the whole cut, and a cut without a period is kept whole for a non-negative budget and dropped for a negative one |
| CourseUtils.ShouldRetrieve | src/apps/course_helper_agent/utils.py:118-145 | retrieval is skipped only for a greeting or for a question of at most two words that contains an acknowledgement; GreetingSkips and ShortAcknowledgementSkips give the two skip rules, PlainQuestionRetrieves the retrieval of any question that is neither, and MoreThanTwoWordsRetrieves the retrieval of every longer question |
| CourseUtils.PlainQuestionRetrieves | src/apps/course_helper_agent/utils.py:144-145 | a question that is no greeting and contains no acknowledgement is retrieved, short or not |
| CourseUtils.GreetingSkips | src/apps/course_helper_agent/utils.py:133-138 | a question that is a greeting after `lower` and `strip` is not sent to retrieval |
| CourseUtils.ShortAcknowledgementSkips | src/apps/course_helper_agent/utils.py:141-142 | a question of at most two words whose lowered, stripped text contains "ok", "sure", "yes" or "no" is not sent to retrieval |
| CourseUtils.ShortQuestionWithNoInsideSkips | src/apps/course_helper_agent/utils.py:141-142 | the substring test also skips retrieval for "grading notes" |
| CourseUtils.GradingNotesIsTwoPlainWords | src/apps/course_helper_agent/utils.py:135-141 | "grading notes" has two words and lower/strip leave it unchanged |
| CourseUtils.MoreThanTwoWordsRetrieves | src/apps/course_helper_agent/utils.py:133-145 | every question of more than two words is sent to retrieval (no greeting has more than two words) |
| CourseUtils.GreetingsAreShort | src/apps/course_helper_agent/utils.py:134 | each greeting has at most two words |
| CourseUtils.ValidateCourseId | src/apps/course_helper_agent/utils.py:158-165 | valid iff a string of 2 to 20 characters |
| CourseUtils.CreateErrorResponse | src/apps/course_helper_agent/utils.py:206-211 | one AI message with the apology prefix and the error; documents `[]`, context "", no retrieval |
| CourseUtils.GetAnswerFromResult | src/apps/course_helper_agent/utils.py:224-232 | `None` iff there are no messages, otherwise the last message's text |
| CourseUtils.ErrorResponseAnswer | src/apps/course_helper_agent/utils.py:206-232 | reading back an error response gives the apology followed by the error text |
| CourseState.Get | src/apps/course_helper_agent/utils.py:94-98 | `None` iff no entry has the key; otherwise the value of an entry with that key |
| Retrieval.RetrieveNode | src/apps/course_helper_agent/nodes/retrieval.py:25-97 | no messages: no retriever call, `[]` and ""; no or empty course id: no call, `[]` and the fixed error context; otherwise one call with the last message's text, the course id, k 5 and threshold 0.5; a retriever error gives `[]` and the error context; results give exactly the retriever's list and its rendered context; retrieval is never needed afterwards |
| Retrieval.BuildContext | src/apps/course_helper_agent/nodes/retrieval.py:68-89 | the loops' result is the sentinel for no documents, otherwise the header and the sections joined by newlines |
| Retrieval.AppendSection | src/apps/course_helper_agent/nodes/retrieval.py:73-87 | one iteration appends exactly the document's section: heading, optional metadata block, content, rule |
| Retrieval.AppendMetadataLines | src/apps/course_helper_agent/nodes/retrieval.py:82-84 | the metadata loop appends exactly the metadata lines |
| Retrieval.ContextStartsWithHeader | src/apps/course_helper_agent/nodes/retrieval.py:71-89 | a context for found documents begins with "# Retrieved Course Materials\n" |
| Retrieval.SectionHasOneHeading | src/apps/course_helper_agent/nodes/retrieval.py:73-87 | a section contains exactly one "## Document " part, its own heading |
| Retrieval.SectionHeadingsInOrder | src/apps/course_helper_agent/nodes/retrieval.py:73-78 | the sections' headings are, in order, "## Document i (Relevance: s)" for i = 1..n with each document's score |
| Retrieval.ContextHeadingsInOrder | src/apps/course_helper_agent/nodes/retrieval.py:71-89 | the same holds for the whole list of context parts, header included |
| Retrieval.SectionShape | src/apps/course_helper_agent/nodes/retrieval.py:80-87 | every section ends with the content part and the "---\n" rule, and contains "**Metadata:**" iff the metadata is non-empty |
| Retrieval.MetadataLinesWithoutCourseId | src/apps/course_helper_agent/nodes/retrieval.py:82-84 | without a `course_id` entry every entry gives its `- key: value` line, in order |
| Retrieval.MetadataLinesSkipCourseId | src/apps/course_helper_agent/nodes/retrieval.py:82-84 | a `course_id` entry anywhere contributes no line |
| Generate.CitedCount | src/apps/course_helper_agent/nodes/generate.py:83-84 | positive iff the state holds a non-empty document list, and then its length |
| Generate.GenerateNode | src/apps/course_helper_agent/nodes/generate.py:42-98 | no messages: no model call, no messages; a `None` context with messages: the `TypeError` of `len(context)` escapes before any model call; otherwise one model call with the prompt and exactly one AI message; a failed call gives the fixed apology; a reply is kept as the answer's prefix, and the answer is longer than the reply iff documents were retrieved |
| Generate.PromptLayout | src/apps/course_helper_agent/nodes/generate.py:50-64 | prompt = RAG system prompt, course message, every message but the last, then the last message's text as a human message; a conversation ending with the student's message reappears unchanged |
| Generate.CourseContextDefaults | src/apps/course_helper_agent/nodes/generate.py:42-59 | each default holds on its own: a missing course id reads "unknown" whatever the context, a missing context renders as "" whatever the course id; a present course id is quoted as it is |
| Generate.CitationStatesCount | src/apps/course_helper_agent/nodes/generate.py:85 | the citation line determines the document count it states |
| Generate.FailureHidesError | src/apps/course_helper_agent/nodes/generate.py:92-98 | two failing model calls give the same result whatever their errors |
| Generate.AnswerCitesDocuments | src/apps/course_helper_agent/nodes/generate.py:83-90 | with documents, the answer is the reply followed by "\n\n---\n*Based on N course material(s)*" with N their number |
| CourseGraph.AfterRetrieve | src/apps/course_helper_agent/graph.py:32-33 | merging the retrieval update keeps the messages and the course id |
| CourseGraph.RunTurn | src/apps/course_helper_agent/graph.py:32-34 | one turn appends exactly one AI message to a non-empty conversation; without a course id nothing is retrieved, the model is told so and its reply is kept uncited; with a course id the retriever is asked for the last message's text, that course, 5 results and threshold 0.5; a retriever error becomes the context with no documents and an uncited reply; found documents and their rendered context are stored, and the reply is cited with their number when there are any; a failed model call gives the apology |
| Orchestrator.AgentFromValue | src/apps/school_web_site_agent/orchestrator.py:25-27 | `AgentType(value)` is defined exactly for the two values and returns the agent with that value |
| Orchestrator.AgentValueRoundTrip | src/apps/school_web_site_agent/orchestrator.py:25-27 | each agent is found again from its value |
| Orchestrator.StreamWriter.Write | src/apps/school_web_site_agent/orchestrator.py:108-110 | a writer that does not raise logs the event; one that raises logs nothing and raises its error |
| Orchestrator.LastHumanIndex | src/apps/school_web_site_agent/orchestrator.py:73-77 | the index of a human message after which no message is human, or -1 when none is |
| Orchestrator.FindLastUserMessage | src/apps/school_web_site_agent/orchestrator.py:72-77 | the backward scan returns the latest human message's text; nothing iff there is no human message |
| Orchestrator.Classify | src/apps/school_web_site_agent/orchestrator.py:93-102 | the regulation agent iff the stripped, upper-cased answer contains YONETMELIK (so it wins over ANNOUNCEMENT); the reason is that text, or the UNCLEAR text when neither keyword occurs |
| Orchestrator.RecordError | src/apps/school_web_site_agent/orchestrator.py:114-118 | next and current agent become the announcement agent, the reason "ERROR: " + message |
| Orchestrator.RouterNode | src/apps/school_web_site_agent/orchestrator.py:63-122 | messages never change and next_agent is always a valid agent value; no (or empty) user text: no model call, announcement agent, "No user message found", current agent and events untouched; otherwise the classifier gets only the system prompt and that text; a model failure records the error fallback; a reply records the classification in next and current agent and logs one event, unless the writer raises, whose error then overwrites the decision |
| Orchestrator.RouteToAgent | src/apps/school_web_site_agent/orchestrator.py:125-130 | no record gives the announcement agent; a record is accepted iff it is an agent value, and then gives that agent |
| Orchestrator.KeywordAnywhereRoutes | src/apps/school_web_site_agent/orchestrator.py:93-96 | YONETMELIK in any letter case anywhere in the answer routes to the regulation agent |
| Orchestrator.ClassifyIgnoresCase | src/apps/school_web_site_agent/orchestrator.py:93 | lower-casing the answer first changes neither agent nor reason |
| Orchestrator.UnclearFallsBack | src/apps/school_web_site_agent/orchestrator.py:99-102 | an answer naming neither agent routes to the announcement agent with an "UNCLEAR: " reason |
| Orchestrator.RouteAfterRouter | src/apps/school_web_site_agent/orchestrator.py:125-130 | the edge takes exactly the agent the router recorded |
| RegulationTool.EffectiveK | src/apps/course_helper_agent/tool.py:16 | the effective k lies in [1, 20], equals k inside that range, 1 below it and 20 above it |
| RegulationTool.DefaultKUnchanged | src/apps/course_helper_agent/tool.py:10-16 | the default request of 5 results is searched unchanged |
| RegulationTool.EffectiveKStable | src/apps/course_helper_agent/tool.py:16 | clamping is idempotent and monotone |
| RegulationTool.FormatResults | src/apps/course_helper_agent/tool.py:23-29 | one result per store pair, in store order, with content, metadata and the raw score copied |
| RegulationTool.QuerySchoolRegulations | src/apps/course_helper_agent/tool.py:16-52 | the search uses the clamped k; the query is echoed and num_results is the number of results in both branches; hits give one result per pair and are stored with the query in the runtime state; a failure gives the fixed error, 0 and `[]` and leaves the state untouched |
| Announcements.ListUrl | src/apps/school_web_site_agent/tools.py:13-14 | the context URL followed by "/Duyurular" |
| Announcements.FirstDateFrom | src/apps/school_web_site_agent/tools.py:56 | a dd.dd.dddd match at the returned index and none before it; none at all when nothing is returned |
| Announcements.DateOf | src/apps/school_web_site_agent/tools.py:56-57 | "N/A" iff the meta text contains no date; otherwise the ten characters of the leftmost match |
| Announcements.KeptItems | src/apps/school_web_site_agent/tools.py:33-52 | every kept item has a title element, a non-empty link and a meta element |
| Announcements.Extracted | src/apps/school_web_site_agent/tools.py:33-65 | one record per kept item |
| Announcements.ScrapeAnnouncementItems | src/apps/school_web_site_agent/tools.py:33-65 | the loop with its skips returns exactly the records of the complete items, in page order |
| Announcements.KeptItemsAreCompleteItems | src/apps/school_web_site_agent/tools.py:33-52 | the kept indices increase, an item is kept iff it is complete, and the kept items are the items at those indices |
| Announcements.RecordsFollowKeptIndices | src/apps/school_web_site_agent/tools.py:39-63 | the j-th record is built from the item at the j-th kept index |
| Announcements.ExtractedNoLonger | src/apps/school_web_site_agent/tools.py:33-65 | there are never more records than items |
| Announcements.KeptItemsAppend | src/apps/school_web_site_agent/tools.py:33-52 | the items kept from a page are those kept from its first part followed by those kept from the rest |
| Announcements.RecordLinksBelowList | src/apps/school_web_site_agent/tools.py:13-46 | every record's url lies below "<context url>/Duyurular/" |

## Left out

- Logging, `print` and the `hasattr(..., "content")` / `str(...)` fallbacks are not modelled: every message carries a text (generate.py:51, utils.py:229-232, retrieval.py:36).
- The language model, `retrieve_course_documents`, the vector store search and the browser are parameters or input values. `retrieve_course_documents` is not part of this model; its result is an error or a document list. The stream writer is an event log whose possible error is fixed when it is created.
- Playwright page loading, waits and the `.item`/`h5 a`/`.meta` selector queries (tools.py:12-29) are not modelled; the loop receives the items as values.
- Floating point is not modelled:
  - Scores are `real`.
  - `{score:.2f}` is a parameter.
  - `float(score)` passes the score through.
  - `max_chars * 0.8` is compared as `5 * last_period > 4 * max_chars`, which agrees with the float comparison for integer operands of realistic size (context lengths far below 2^50 characters, where the float product is exact).
  - A default score of `0` is the real 0.
- Case mapping is ASCII only. `str.isspace` follows the full list of Unicode whitespace code points. `\d` in the date pattern is taken as an ASCII digit, whereas Python also accepts other Unicode decimal digits.
- Metadata values are their text, so a metadata entry holding `None` is not modelled (utils.py:95-97). A document's `metadata` is always a dictionary and its `relevance_score` is a number or missing, so two cases are not modelled: a `None` score, which makes the score format raise `TypeError` at retrieval.py:78 and is returned as `None` by utils.py:98, and `None` metadata, which retrieval.py:80 skips and on which utils.py:95 raises `AttributeError`. A document without content is not modelled; the source raises `KeyError` at retrieval.py:74.
- `k=None` in the regulation tool raises at tool.py:16 outside the `try`, so k is an integer here.
- `validate_course_id` on a non-string is modelled like `None`.
- In the generation node a `None` course id is rendered as the text "None"; course ids and contexts of other types are not modelled.
- Default arguments are constants rather than optional parameters: `DefaultMaxTokens` (utils.py:168) and `DefaultK` (tool.py:10); callers of the model always pass the value.
- CourseGraph.RunTurn: the `add_messages` reducer only appends here; its replacement of messages that carry an existing id is not modelled. The checkpointer and thread-based persistence are not modelled.
- Graph construction is not part of this model: `create_orchestrator_graph` (orchestrator.py:133-162), the specialist agents, and the setup, ingestion, script and HTTP files.
- Behaviour with no code in the modelled files is not modelled:
  - an event-stream multiplexer;
  - date-range filtering of announcements;
  - session-store concurrency;
  - a `1/(1+distance)` relevance formula;
  - filtering by score threshold.
- Relevance follows the code:
  - the regulation tool passes the store's raw score through;
  - the retrieval node only forwards the 0.5 threshold to the retriever.
- Orchestrator.RouterNode: the model's answer is taken to be a string. `strip`, `upper` and the `in` tests cannot raise, so the only errors modelled are the model call's and the writer's.
