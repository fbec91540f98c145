/**
 * The course helper's retrieval node: it takes the last message as the
 * query, asks the course document retriever for five documents scoring at
 * least 0.5 within the state's course, and renders what comes back as the
 * context the generation node shows the model.
 */
module Retrieval {
  import opened Common
  import opened Text
  import opened Messages
  import opened CourseState

  /** The arguments of one call to the course document retriever. */
  datatype RetrievalRequest = RetrievalRequest(query: string, courseId: string, k: int, scoreThreshold: real)

  /** What the retriever returns: a result carrying an `error` entry, or the
      list of documents it found (a missing list is an empty one). */
  datatype RetrievalOutcome = RetrievalError(error: string) | RetrievalResults(results: seq<Doc>)

  /** The state update the node returns. */
  datatype RetrieveUpdate = RetrieveUpdate(retrievedDocuments: seq<Doc>, context: string, needsRetrieval: bool)

  const RetrievalK: int := 5
  const RetrievalScoreThreshold: real := 0.5

  const ContextHeader: string := "# Retrieved Course Materials\n"
  const NoMaterialsContext: string := "No relevant course materials found for this query."
  const NoCourseIdContext: string := "Error: No course_id provided"
  const RetrievalErrorPrefix: string := "Error retrieving documents: "
  const MetadataLabel: string := "**Metadata:**"
  const SectionRule: string := "---\n"
  const HeadingPrefix: string := "## Document "

  /** The heading of the `i`-th document, with its score as formatted by
      `{score:.2f}`. */
  function Heading(i: nat, score: string): string {
    HeadingPrefix + NatToString(i) + " (Relevance: " + score + ")"
  }

  function MetadataLine(key: string, value: string): string {
    "- " + key + ": " + value
  }

  function ContentPart(content: string): string {
    "\n**Content:**\n" + content + "\n"
  }

  /** The metadata lines of one document: every entry but `course_id`, in
      dictionary order. */
  function MetadataLines(md: Metadata): seq<string> {
    if md == [] then []
    else
      var (key, value) := md[|md| - 1];
      MetadataLines(md[..|md| - 1]) + (if key != "course_id" then [MetadataLine(key, value)] else [])
  }

  /** The context parts of the `i`-th document: its heading, the metadata
      block when the metadata is non-empty, its content and the rule. */
  function SectionParts(i: nat, doc: Doc, formatScore: real -> string): seq<string> {
    [Heading(i, formatScore(doc.relevanceScore.GetOr(0.0)))]
    + (if doc.metadata != [] then [MetadataLabel] + MetadataLines(doc.metadata) else [])
    + [ContentPart(doc.content), SectionRule]
  }

  /** The sections of all documents, numbered from 1 in input order. */
  function Sections(docs: seq<Doc>, formatScore: real -> string): seq<string> {
    if docs == [] then []
    else Sections(docs[..|docs| - 1], formatScore) + SectionParts(|docs|, docs[|docs| - 1], formatScore)
  }

  /** The context rendered for the documents the retriever returned. */
  function RenderContext(docs: seq<Doc>, formatScore: real -> string): string {
    if docs == [] then NoMaterialsContext
    else Join([ContextHeader] + Sections(docs, formatScore), "\n")
  }

  /** `retrieve_node`. The retriever and the `:.2f` score formatting are
      passed in; `request` is the retriever call the node made, if any. */
  method RetrieveNode(state: CourseState, retrieve: RetrievalRequest -> RetrievalOutcome,
                      formatScore: real -> string)
    returns (update: RetrieveUpdate, request: Option<RetrievalRequest>)
    ensures !update.needsRetrieval
    ensures state.messages == [] ==>
      request.None? && update == RetrieveUpdate([], "", false)
    ensures state.messages != [] && !IsNonEmpty(state.courseId) ==>
      request.None? && update == RetrieveUpdate([], NoCourseIdContext, false)
    ensures state.messages != [] && IsNonEmpty(state.courseId) ==>
      request == Some(RetrievalRequest(state.messages[|state.messages| - 1].content,
                                       state.courseId.value, RetrievalK, RetrievalScoreThreshold))
    ensures request.Some? && retrieve(request.value).RetrievalError? ==>
      update == RetrieveUpdate([], RetrievalErrorPrefix + retrieve(request.value).error, false)
    ensures request.Some? && retrieve(request.value).RetrievalResults? ==>
      var docs := retrieve(request.value).results;
      update == RetrieveUpdate(docs, RenderContext(docs, formatScore), false)
  {
    var messages := state.messages;
    if messages == [] {
      return RetrieveUpdate([], "", false), None;
    }
    var query := messages[|messages| - 1].content;
    if !IsNonEmpty(state.courseId) {
      return RetrieveUpdate([], NoCourseIdContext, false), None;
    }
    var courseId := state.courseId.value;
    request := Some(RetrievalRequest(query, courseId, 5, 0.5));
    var retrievalResult := retrieve(request.value);
    if retrievalResult.RetrievalError? {
      return RetrieveUpdate([], RetrievalErrorPrefix + retrievalResult.error, false), request;
    }
    var documents := retrievalResult.results;
    var context := BuildContext(documents, formatScore);
    update := RetrieveUpdate(documents, context, false);
  }

  /** The context assembly of `retrieve_node`: the sentinel for no documents,
      otherwise the header and one section per document, joined by newlines. */
  method BuildContext(documents: seq<Doc>, formatScore: real -> string) returns (context: string)
    ensures context == RenderContext(documents, formatScore)
  {
    if documents == [] {
      return NoMaterialsContext;
    }
    var contextParts := [ContextHeader];
    for i := 0 to |documents|
      invariant contextParts == [ContextHeader] + Sections(documents[..i], formatScore)
    {
      contextParts := AppendSection(contextParts, i + 1, documents[i], formatScore);
      assert documents[..i + 1][..i] == documents[..i];
    }
    assert documents[..|documents|] == documents;
    context := Join(contextParts, "\n");
  }

  /** One iteration of the document loop: appends the `i`-th document's
      section to the parts built so far. */
  method AppendSection(parts: seq<string>, i: nat, doc: Doc, formatScore: real -> string)
    returns (result: seq<string>)
    ensures result == parts + SectionParts(i, doc, formatScore)
  {
    var score := doc.relevanceScore.GetOr(0.0);
    result := parts + [Heading(i, formatScore(score))];
    if doc.metadata != [] {
      result := result + [MetadataLabel];
      result := AppendMetadataLines(result, doc.metadata);
    }
    result := result + [ContentPart(doc.content), SectionRule];
  }

  /** The metadata loop: one line per entry, skipping `course_id`. */
  method AppendMetadataLines(parts: seq<string>, metadata: Metadata) returns (result: seq<string>)
    ensures result == parts + MetadataLines(metadata)
  {
    result := parts;
    for j := 0 to |metadata|
      invariant result == parts + MetadataLines(metadata[..j])
    {
      var (key, value) := metadata[j];
      assert metadata[..j + 1][..j] == metadata[..j];
      if key != "course_id" {
        result := result + [MetadataLine(key, value)];
      }
    }
    assert metadata[..|metadata|] == metadata;
  }

  // ---------------------------------------------------------------------
  // Properties of the rendered context

  /** A non-empty result renders a context that starts with the header. */
  lemma ContextStartsWithHeader(docs: seq<Doc>, formatScore: real -> string)
    requires docs != []
    ensures ContextHeader <= RenderContext(docs, formatScore)
  {
    JoinStartsWithFirst([ContextHeader] + Sections(docs, formatScore), "\n");
  }

  /** The parts that open a document section. */
  function HeadingsOf(parts: seq<string>): seq<string> {
    if parts == [] then []
    else HeadingsOf(parts[..|parts| - 1]) + (if HeadingPrefix <= parts[|parts| - 1] then [parts[|parts| - 1]] else [])
  }

  lemma {:induction false} HeadingsOfAppend(a: seq<string>, b: seq<string>)
    ensures HeadingsOf(a + b) == HeadingsOf(a) + HeadingsOf(b)
    decreases |b|
  {
    if b == [] {
      assert a + b == a;
    } else {
      assert (a + b)[..|a + b| - 1] == a + b[..|b| - 1];
      HeadingsOfAppend(a, b[..|b| - 1]);
    }
  }

  /** No metadata line opens a section. */
  lemma {:induction false} MetadataLinesAreNotHeadings(md: Metadata)
    ensures HeadingsOf(MetadataLines(md)) == []
    decreases |md|
  {
    if md != [] {
      var (key, value) := md[|md| - 1];
      var tail := if key != "course_id" then [MetadataLine(key, value)] else [];
      MetadataLinesAreNotHeadings(md[..|md| - 1]);
      HeadingsOfAppend(MetadataLines(md[..|md| - 1]), tail);
      if key != "course_id" {
        assert MetadataLine(key, value)[1] == ' ';
        NotAHeading(MetadataLine(key, value));
      }
    }
  }

  /** Each section has exactly one heading, its own. */
  lemma SectionHasOneHeading(i: nat, doc: Doc, formatScore: real -> string)
    ensures HeadingsOf(SectionParts(i, doc, formatScore)) == [Heading(i, formatScore(doc.relevanceScore.GetOr(0.0)))]
  {
    var h := Heading(i, formatScore(doc.relevanceScore.GetOr(0.0)));
    var block := if doc.metadata != [] then [MetadataLabel] + MetadataLines(doc.metadata) else [];
    var c := ContentPart(doc.content);
    assert SectionParts(i, doc, formatScore) == [h] + block + [c] + [SectionRule];
    HeadingsOfAppend([h] + block + [c], [SectionRule]);
    HeadingsOfAppend([h] + block, [c]);
    HeadingsOfAppend([h], block);
    assert HeadingsOf([h]) == [h] by {
      assert [h][..0] == [];
    }
    if doc.metadata != [] {
      HeadingsOfAppend([MetadataLabel], MetadataLines(doc.metadata));
      MetadataLinesAreNotHeadings(doc.metadata);
      LabelIsNoHeading(MetadataLabel);
    }
    assert c[1] == '*';
    NotAHeading(c);
    RuleIsNoHeading(SectionRule);
  }

  lemma LabelIsNoHeading(l: string)
    requires l == MetadataLabel
    ensures HeadingsOf([l]) == []
  {
    assert l[1] == '*';
    NotAHeading(l);
  }

  lemma RuleIsNoHeading(l: string)
    requires l == SectionRule
    ensures HeadingsOf([l]) == []
  {
    assert l[1] == '-';
    NotAHeading(l);
  }

  /** The sections open with one heading per document, numbered 1 to n in
      the order the retriever returned the documents. */
  lemma {:induction false} SectionHeadingsInOrder(docs: seq<Doc>, formatScore: real -> string)
    ensures HeadingsOf(Sections(docs, formatScore))
         == seq(|docs|, i requires 0 <= i < |docs| => Heading(i + 1, formatScore(docs[i].relevanceScore.GetOr(0.0))))
    decreases |docs|
  {
    if docs != [] {
      var n := |docs|;
      var init, last := docs[..n - 1], docs[n - 1];
      var h := Heading(n, formatScore(last.relevanceScore.GetOr(0.0)));
      assert HeadingsOf(Sections(docs, formatScore)) == HeadingsOf(Sections(init, formatScore)) + [h] by {
        HeadingsOfAppend(Sections(init, formatScore), SectionParts(n, last, formatScore));
        SectionHasOneHeading(n, last, formatScore);
      }
      SectionHeadingsInOrder(init, formatScore);
      assert seq(n, i requires 0 <= i < n => Heading(i + 1, formatScore(docs[i].relevanceScore.GetOr(0.0))))
          == seq(n - 1, i requires 0 <= i < n - 1 => Heading(i + 1, formatScore(init[i].relevanceScore.GetOr(0.0)))) + [h];
    }
  }

  /** The header is not a heading, so the context's headings are exactly the
      documents' headings in order. */
  lemma ContextHeadingsInOrder(docs: seq<Doc>, formatScore: real -> string)
    ensures HeadingsOf([ContextHeader] + Sections(docs, formatScore))
         == seq(|docs|, i requires 0 <= i < |docs| => Heading(i + 1, formatScore(docs[i].relevanceScore.GetOr(0.0))))
  {
    HeadingsOfAppend([ContextHeader], Sections(docs, formatScore));
    HeaderIsNoHeading(ContextHeader);
    SectionHeadingsInOrder(docs, formatScore);
  }

  /** A part whose second character is not `#` opens no section. */
  lemma NotAHeading(p: string)
    requires |p| >= 2 && p[1] != '#'
    ensures HeadingsOf([p]) == []
  {
    assert [p][..0] == [];
    assert HeadingPrefix[1] == '#';
  }

  lemma HeaderIsNoHeading(h: string)
    requires h == ContextHeader
    ensures HeadingsOf([h]) == []
  {
    assert h[1] == ' ';
    NotAHeading(h);
  }

  /** Every section ends with the rule, and carries the metadata label
      exactly when the document's metadata is non-empty. */
  lemma SectionShape(i: nat, doc: Doc, formatScore: real -> string)
    ensures var parts := SectionParts(i, doc, formatScore);
      && |parts| >= 3 && parts[|parts| - 1] == SectionRule
      && parts[|parts| - 2] == ContentPart(doc.content)
      && (MetadataLabel in parts <==> doc.metadata != [])
  {
    var parts := SectionParts(i, doc, formatScore);
    var h := Heading(i, formatScore(doc.relevanceScore.GetOr(0.0)));
    if doc.metadata == [] {
      assert parts == [h, ContentPart(doc.content), SectionRule];
      assert h[0] == '#' && ContentPart(doc.content)[0] == '\n';
    } else {
      assert parts[1] == MetadataLabel;
    }
  }

  // ---------------------------------------------------------------------
  // Properties of the metadata lines

  lemma {:induction false} MetadataLinesAppend(a: Metadata, b: Metadata)
    ensures MetadataLines(a + b) == MetadataLines(a) + MetadataLines(b)
    decreases |b|
  {
    if b == [] {
      assert a + b == a;
    } else {
      assert (a + b)[..|a + b| - 1] == a + b[..|b| - 1];
      assert (a + b)[|a + b| - 1] == b[|b| - 1];
      MetadataLinesAppend(a, b[..|b| - 1]);
    }
  }

  /** Without a `course_id` entry every entry gives one line, in order. */
  lemma {:induction false} MetadataLinesWithoutCourseId(md: Metadata)
    requires forall i :: 0 <= i < |md| ==> md[i].0 != "course_id"
    ensures |MetadataLines(md)| == |md|
    ensures forall i :: 0 <= i < |md| ==> MetadataLines(md)[i] == MetadataLine(md[i].0, md[i].1)
    decreases |md|
  {
    if md != [] {
      MetadataLinesWithoutCourseId(md[..|md| - 1]);
    }
  }

  /** A `course_id` entry, wherever it stands, contributes no line. */
  lemma MetadataLinesSkipCourseId(a: Metadata, value: string, b: Metadata)
    ensures MetadataLines(a + [("course_id", value)] + b) == MetadataLines(a + b)
  {
    MetadataLinesAppend(a + [("course_id", value)], b);
    MetadataLinesAppend(a, [("course_id", value)]);
    MetadataLinesAppend(a, b);
    assert MetadataLines([("course_id", value)]) == [] by {
      assert [("course_id", value)][..0] == [];
    }
  }
}
