/** The shapes the course helper pipeline passes around: retrieved documents
    with their metadata, and the graph state (a dictionary whose optional keys
    may be missing or hold `None`). */
module CourseState {
  import opened Common
  import opened Messages

  /** A metadata dictionary, in insertion order; values are given by their
      `str()` text. */
  type Metadata = seq<(string, string)>

  /** `metadata.get(key)`: the value of the first entry with that key. */
  function Get(md: Metadata, key: string): (r: Option<string>)
    ensures r.None? <==> forall i :: 0 <= i < |md| ==> md[i].0 != key
    ensures r.Some? ==> exists i :: 0 <= i < |md| && md[i] == (key, r.value)
  {
    if md == [] then None
    else if md[0].0 == key then Some(md[0].1)
    else
      var r := Get(md[1..], key);
      assert forall i :: 1 <= i < |md| ==> md[i] == md[1..][i - 1];
      r
  }

  /** A retrieved document: its text, its metadata (a missing dictionary is
      empty) and its relevance score when the retriever gave one. */
  datatype Doc = Doc(content: string, metadata: Metadata, relevanceScore: Option<real>)

  /** The course helper's graph state. A missing `messages` key behaves as an
      empty list everywhere it is read, so it is a plain sequence. */
  datatype CourseState = CourseState(
    messages: seq<Message>,
    courseId: Field<string>,
    retrievedDocuments: Field<seq<Doc>>,
    context: Field<string>,
    needsRetrieval: Field<bool>)

  /** Python truthiness of an optional string entry. */
  predicate IsNonEmpty(f: Field<string>) {
    f.Present? && f.value != ""
  }
}
