/**
 * The regulation search tool: it clamps the requested number of results,
 * runs a similarity search over the regulation vector store, reports the
 * hits in store order and keeps them, with the query, in the agent's
 * runtime state. A failed search becomes a fixed error response.
 */
module RegulationTool {
  import opened Common
  import opened CourseState

  /** A document of the vector store. */
  datatype StoreDoc = StoreDoc(pageContent: string, metadata: Metadata)

  /** What `similarity_search_with_score` gives: `(doc, score)` pairs, or
      the error it raised. */
  datatype SearchOutcome = Hits(pairs: seq<(StoreDoc, real)>) | SearchFailed(error: string)

  /** One entry of `results`. */
  datatype RegulationResult = RegulationResult(content: string, metadata: Metadata, relevanceScore: real)

  /** The tool's response; `error` is present on the failure path only. */
  datatype RegulationResponse =
    RegulationResponse(error: Option<string>, query: string, numResults: nat, results: seq<RegulationResult>)

  const MaxK: int := 20
  /** The number of results asked for when the caller gives none. */
  const DefaultK: int := 5
  const SearchErrorPrefix: string := "Error querying vector store: "

  /** The two entries the tool writes into the runtime state; `None` until
      written. */
  class ToolRuntimeState {
    var regulationSearchResults: Option<seq<RegulationResult>>
    var lastRegulationQuery: Option<string>

    constructor()
      ensures regulationSearchResults.None? && lastRegulationQuery.None?
    {
      regulationSearchResults := None;
      lastRegulationQuery := None;
    }
  }

  /** `max(1, min(k, 20))`. */
  function EffectiveK(k: int): (e: int)
    ensures 1 <= e <= MaxK
    ensures 1 <= k <= MaxK ==> e == k
    ensures k < 1 ==> e == 1
    ensures k > MaxK ==> e == MaxK
  {
    var capped := if k < MaxK then k else MaxK;
    if 1 < capped then capped else 1
  }

  /** Clamping twice is clamping once, and a larger request never gives a
      smaller effective count. */
  lemma EffectiveKStable(k: int, k2: int)
    ensures EffectiveK(EffectiveK(k)) == EffectiveK(k)
    ensures k <= k2 ==> EffectiveK(k) <= EffectiveK(k2)
  {
  }

  /** The default request is searched as it is. */
  lemma DefaultKUnchanged()
    ensures EffectiveK(DefaultK) == DefaultK
  {
  }

  function ResultOf(pair: (StoreDoc, real)): RegulationResult {
    RegulationResult(pair.0.pageContent, pair.0.metadata, pair.1)
  }

  /** The loop over `(doc, score)` pairs. */
  method FormatResults(pairs: seq<(StoreDoc, real)>) returns (results: seq<RegulationResult>)
    ensures |results| == |pairs|
    ensures forall i :: 0 <= i < |pairs| ==>
      && results[i].content == pairs[i].0.pageContent
      && results[i].metadata == pairs[i].0.metadata
      && results[i].relevanceScore == pairs[i].1
  {
    results := [];
    for i := 0 to |pairs|
      invariant |results| == i
      invariant forall j :: 0 <= j < i ==> results[j] == ResultOf(pairs[j])
    {
      var (doc, score) := pairs[i];
      results := results + [RegulationResult(doc.pageContent, doc.metadata, score)];
    }
  }

  /** `query_school_regulations`, with the store search passed in; `searchK`
      is the number of results the search was asked for. */
  method QuerySchoolRegulations(runtime: ToolRuntimeState, query: string, k: int,
                                search: (string, int) -> SearchOutcome)
    returns (response: RegulationResponse, searchK: int)
    modifies runtime
    ensures searchK == EffectiveK(k) && 1 <= searchK <= MaxK
    ensures response.query == query && response.numResults == |response.results|
    ensures search(query, searchK).SearchFailed? ==>
      && response == RegulationResponse(Some(SearchErrorPrefix + search(query, searchK).error), query, 0, [])
      && unchanged(runtime)
    ensures search(query, searchK).Hits? ==>
      var pairs := search(query, searchK).pairs;
      && response.error.None?
      && |response.results| == |pairs|
      && (forall i :: 0 <= i < |pairs| ==> response.results[i] == ResultOf(pairs[i]))
      && runtime.regulationSearchResults == Some(response.results)
      && runtime.lastRegulationQuery == Some(query)
  {
    searchK := EffectiveK(k);
    var outcome := search(query, searchK);
    if outcome.SearchFailed? {
      return RegulationResponse(Some(SearchErrorPrefix + outcome.error), query, 0, []), searchK;
    }
    var formattedResults := FormatResults(outcome.pairs);
    runtime.regulationSearchResults := Some(formattedResults);
    runtime.lastRegulationQuery := Some(query);
    response := RegulationResponse(None, query, |formattedResults|, formattedResults);
  }
}
