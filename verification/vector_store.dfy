/**
 * `CustomWeaviateVectorStore`: the vector store the chat chain retrieves from.
 * Weaviate's own search (`_perform_search`) is replaced by its result, the
 * `(document, score)` pairs, given as input.
 */
module VectorStore {
  import opened Json
  import opened Documents
  import Chatbot

  /** The metadata key the search writes each hit's score under. */
  const ScoreKey := "score"

  /**
   * `__init__`: an absent `use_multi_tenancy` becomes `False`; a given value is
   * passed on to the base store as it is.
   */
  function MultiTenancySetting(useMultiTenancy: Option<bool>): (r: bool)
    ensures useMultiTenancy.None? ==> !r
    ensures useMultiTenancy.Some? ==> r == useMultiTenancy.value
  {
    match useMultiTenancy
    case None => false
    case Some(b) => b
  }

  /**
   * `similarity_search`: writes each hit's score into its document's metadata
   * under "score" (replacing any earlier value) and returns the documents in
   * the order the search ranked them.
   */
  method SimilaritySearch(hits: seq<(Document, real)>) returns (results: seq<Document>)
    ensures |results| == |hits|
    ensures forall i :: 0 <= i < |hits| ==>
              && results[i].pageContent == hits[i].0.pageContent
              && ScoreKey in results[i].metadata
              && results[i].metadata[ScoreKey] == JNum(hits[i].1)
              && results[i].metadata.Keys == hits[i].0.metadata.Keys + {ScoreKey}
              && (forall key :: key in hits[i].0.metadata && key != ScoreKey ==>
                    results[i].metadata[key] == hits[i].0.metadata[key])
  {
    results := [];
    for i := 0 to |hits|
      invariant |results| == i
      invariant forall j :: 0 <= j < i ==>
                  results[j] == hits[j].0.(metadata := hits[j].0.metadata[ScoreKey := JNum(hits[j].1)])
    {
      var (doc, score) := hits[i];
      var annotated := doc.(metadata := doc.metadata[ScoreKey := JNum(score)]);
      results := results + [annotated];
    }
  }

  /**
   * What the chat page receives from the store: every chunk carries a numeric
   * score, and those are the search's scores in rank order, so the citation
   * threshold never raises on them.
   */
  lemma SearchResultsHaveScores(hits: seq<(Document, real)>, results: seq<Document>)
    requires |results| == |hits|
    requires forall i :: 0 <= i < |hits| ==>
               ScoreKey in results[i].metadata && results[i].metadata[ScoreKey] == JNum(hits[i].1)
    ensures Chatbot.ContextScores(results).Ok?
    ensures |Chatbot.ContextScores(results).value| == |hits|
    ensures forall i :: 0 <= i < |hits| ==> Chatbot.ContextScores(results).value[i] == hits[i].1
    ensures Chatbot.ShownSources(results).Ok?
  {
  }
}
