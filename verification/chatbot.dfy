/**
 * One chat turn of the page: record the question, build the source filter from
 * the sidebar selection, record the answer, and pick the context chunks to cite
 * as sources. The retrieval-and-answer chain (`qa_chain.invoke`) is a foreign
 * call; its result is an input (`QueryResult`). Scores are real numbers: the
 * IEEE rounding of `max_score * 0.9` is not modelled.
 */
module Chatbot {
  import opened Json
  import opened Documents
  import opened Selection
  import opened Session
  import Layout

  /** `submit_text`, the chat input's submit callback. */
  method SubmitText(state: SessionState)
    modifies state`messageSent
    ensures state.messageSent
  {
    state.messageSent := true;
  }

  // ---------------------------------------------------------------------------
  // The `where` filter sent with the query
  // ---------------------------------------------------------------------------

  /** One `{"path": [...], "operator": ..., "valueText": ...}` clause. */
  datatype Clause = Clause(path: seq<string>, operator: string, valueText: string)

  /** The `{"operator": ..., "operands": [...]}` filter. */
  datatype WhereFilter = WhereFilter(operator: string, operands: seq<Clause>)

  /** `str.lower()` on ASCII letters. */
  function LowerChar(c: char): char {
    if 'A' <= c <= 'Z' then (c as int + 32) as char else c
  }

  function Lower(s: string): (r: string)
    ensures |r| == |s|
    ensures forall i :: 0 <= i < |s| ==> !('A' <= r[i] <= 'Z')
    ensures forall i :: 0 <= i < |s| && !('A' <= s[i] <= 'Z') ==> r[i] == s[i]
    ensures forall i :: 0 <= i < |s| && 'A' <= s[i] <= 'Z' ==> r[i] as int == s[i] as int + 32
  {
    seq(|s|, i requires 0 <= i < |s| => LowerChar(s[i]))
  }

  /** The filter built from `required_sources`: an `Or` of `Equal` clauses on `source_key`. */
  function BuildWhereFilter(requiredSources: seq<string>): (r: WhereFilter)
    ensures r.operator == "Or" && |r.operands| == |requiredSources|
    ensures forall i :: 0 <= i < |requiredSources| ==>
              && r.operands[i].path == [SourceKey]
              && r.operands[i].operator == "Equal"
              && r.operands[i].valueText == Lower(requiredSources[i])
  {
    WhereFilter("Or", seq(|requiredSources|, i requires 0 <= i < |requiredSources| =>
      Clause([SourceKey], "Equal", Lower(requiredSources[i]))))
  }

  /** Weaviate's reading of one clause: the document's value at the one-key path equals the text. */
  predicate ClauseMatches(c: Clause, doc: Document) {
    && c.operator == "Equal"
    && |c.path| == 1
    && c.path[0] in doc.metadata
    && doc.metadata[c.path[0]] == JStr(c.valueText)
  }

  /** Weaviate's reading of an `Or` filter: some operand matches (none, when there are none). */
  predicate FilterMatches(f: WhereFilter, doc: Document) {
    f.operator == "Or" && exists i :: 0 <= i < |f.operands| && ClauseMatches(f.operands[i], doc)
  }

  /**
   * The filter has operator `Or` and one clause per selected source, in
   * selection order; it admits exactly the documents whose `source_key` is one
   * of the selected sources, lowercased.
   */
  lemma WhereFilterMeaning(requiredSources: seq<string>, doc: Document)
    ensures BuildWhereFilter(requiredSources).operator == "Or"
    ensures |BuildWhereFilter(requiredSources).operands| == |requiredSources|
    ensures forall i :: 0 <= i < |requiredSources| ==>
              BuildWhereFilter(requiredSources).operands[i].valueText == Lower(requiredSources[i])
    ensures FilterMatches(BuildWhereFilter(requiredSources), doc) <==>
              SourceKey in doc.metadata &&
              exists i :: 0 <= i < |requiredSources| && doc.metadata[SourceKey] == JStr(Lower(requiredSources[i]))
  {
    var f := BuildWhereFilter(requiredSources);
    if FilterMatches(f, doc) {
      var i :| 0 <= i < |f.operands| && ClauseMatches(f.operands[i], doc);
      assert doc.metadata[SourceKey] == JStr(Lower(requiredSources[i]));
    }
    if SourceKey in doc.metadata &&
       exists i :: 0 <= i < |requiredSources| && doc.metadata[SourceKey] == JStr(Lower(requiredSources[i])) {
      var i :| 0 <= i < |requiredSources| && doc.metadata[SourceKey] == JStr(Lower(requiredSources[i]));
      assert ClauseMatches(f.operands[i], doc);
    }
  }

  /** An empty selection gives an empty operand list, which admits no document. */
  lemma EmptySelectionMatchesNothing(doc: Document)
    ensures BuildWhereFilter([]).operands == []
    ensures !FilterMatches(BuildWhereFilter([]), doc)
  {
  }

  /** Which documents the filter admits depends only on the set of selected sources, not their order. */
  lemma FilterOrderIndependent(sources1: seq<string>, sources2: seq<string>, doc: Document)
    requires forall s :: s in sources1 <==> s in sources2
    ensures FilterMatches(BuildWhereFilter(sources1), doc) <==> FilterMatches(BuildWhereFilter(sources2), doc)
  {
    WhereFilterMeaning(sources1, doc);
    WhereFilterMeaning(sources2, doc);
    if FilterMatches(BuildWhereFilter(sources1), doc) {
      var i :| 0 <= i < |sources1| && doc.metadata[SourceKey] == JStr(Lower(sources1[i]));
      assert sources1[i] in sources2;
      var j :| 0 <= j < |sources2| && sources2[j] == sources1[i];
    }
    if FilterMatches(BuildWhereFilter(sources2), doc) {
      var j :| 0 <= j < |sources2| && doc.metadata[SourceKey] == JStr(Lower(sources2[j]));
      assert sources2[j] in sources1;
      var i :| 0 <= i < |sources1| && sources1[i] == sources2[j];
    }
  }

  /** Lowercasing leaves a string without upper-case ASCII letters unchanged. */
  lemma LowerFixesLowerCase(s: string)
    requires forall i :: 0 <= i < |s| ==> !('A' <= s[i] <= 'Z')
    ensures Lower(s) == s
  {
  }

  /**
   * With the sidebar's selection, the filter admits exactly the documents
   * whose `source_key` is one of the checked sources (they are already lower case).
   */
  lemma SidebarFilterMatches(confluence: bool, jira: bool, lsstforum: bool, localdocs: bool, doc: Document)
    ensures FilterMatches(BuildWhereFilter(Layout.SelectedSources(confluence, jira, lsstforum, localdocs)), doc) <==>
              SourceKey in doc.metadata &&
              exists s :: s in Layout.SelectedSources(confluence, jira, lsstforum, localdocs) &&
                          doc.metadata[SourceKey] == JStr(s)
  {
    var sel := Layout.SelectedSources(confluence, jira, lsstforum, localdocs);
    Layout.SelectedSourcesMembership(confluence, jira, lsstforum, localdocs);
    forall s | s in KnownSources ensures Lower(s) == s {
      LowerFixesLowerCase(s);
    }
    WhereFilterMeaning(sel, doc);
    if FilterMatches(BuildWhereFilter(sel), doc) {
      var i :| 0 <= i < |sel| && doc.metadata[SourceKey] == JStr(Lower(sel[i]));
      assert sel[i] in sel;
    }
    if SourceKey in doc.metadata && exists s :: s in sel && doc.metadata[SourceKey] == JStr(s) {
      var s :| s in sel && doc.metadata[SourceKey] == JStr(s);
      var i :| 0 <= i < |sel| && sel[i] == s;
      assert Lower(sel[i]) == s;
    }
  }

  // ---------------------------------------------------------------------------
  // Which context chunks are cited as sources
  // ---------------------------------------------------------------------------

  /** The fraction of the best score a chunk needs to be cited. */
  const ThresholdRatio: real := 0.9

  /**
   * `[chunk.metadata["score"] for chunk in context]`, followed by the use of the
   * scores as numbers: a chunk without a score raises `KeyError`, and a score
   * that is not a number makes `max` or the multiplication raise `TypeError`.
   */
  function ContextScores(context: seq<Document>): (r: Result<seq<real>>)
    ensures r.Ok? <==> forall i :: 0 <= i < |context| ==>
                         "score" in context[i].metadata && context[i].metadata["score"].JNum?
    ensures r.Ok? ==> |r.value| == |context| &&
                      forall i :: 0 <= i < |context| ==> context[i].metadata["score"] == JNum(r.value[i])
    ensures (exists i :: 0 <= i < |context| && "score" !in context[i].metadata) ==> r == Raise(KeyError("score"))
  {
    if exists i :: 0 <= i < |context| && "score" !in context[i].metadata then
      Raise(KeyError("score"))
    else if exists i :: 0 <= i < |context| && !context[i].metadata["score"].JNum? then
      Raise(TypeError)
    else
      Ok(seq(|context|, i requires 0 <= i < |context| => context[i].metadata["score"].x))
  }

  /** Python's `max` of a non-empty list of numbers. */
  function MaxScore(scores: seq<real>): (m: real)
    requires |scores| > 0
    ensures m in scores
    ensures forall i :: 0 <= i < |scores| ==> scores[i] <= m
  {
    if |scores| == 1 then scores[0]
    else
      var rest := MaxScore(scores[1..]);
      if scores[0] >= rest then scores[0] else rest
  }

  /** For each chunk, whether its score reaches `ThresholdRatio` of the best score. */
  function ThresholdMask(scores: seq<real>): (mask: seq<bool>)
    ensures |mask| == |scores|
    ensures forall i, j :: 0 <= i < |scores| && 0 <= j < |scores| && mask[i] && scores[j] >= scores[i] ==> mask[j]
  {
    if scores == [] then []
    else
      var threshold := MaxScore(scores) * ThresholdRatio;
      seq(|scores|, i requires 0 <= i < |scores| => scores[i] >= threshold)
  }

  /** The chunks cited as sources for a query result's context. */
  function ShownSources(context: seq<Document>): (r: Result<seq<Document>>)
    ensures r.Ok? <==> ContextScores(context).Ok?
    ensures r.Raise? ==> r.error == ContextScores(context).error
    ensures r.Ok? ==> |r.value| <= |context| && forall d :: d in r.value ==> d in context
  {
    var scores :- ContextScores(context);
    Ok(Select(context, ThresholdMask(scores)))
  }

  /**
   * The loop of `handle_user_input` that displays the sources: computes the
   * threshold once, then walks the context in order and cites each chunk whose
   * score reaches it.
   */
  method ShowSources(context: seq<Document>) returns (r: Result<seq<Document>>)
    ensures r == ShownSources(context)
  {
    var scores :- ContextScores(context);
    if |scores| == 0 {
      return Ok([]);
    }
    var maxScore := MaxScore(scores);
    var threshold := maxScore * ThresholdRatio;
    ghost var mask := ThresholdMask(scores);
    var shown: seq<Document> := [];
    for i := 0 to |context|
      invariant shown == Select(context[..i], mask[..i])
    {
      SelectSnoc(context, mask, i);
      var score := context[i].metadata["score"].x;
      if score >= threshold {
        shown := shown + [context[i]];
      }
    }
    assert context[..|context|] == context && mask[..|mask|] == mask;
    return Ok(shown);
  }

  /**
   * The cited chunks are exactly the chunks whose score is at least 0.9 times
   * the best score, in their order in the context.
   */
  lemma ShownSourcesExact(context: seq<Document>)
    requires ContextScores(context).Ok?
    ensures ShownSources(context).Ok?
    ensures var scores := ContextScores(context).value;
            var shown := ShownSources(context).value;
            var idx := SelectedIndices(ThresholdMask(scores));
            && |shown| == |idx|
            && (forall k :: 0 <= k < |idx| ==> shown[k] == context[idx[k]])
            && (forall a, b :: 0 <= a < b < |idx| ==> idx[a] < idx[b])
            && (forall i :: 0 <= i < |context| ==>
                  (i in idx <==> scores[i] >= MaxScore(scores) * ThresholdRatio))
  {
    var scores := ContextScores(context).value;
    var mask := ThresholdMask(scores);
    SelectAtIndices(context, mask);
    SelectedIndicesIncreasing(mask);
    forall i | 0 <= i < |context| ensures i in SelectedIndices(mask) <==> scores[i] >= MaxScore(scores) * ThresholdRatio {
      SelectedIndicesExact(mask, i);
    }
  }

  /** An empty context cites nothing. */
  lemma EmptyContextShowsNothing()
    ensures ShownSources([]) == Ok([])
  {
  }

  /** A chunk with the best score is cited exactly when the best score is not negative. */
  lemma TopChunkShownIff(scores: seq<real>, j: nat)
    requires j < |scores|
    requires scores[j] == MaxScore(scores)
    ensures ThresholdMask(scores)[j] <==> MaxScore(scores) >= 0.0
  {
  }

  /** When every score is negative, no chunk is cited. */
  lemma NegativeScoresShowNothing(scores: seq<real>)
    requires forall i :: 0 <= i < |scores| ==> scores[i] < 0.0
    ensures forall i :: 0 <= i < |scores| ==> !ThresholdMask(scores)[i]
  {
    if scores != [] {
      var m := MaxScore(scores);
      assert m < 0.0;
      forall i | 0 <= i < |scores| ensures scores[i] < m * ThresholdRatio {
        assert scores[i] <= m;
      }
    }
  }

  /**
   * The threshold without the maximum: a chunk is cited exactly when its score
   * reaches `ThresholdRatio` of every score in the list.
   */
  lemma ThresholdMaskPairwise(scores: seq<real>, i: nat)
    requires i < |scores|
    ensures ThresholdMask(scores)[i] <==>
            forall j :: 0 <= j < |scores| ==> scores[i] >= scores[j] * ThresholdRatio
  {
    var m := MaxScore(scores);
    var k :| 0 <= k < |scores| && scores[k] == m;
    if scores[i] >= m * ThresholdRatio {
      forall j | 0 <= j < |scores| ensures scores[i] >= scores[j] * ThresholdRatio {
        assert scores[j] <= m;
      }
    } else {
      assert scores[i] < scores[k] * ThresholdRatio;
    }
  }

  lemma MulMonotone(x: real, y: real, c: real)
    requires x <= y && c > 0.0
    ensures x * c <= y * c
  {
    assert y * c - x * c == (y - x) * c;
  }

  /** Scaling both sides of one comparison with the threshold by a positive constant keeps its outcome. */
  lemma ScaledComparison(x: real, y: real, c: real)
    requires c > 0.0
    ensures (x * c >= (y * c) * ThresholdRatio) == (x >= y * ThresholdRatio)
  {
    var t := y * ThresholdRatio;
    assert (y * c) * ThresholdRatio == t * c;
    if x >= t {
      MulMonotone(t, x, c);
    } else {
      assert t * c - x * c == (t - x) * c;
      assert (t - x) * c > 0.0;
    }
  }

  /** `scaled` is `scores` with every score multiplied by `c`. */
  predicate ScaledBy(scores: seq<real>, scaled: seq<real>, c: real) {
    |scaled| == |scores| && forall i :: 0 <= i < |scores| ==> scaled[i] == scores[i] * c
  }

  /** One chunk's pairwise comparisons come out alike before and after scaling. */
  lemma ScaledPairwise(scores: seq<real>, scaled: seq<real>, c: real, i: nat)
    requires c > 0.0 && ScaledBy(scores, scaled, c) && i < |scores|
    ensures (forall j :: 0 <= j < |scaled| ==> scaled[i] >= scaled[j] * ThresholdRatio) <==>
            (forall j :: 0 <= j < |scores| ==> scores[i] >= scores[j] * ThresholdRatio)
  {
    forall j | 0 <= j < |scores|
      ensures (scaled[i] >= scaled[j] * ThresholdRatio) == (scores[i] >= scores[j] * ThresholdRatio)
    {
      ScaledComparison(scores[i], scores[j], c);
    }
  }

  /**
   * Multiplying every score by the same positive constant changes no citation
   * decision: only the ratio of each score to the best one matters.
   */
  lemma ScaleInvariant(scores: seq<real>, scaled: seq<real>, c: real)
    requires c > 0.0 && ScaledBy(scores, scaled, c)
    ensures ThresholdMask(scaled) == ThresholdMask(scores)
  {
    forall i | 0 <= i < |scores| ensures ThresholdMask(scaled)[i] == ThresholdMask(scores)[i] {
      ThresholdMaskPairwise(scores, i);
      ThresholdMaskPairwise(scaled, i);
      ScaledPairwise(scores, scaled, c, i);
    }
  }

  /** A single chunk is cited exactly when its score is not negative. */
  lemma SingleChunkShownIff(x: real)
    ensures ThresholdMask([x]) == [x >= 0.0]
  {
  }

  /** Scores 0.95, 0.91, 0.80, 0.50: the threshold is 0.855, so the first two are cited. */
  lemma ThresholdExample()
    ensures ThresholdMask([0.95, 0.91, 0.80, 0.50]) == [true, true, false, false]
  {
    var s := [0.95, 0.91, 0.80, 0.50];
    assert s[1..] == [0.91, 0.80, 0.50];
    assert s[1..][1..] == [0.80, 0.50];
    assert s[1..][1..][1..] == [0.50];
    assert MaxScore(s) == 0.95;
  }

  // ---------------------------------------------------------------------------
  // One turn of `handle_user_input`
  // ---------------------------------------------------------------------------

  /** What `qa_chain.invoke` returns: the answer text and the retrieved chunks. */
  datatype QueryResult = QueryResult(answer: string, context: seq<Document>)

  /** What a turn sends and shows: the filter passed to the chain and the cited sources. */
  datatype Turn = Turn(filter: WhereFilter, sources: Result<seq<Document>>)

  /**
   * `handle_user_input` for one run of the page. `userQuery` is the value of
   * the chat input (`None` when nothing was submitted); `result` stands for the
   * chain's answer to the question.
   */
  method HandleUserInput(msgs: ChatMessageHistory, state: SessionState, userQuery: Option<string>, result: QueryResult)
    returns (turn: Option<Turn>)
    modifies msgs
    ensures userQuery == None || userQuery == Some("") ==>
              turn == None && msgs.messages == old(msgs.messages)
    ensures userQuery.Some? && userQuery.value != "" ==>
              && msgs.messages == old(msgs.messages) + [HumanMessage(userQuery.value), AiMessage(result.answer)]
              && turn == Some(Turn(BuildWhereFilter(state.requiredSources), ShownSources(result.context)))
  {
    if |msgs.messages| == 0 {
      msgs.Clear();
    }
    if userQuery.None? || userQuery.value == "" {
      return None;
    }
    var query := userQuery.value;
    msgs.AddUserMessage(query);
    var whereFilter := BuildWhereFilter(state.requiredSources);
    msgs.AddAiMessage(result.answer);
    var sources := ShowSources(result.context);
    turn := Some(Turn(whereFilter, sources));
  }
}
