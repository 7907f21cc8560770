/**
 * The search action of the knowledge-graph page: a blank query is refused,
 * otherwise the matches are ranked and their neighbourhood is extracted.
 */
module SearchPage {
  import opened Wrappers
  import opened KnowledgeGraph
  import opened Retrieval
  import opened Expansion

  const BlankQueryWarning := "Please enter a query to search."
  const NoMatchesWarning := "No matches found."

  /**
   * The characters Python's `str.isspace` accepts, which `str.strip()` with
   * no argument removes: tab to carriage return, the four information
   * separators U+001C..U+001F, space, next line, no-break space, and the
   * Unicode space and line/paragraph separators.
   */
  predicate IsSpace(c: char)
  {
    || '\t' <= c <= '\r'
    || '\U{1C}' <= c <= ' '
    || c == '\U{85}' || c == '\U{A0}' || c == '\U{1680}'
    || '\U{2000}' <= c <= '\U{200A}'
    || c == '\U{2028}' || c == '\U{2029}' || c == '\U{202F}' || c == '\U{205F}' || c == '\U{3000}'
  }

  /** The query is empty once surrounding whitespace is stripped. */
  predicate IsBlank(q: string)
  {
    forall i :: 0 <= i < |q| ==> IsSpace(q[i])
  }

  /**
   * Runs one search: ranks the nodes of the prepared corpus of `g` and, when
   * something matched, extracts the subgraph around the matched labels.
   */
  method RunSearch(
    g: Graph, corpus: Corpus, query: string, topK: int, depth: int, similarity: Backend -> seq<real>)
    returns (results: seq<(Label, real)>, sub: Option<Graph>, warning: Option<string>)
    requires g.Valid() && corpus.nodes == g.order
    requires corpus.model.Some? ==> ScoresCover(corpus.nodes, similarity, Dense(corpus.model.value))
    requires corpus.model.None? && corpus.vectorizer.Some? ==> ScoresCover(corpus.nodes, similarity, Sparse(corpus.vectorizer.value))
    ensures IsBlank(query) ==> results == [] && sub == None && warning == Some(BlankQueryWarning)
    ensures !IsBlank(query) ==> results == SemanticSearch(query, corpus.nodes, corpus.model, corpus.vectorizer, similarity, topK)
    ensures !IsBlank(query) && results == [] ==> sub == None && warning == Some(NoMatchesWarning)
    ensures results != [] ==> warning == None && sub.Some? && sub.value.Valid()
    ensures results != [] ==> forall k :: 0 <= k < |results| ==> results[k].0 in sub.value.sentences
    ensures results != [] ==>
      sub.value.sentences.Keys == Ball(g.edgePred, g.sentences.Keys, Seeds(ResultLabels(results)), Rounds(depth))
    ensures results != [] ==> fresh(sub.value)
    ensures results != [] ==> forall n :: n in sub.value.sentences ==> n in g.sentences && sub.value.sentences[n] == g.sentences[n]
    ensures results != [] ==>
      sub.value.edgePred == map e | e in g.edgePred && e <= sub.value.sentences.Keys :: g.edgePred[e]
  {
    if IsBlank(query) {
      return [], None, Some(BlankQueryWarning);
    }
    results := SemanticSearch(query, corpus.nodes, corpus.model, corpus.vectorizer, similarity, topK);
    if results == [] {
      return results, None, Some(NoMatchesWarning);
    }
    var matched := ResultLabels(results);
    SearchReturnsNodes(query, corpus.nodes, corpus.model, corpus.vectorizer, similarity, topK);
    assert Seeds(matched) <= g.sentences.Keys;
    var s := BuildSubgraphFromMatches(g, matched, depth);
    BallGrows(g.edgePred, g.sentences.Keys, Seeds(matched), 0, Rounds(depth));
    BallWithinGraph(g, Seeds(matched), Rounds(depth));
    return results, Some(s), None;
  }

  /** Seeds that are nodes of `g` reach only nodes of `g`. */
  lemma {:induction false} BallWithinGraph(g: Graph, seeds: set<Label>, d: nat)
    requires seeds <= g.sentences.Keys
    ensures Ball(g.edgePred, g.sentences.Keys, seeds, d) <= g.sentences.Keys
  {
    if d > 0 {
      BallWithinGraph(g, seeds, d - 1);
    }
  }
}
