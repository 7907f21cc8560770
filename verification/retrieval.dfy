/**
 * Corpus preparation and semantic search. The embedding numerics (encoding
 * and cosine or linear-kernel similarity) are abstract: a backend is a tag,
 * and the score of every node for the current query under a backend is
 * supplied as a function `similarity`.
 */
module Retrieval {
  import opened Wrappers
  import opened KnowledgeGraph
  import opened Ranking

  /** A loaded sentence-embedding model (dense backend). */
  datatype Model = SentenceTransformer(name: string)

  /** A TF-IDF vectorizer and the documents it was fitted on (sparse backend). */
  datatype Vectorizer = TfidfVectorizer(stopWords: string, fittedOn: seq<string>)

  datatype Backend = Dense(model: Model) | Sparse(vectorizer: Vectorizer)

  /**
   * What corpus preparation hands to the search: the node labels and their
   * documents as parallel lists, one backend handle (the other absent), and
   * the error message shown when the dense model could not be used.
   */
  datatype Corpus = Corpus(
    nodes: seq<Label>,
    docs: seq<string>,
    model: Option<Model>,
    vectorizer: Option<Vectorizer>,
    error: Option<string>)

  const ModelName := "all-MiniLM-L6-v2"
  const StopWords := "english"
  const ModelLoadError := "Failed to load Sentence Transformer model. Falling back to TF-IDF."
  const Separator := ": "

  /** The strings of `parts` with `sep` between consecutive ones. */
  function Join(sep: string, parts: seq<string>): string
  {
    if parts == [] then ""
    else if |parts| == 1 then parts[0]
    else parts[0] + sep + Join(sep, parts[1..])
  }

  /** The document of a node: its label, `": "`, then its sentences separated by spaces. */
  function Document(n: Label, sentences: seq<string>): (d: string)
    ensures |n| + |Separator| <= |d|
    ensures d[..|n|] == n && d[|n|..|n| + |Separator|] == Separator
  {
    n + Separator + Join(" ", sentences)
  }

  /** A node's sentence list, or the label alone when the node has none. */
  function SentencesOf(sentences: map<Label, seq<string>>, n: Label): seq<string>
  {
    if n in sentences then sentences[n] else [n]
  }

  /** One document per node, in the order of `nodes`. */
  function Documents(nodes: seq<Label>, sentences: map<Label, seq<string>>): (docs: seq<string>)
    ensures |docs| == |nodes|
    ensures forall i :: 0 <= i < |nodes| ==> docs[i] == Document(nodes[i], SentencesOf(sentences, nodes[i]))
  {
    seq(|nodes|, i requires 0 <= i < |nodes| => Document(nodes[i], SentencesOf(sentences, nodes[i])))
  }

  /**
   * Corpus preparation from a graph's node list `nodes` and its sentence
   * attributes `sentences`. `hasSentenceTransformers` says whether the dense
   * library could be imported; `modelLoads` whether loading and encoding
   * with it succeeded (either failure falls back to TF-IDF).
   */
  function PrepareCorpus(
    nodes: seq<Label>, sentences: map<Label, seq<string>>, hasSentenceTransformers: bool, modelLoads: bool): (c: Corpus)
    ensures c.nodes == nodes && c.docs == Documents(nodes, sentences) && |c.docs| == |c.nodes|
    ensures forall i :: 0 <= i < |c.nodes| ==> c.docs[i] == Document(c.nodes[i], SentencesOf(sentences, c.nodes[i]))
    ensures c.model.Some? != c.vectorizer.Some?
    ensures c.model.Some? <==> hasSentenceTransformers && modelLoads
    ensures c.model.Some? ==> c.model.value.name == ModelName
    ensures c.vectorizer.Some? ==> c.vectorizer.value == TfidfVectorizer(StopWords, c.docs)
    ensures c.error.Some? <==> hasSentenceTransformers && !modelLoads
  {
    var docs := Documents(nodes, sentences);
    if hasSentenceTransformers && modelLoads then
      Corpus(nodes, docs, Some(SentenceTransformer(ModelName)), None, None)
    else
      var error := if hasSentenceTransformers then Some(ModelLoadError) else None;
      Corpus(nodes, docs, None, Some(TfidfVectorizer(StopWords, docs)), error)
  }

  /** For a graph built from triples, a node's document is its label and its text-map entry (or the label again). */
  lemma DocumentOfBuiltNode(ts: seq<Triple>, texts: map<Label, string>, n: Label)
    requires n in Labels(ts)
    ensures n in NodeSentences(ts, texts)
    ensures Document(n, NodeSentences(ts, texts)[n]) == n + ": " + (if n in texts then texts[n] else n)
  {
    NodeSentencesAreFirstSeen(ts, texts);
  }

  /** The labels of a result list. */
  function ResultLabels(r: seq<(Label, real)>): (ls: seq<Label>)
    ensures |ls| == |r| && forall k :: 0 <= k < |r| ==> ls[k] == r[k].0
  {
    seq(|r|, k requires 0 <= k < |r| => r[k].0)
  }

  /** `p` is some node paired with that node's own score. */
  ghost predicate ScoredNode(p: (Label, real), nodes: seq<Label>, sims: seq<real>)
    requires |sims| == |nodes|
  {
    exists i :: 0 <= i < |nodes| && p.0 == nodes[i] && p.1 == sims[i]
  }

  /**
   * `r` is a top-k answer for `nodes` scored by `sims`: `min(top_k, |nodes|)`
   * entries (slice semantics), each a node with its own score, scores
   * non-increasing, and, when labels are distinct, no label twice and no
   * omitted node scoring above the last one returned.
   */
  ghost predicate IsTopK(r: seq<(Label, real)>, nodes: seq<Label>, sims: seq<real>, topK: int)
    requires |sims| == |nodes|
  {
    && |r| == SliceLength(|nodes|, topK)
    && (forall k :: 0 <= k < |r| ==> ScoredNode(r[k], nodes, sims))
    && (forall a, b :: 0 <= a < b < |r| ==> r[a].1 >= r[b].1)
    && (NoDuplicates(nodes) ==> NoDuplicates(ResultLabels(r)))
    && (NoDuplicates(nodes) && |r| > 0 ==>
          forall i :: 0 <= i < |nodes| && nodes[i] !in ResultLabels(r) ==> sims[i] <= r[|r| - 1].1)
  }

  /** The `(label, score)` pairs for the indices `idxs`. */
  function Pairs(nodes: seq<Label>, sims: seq<real>, idxs: seq<nat>): (r: seq<(Label, real)>)
    requires |sims| == |nodes| && InRange(sims, idxs)
    ensures |r| == |idxs| && forall k :: 0 <= k < |r| ==> r[k] == (nodes[idxs[k]], sims[idxs[k]])
  {
    seq(|idxs|, k requires 0 <= k < |idxs| => (nodes[idxs[k]], sims[idxs[k]]))
  }

  /** Each pair of `Pairs` is some node with its own score. */
  lemma PairsAreScoredNodes(nodes: seq<Label>, sims: seq<real>, idxs: seq<nat>, r: seq<(Label, real)>)
    requires |sims| == |nodes| && InRange(sims, idxs)
    requires r == Pairs(nodes, sims, idxs)
    ensures forall k :: 0 <= k < |r| ==> ScoredNode(r[k], nodes, sims)
  {
    forall k | 0 <= k < |r| ensures ScoredNode(r[k], nodes, sims) {
      var i := idxs[k];
      assert r[k].0 == nodes[i] && r[k].1 == sims[i];
    }
  }

  /** Distinct indices into distinct labels give distinct result labels. */
  lemma PairsHaveDistinctLabels(nodes: seq<Label>, sims: seq<real>, idxs: seq<nat>)
    requires |sims| == |nodes| && InRange(sims, idxs)
    requires NoDuplicates(nodes) && NoDuplicates(idxs)
    ensures NoDuplicates(ResultLabels(Pairs(nodes, sims, idxs)))
  {
    var ls := ResultLabels(Pairs(nodes, sims, idxs));
    forall a, b | 0 <= a < b < |ls| ensures ls[a] != ls[b] {
      assert idxs[a] != idxs[b];
    }
  }

  /** With distinct labels, a node whose label is not returned has an index that is not selected. */
  lemma OmittedLabelOmittedIndex(nodes: seq<Label>, sims: seq<real>, idxs: seq<nat>, i: nat)
    requires |sims| == |nodes| && InRange(sims, idxs) && i < |nodes|
    requires nodes[i] !in ResultLabels(Pairs(nodes, sims, idxs))
    ensures i !in idxs
  {
    var ls := ResultLabels(Pairs(nodes, sims, idxs));
    forall k | 0 <= k < |idxs| ensures idxs[k] != i {
      assert ls[k] == nodes[idxs[k]];
    }
  }

  /** The top-k answer: the best `top_k` indices, paired with their labels and scores. */
  function TopMatches(nodes: seq<Label>, sims: seq<real>, topK: int): (r: seq<(Label, real)>)
    requires |sims| == |nodes|
    ensures IsTopK(r, nodes, sims, topK)
  {
    var idxs := TopIndices(sims, topK);
    var r := Pairs(nodes, sims, idxs);
    PairsAreScoredNodes(nodes, sims, idxs, r);
    if NoDuplicates(nodes) then
      PairsHaveDistinctLabels(nodes, sims, idxs);
      assert forall i :: 0 <= i < |nodes| && nodes[i] !in ResultLabels(r) ==> i !in idxs by {
        forall i | 0 <= i < |nodes| && nodes[i] !in ResultLabels(r) ensures i !in idxs {
          OmittedLabelOmittedIndex(nodes, sims, idxs, i);
        }
      }
      r
    else
      r
  }

  /** The scores for the backend used hold one entry per node. */
  predicate ScoresCover(nodes: seq<Label>, similarity: Backend -> seq<real>, b: Backend)
  {
    |similarity(b)| == |nodes|
  }

  /**
   * Semantic search. An empty query, or no backend at all, gives no results;
   * a model takes precedence over a vectorizer; otherwise the result is the
   * top-k of the chosen backend's scores.
   */
  function SemanticSearch(
    query: string, nodes: seq<Label>, model: Option<Model>, vectorizer: Option<Vectorizer>,
    similarity: Backend -> seq<real>, topK: int): (r: seq<(Label, real)>)
    requires query != "" && model.Some? ==> ScoresCover(nodes, similarity, Dense(model.value))
    requires query != "" && model.None? && vectorizer.Some? ==> ScoresCover(nodes, similarity, Sparse(vectorizer.value))
    ensures query == "" ==> r == []
    ensures model.None? && vectorizer.None? ==> r == []
    ensures query != "" && model.Some? ==> IsTopK(r, nodes, similarity(Dense(model.value)), topK)
    ensures query != "" && model.None? && vectorizer.Some? ==> IsTopK(r, nodes, similarity(Sparse(vectorizer.value)), topK)
  {
    if query == "" then []
    else if model.Some? then TopMatches(nodes, similarity(Dense(model.value)), topK)
    else if vectorizer.Some? then TopMatches(nodes, similarity(Sparse(vectorizer.value)), topK)
    else []
  }

  /** Every label a search returns is one of the searched nodes. */
  lemma SearchReturnsNodes(
    query: string, nodes: seq<Label>, model: Option<Model>, vectorizer: Option<Vectorizer>,
    similarity: Backend -> seq<real>, topK: int)
    requires query != "" && model.Some? ==> ScoresCover(nodes, similarity, Dense(model.value))
    requires query != "" && model.None? && vectorizer.Some? ==> ScoresCover(nodes, similarity, Sparse(vectorizer.value))
    ensures forall n :: n in ResultLabels(SemanticSearch(query, nodes, model, vectorizer, similarity, topK)) ==> n in nodes
  {
    var r := SemanticSearch(query, nodes, model, vectorizer, similarity, topK);
    var ls := ResultLabels(r);
    forall n | n in ls ensures n in nodes {
      var k :| 0 <= k < |ls| && ls[k] == n;
      var b := if model.Some? then Dense(model.value) else Sparse(vectorizer.value);
      assert ScoredNode(r[k], nodes, similarity(b));
    }
  }
}
