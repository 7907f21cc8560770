/**
 * The resource cache in front of corpus preparation. The page decorates
 * `prepare_corpus_and_model(_graph, has_st_flag)` with a process-wide
 * resource cache; the leading underscore excludes the graph from the cache
 * key, so entries are found by the backend flag alone. Only a successful
 * upload clears the cache.
 */
module CorpusCache {
  import opened KnowledgeGraph
  import opened Retrieval

  /**
   * Corpus preparation behind the cache as written: a hit on the flag
   * returns the stored corpus whatever graph is passed; a miss prepares the
   * corpus of the given graph and stores it under the flag.
   */
  function PrepareCachedByFlag(
    cache: map<bool, Corpus>, nodes: seq<Label>, sentences: map<Label, seq<string>>,
    hasSentenceTransformers: bool, modelLoads: bool): (res: (Corpus, map<bool, Corpus>))
    ensures hasSentenceTransformers in res.1 && res.0 == res.1[hasSentenceTransformers]
    ensures hasSentenceTransformers in cache ==> res.0 == cache[hasSentenceTransformers] && res.1 == cache
    ensures hasSentenceTransformers !in cache ==>
      && res.0.nodes == nodes
      && res.0.docs == Documents(nodes, sentences)
      && res.0.model.Some? != res.0.vectorizer.Some?
      && (res.0.model.Some? <==> hasSentenceTransformers && modelLoads)
      && res.1 == cache[hasSentenceTransformers := res.0]
  {
    if hasSentenceTransformers in cache then
      (cache[hasSentenceTransformers], cache)
    else
      var c := PrepareCorpus(nodes, sentences, hasSentenceTransformers, modelLoads);
      (c, cache[hasSentenceTransformers := c])
  }

  /**
   * The cache as written serves a stale corpus: a run with an uploaded
   * table holding the triple `(A, r, B)` fills the cache; on the next run
   * the file has been removed and the graph is built from `(C, r, D)`, but
   * the corpus served still lists `A` and `B`, so a search can return
   * `A`, which is not a node of the graph being searched.
   */
  lemma StaleCorpusAfterDataChange()
    ensures var uploaded := [Triple("A", "r", "B")];
      var builtIn := [Triple("C", "r", "D")];
      var first := PrepareCachedByFlag(map[], NodeOrder(uploaded), NodeSentences(uploaded, map[]), false, false);
      var second := PrepareCachedByFlag(first.1, NodeOrder(builtIn), NodeSentences(builtIn, map[]), false, false);
      && second.0.nodes == NodeOrder(uploaded)
      && "A" in second.0.nodes
      && "A" !in NodeOrder(builtIn)
      && second.0.nodes != NodeOrder(builtIn)
  {
    var uploaded := [Triple("A", "r", "B")];
    var builtIn := [Triple("C", "r", "D")];
    assert Labels(uploaded) == {"A", "B"};
    assert Labels(builtIn) == {"C", "D"};
    NodeOrderIsLabels(uploaded);
    NodeOrderIsLabels(builtIn);
  }

  /** The key the cache evidently needs: the graph's content as well as the flag. */
  datatype CacheKey = CacheKey(nodes: seq<Label>, sentences: map<Label, seq<string>>, hasSentenceTransformers: bool)

  /** Every entry was prepared from the graph content in its own key. */
  predicate CacheSound(cache: map<CacheKey, Corpus>)
  {
    forall k :: k in cache ==>
      && cache[k].nodes == k.nodes
      && cache[k].docs == Documents(k.nodes, k.sentences)
      && cache[k].model.Some? != cache[k].vectorizer.Some?
      && (cache[k].model.Some? ==> k.hasSentenceTransformers)
      && (cache[k].vectorizer.Some? ==> cache[k].vectorizer.value == TfidfVectorizer(StopWords, cache[k].docs))
  }

  /**
   * Corpus preparation behind a cache keyed by the graph's content: the
   * corpus served always lists exactly the nodes of the graph passed in, in
   * its order, with their own documents, and the cache stays sound.
   */
  function PrepareCached(
    cache: map<CacheKey, Corpus>, nodes: seq<Label>, sentences: map<Label, seq<string>>,
    hasSentenceTransformers: bool, modelLoads: bool): (res: (Corpus, map<CacheKey, Corpus>))
    requires CacheSound(cache)
    ensures CacheSound(res.1)
    ensures res.0.nodes == nodes && res.0.docs == Documents(nodes, sentences)
    ensures res.0.model.Some? != res.0.vectorizer.Some?
    ensures res.0.model.Some? ==> hasSentenceTransformers
    ensures CacheKey(nodes, sentences, hasSentenceTransformers) in res.1
    ensures res.0 == res.1[CacheKey(nodes, sentences, hasSentenceTransformers)]
    ensures forall k :: k in cache ==> k in res.1 && res.1[k] == cache[k]
  {
    var key := CacheKey(nodes, sentences, hasSentenceTransformers);
    if key in cache then
      (cache[key], cache)
    else
      var c := PrepareCorpus(nodes, sentences, hasSentenceTransformers, modelLoads);
      (c, cache[key := c])
  }

  /**
   * With the content-keyed cache, the corpus served for a graph built from
   * any triples lists exactly that graph's nodes, which is what the search
   * and the subgraph extraction rely on.
   */
  lemma CachedCorpusMatchesGraph(
    cache: map<CacheKey, Corpus>, ts: seq<Triple>, texts: map<Label, string>,
    hasSentenceTransformers: bool, modelLoads: bool)
    requires CacheSound(cache)
    ensures var c := PrepareCached(cache, NodeOrder(ts), NodeSentences(ts, texts), hasSentenceTransformers, modelLoads).0;
      && c.nodes == NodeOrder(ts)
      && (forall n :: n in c.nodes <==> n in Labels(ts))
      && (forall i :: 0 <= i < |c.nodes| ==> c.docs[i] == c.nodes[i] + ": " + (if c.nodes[i] in texts then texts[c.nodes[i]] else c.nodes[i]))
  {
    var c := PrepareCached(cache, NodeOrder(ts), NodeSentences(ts, texts), hasSentenceTransformers, modelLoads).0;
    NodeOrderIsLabels(ts);
    forall i | 0 <= i < |c.nodes|
      ensures c.docs[i] == c.nodes[i] + ": " + (if c.nodes[i] in texts then texts[c.nodes[i]] else c.nodes[i])
    {
      DocumentOfBuiltNode(ts, texts, c.nodes[i]);
    }
  }
}
