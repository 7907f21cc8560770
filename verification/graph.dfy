/**
 * Construction of the knowledge graph: an undirected graph whose nodes are
 * labels carrying a list of descriptive sentences and whose edges carry the
 * predicate of the triple that created them.
 */
module KnowledgeGraph {

  /** A node is identified by its label, with no normalisation. */
  type Label = string

  /** An unordered node pair `{u, v}`; a self-loop `(u, u)` is the singleton `{u}`. */
  type Pair = set<Label>

  /** An unordered pair of one (self-loop) or two labels. */
  predicate IsPair(e: Pair)
  {
    0 < |e| <= 2
  }

  datatype Triple = Triple(subject: Label, pred: string, obj: Label)

  /** The unordered pair a triple connects. */
  function Ends(t: Triple): Pair
  {
    {t.subject, t.obj}
  }

  /** Whether `edges` holds an edge between `u` and `v` (in either direction). */
  predicate Linked(edges: map<Pair, string>, u: Label, v: Label)
  {
    {u, v} in edges
  }

  predicate NoDuplicates<T(==)>(s: seq<T>)
  {
    forall i, j :: 0 <= i < j < |s| ==> s[i] != s[j]
  }

  /** Every label a triple list mentions, as subject or as object. */
  function Labels(ts: seq<Triple>): set<Label>
  {
    (set t | t in ts :: t.subject) + (set t | t in ts :: t.obj)
  }

  /** The sentence list a node gets when first seen: the text-map entry, or the label itself. */
  function SentencesFor(texts: map<Label, string>, n: Label): seq<string>
  {
    [if n in texts then texts[n] else n]
  }

  // ---------------------------------------------------------------------------
  // Reference semantics: the graph after folding the triples in order.
  // ---------------------------------------------------------------------------

  /** `s` with `x` appended, unless `x` is already there. */
  function AppendNew(s: seq<Label>, x: Label): seq<Label>
  {
    if x in s then s else s + [x]
  }

  /** Node insertion order after the triples `ts`: subject before object, first appearance only. */
  function NodeOrder(ts: seq<Triple>): seq<Label>
  {
    if ts == [] then []
    else
      var t := ts[|ts| - 1];
      AppendNew(AppendNew(NodeOrder(ts[..|ts| - 1]), t.subject), t.obj)
  }

  /** Sentences of each node after the triples `ts`: set on first appearance, never overwritten. */
  function NodeSentences(ts: seq<Triple>, texts: map<Label, string>): map<Label, seq<string>>
  {
    if ts == [] then map[]
    else
      var t := ts[|ts| - 1];
      var m := NodeSentences(ts[..|ts| - 1], texts);
      var m' := if t.subject in m then m else m[t.subject := SentencesFor(texts, t.subject)];
      if t.obj in m' then m' else m'[t.obj := SentencesFor(texts, t.obj)]
  }

  /** Edge predicates after the triples `ts`: a pair already connected keeps its predicate. */
  function EdgePredicates(ts: seq<Triple>): map<Pair, string>
  {
    if ts == [] then map[]
    else
      var t := ts[|ts| - 1];
      var m := EdgePredicates(ts[..|ts| - 1]);
      if Ends(t) in m then m else m[Ends(t) := t.pred]
  }

  /** Triple `j` is the first in `ts` to name its unordered pair. */
  ghost predicate FirstToName(ts: seq<Triple>, j: int)
    requires 0 <= j < |ts|
  {
    forall i :: 0 <= i < j ==> Ends(ts[i]) != Ends(ts[j])
  }

  // ---------------------------------------------------------------------------
  // What the fold means.
  // ---------------------------------------------------------------------------

  lemma LabelsOfPrefix(ts: seq<Triple>)
    requires ts != []
    ensures Labels(ts) == Labels(ts[..|ts| - 1]) + {ts[|ts| - 1].subject, ts[|ts| - 1].obj}
  {
    var p, t := ts[..|ts| - 1], ts[|ts| - 1];
    assert ts == p + [t];
    forall n | n in Labels(ts) ensures n in Labels(p) + {t.subject, t.obj} {
      var u :| u in ts && (u.subject == n || u.obj == n);
      if u != t {
        assert u in p;
      }
    }
  }

  /** The nodes are exactly the subjects and objects, each once, so there are at most two per triple. */
  lemma {:induction false} NodeOrderIsLabels(ts: seq<Triple>)
    ensures NoDuplicates(NodeOrder(ts))
    ensures forall n :: n in NodeOrder(ts) <==> n in Labels(ts)
    ensures |NodeOrder(ts)| <= 2 * |ts|
  {
    if ts != [] {
      NodeOrderIsLabels(ts[..|ts| - 1]);
      LabelsOfPrefix(ts);
    }
  }

  /** A node's sentences depend on its label only: the text-map entry, or else the label. */
  lemma {:induction false} NodeSentencesAreFirstSeen(ts: seq<Triple>, texts: map<Label, string>)
    ensures NodeSentences(ts, texts).Keys == Labels(ts)
    ensures forall n :: n in NodeSentences(ts, texts) ==> NodeSentences(ts, texts)[n] == SentencesFor(texts, n)
  {
    if ts != [] {
      var p, t := ts[..|ts| - 1], ts[|ts| - 1];
      NodeSentencesAreFirstSeen(p, texts);
      LabelsOfPrefix(ts);
      var m := NodeSentences(p, texts);
      var m' := if t.subject in m then m else m[t.subject := SentencesFor(texts, t.subject)];
      assert m'.Keys == Labels(p) + {t.subject};
      assert forall n :: n in m' ==> m'[n] == SentencesFor(texts, n);
      assert NodeSentences(ts, texts) == if t.obj in m' then m' else m'[t.obj := SentencesFor(texts, t.obj)];
    }
  }

  /** Every triple yields an edge, and no other edge exists. */
  lemma {:induction false} EdgePairsAreTriplePairs(ts: seq<Triple>)
    ensures EdgePredicates(ts).Keys == set t | t in ts :: Ends(t)
  {
    if ts != [] {
      var p, t := ts[..|ts| - 1], ts[|ts| - 1];
      EdgePairsAreTriplePairs(p);
      assert ts == p + [t];
      assert (set u | u in ts :: Ends(u)) == (set u | u in p :: Ends(u)) + {Ends(t)};
    }
  }

  /** The predicate of an edge is that of the first triple naming its unordered pair. */
  lemma {:induction false} EdgePredicatesFirstWins(ts: seq<Triple>)
    ensures forall j :: 0 <= j < |ts| ==> Ends(ts[j]) in EdgePredicates(ts)
    ensures forall j :: 0 <= j < |ts| && FirstToName(ts, j) ==> EdgePredicates(ts)[Ends(ts[j])] == ts[j].pred
  {
    EdgePairsAreTriplePairs(ts);
    if ts != [] {
      var p, t := ts[..|ts| - 1], ts[|ts| - 1];
      EdgePredicatesFirstWins(p);
      EdgePairsAreTriplePairs(p);
      EdgePairsAreTriplePairs(ts);
      var m, m' := EdgePredicates(p), EdgePredicates(ts);
      forall j | 0 <= j < |ts| && FirstToName(ts, j)
        ensures m'[Ends(ts[j])] == ts[j].pred
      {
        if j < |p| {
          assert ts[j] == p[j];
          assert FirstToName(p, j);
          assert Ends(p[j]) in m;
        } else {
          assert Ends(t) !in m by {
            forall u | u in p ensures Ends(u) != Ends(t) {
              var i :| 0 <= i < |p| && p[i] == u;
              assert ts[i] == u;
            }
          }
        }
      }
    }
  }

  /** A later triple naming the same pair, in either direction, leaves the first predicate. */
  lemma {:induction false} LaterTripleKeepsPredicate(ts: seq<Triple>, t: Triple)
    requires Ends(t) in EdgePredicates(ts)
    ensures EdgePredicates(ts + [t]) == EdgePredicates(ts)
    ensures EdgePredicates(ts + [Triple(t.obj, t.pred, t.subject)]) == EdgePredicates(ts)
  {
    assert (ts + [t])[..|ts|] == ts;
    var r := Triple(t.obj, t.pred, t.subject);
    assert (ts + [r])[..|ts|] == ts;
    assert Ends(r) == Ends(t);
  }

  // ---------------------------------------------------------------------------
  // The graph object, updated in place while it is built.
  // ---------------------------------------------------------------------------

  class Graph {
    /** Nodes in insertion order, as the graph library iterates them. */
    var order: seq<Label>
    /** The `sentences` attribute of every node. */
    var sentences: map<Label, seq<string>>
    /** The `predicate` attribute of every edge, keyed by its unordered pair. */
    var edgePred: map<Pair, string>

    ghost predicate Valid()
      reads this
    {
      && NoDuplicates(order)
      && (forall n :: n in sentences <==> n in order)
      && (forall e :: e in edgePred ==> e <= sentences.Keys)
      && (forall e :: e in edgePred ==> IsPair(e))
    }

    /** An empty graph. */
    constructor ()
      ensures Valid()
      ensures order == [] && sentences == map[] && edgePred == map[]
    {
      order, sentences, edgePred := [], map[], map[];
    }

    /**
     * The induced copy of `g` on the nodes in `keep`: the kept nodes with
     * their attributes and every edge between two of them. The order in
     * which the copy lists its nodes is not promised (see `Filter`).
     */
    constructor Induced(g: Graph, keep: set<Label>)
      requires g.Valid()
      ensures Valid()
      ensures sentences == map n | n in g.sentences && n in keep :: g.sentences[n]
      ensures edgePred == map e | e in g.edgePred && e <= keep :: g.edgePred[e]
    {
      order := Filter(g.order, keep);
      sentences := map n | n in g.sentences && n in keep :: g.sentences[n];
      edgePred := map e | e in g.edgePred && e <= keep :: g.edgePred[e];
    }

    predicate HasNode(n: Label)
      reads this
    {
      n in sentences
    }

    predicate HasEdge(u: Label, v: Label)
      reads this
    {
      Linked(edgePred, u, v)
    }

    /** The nodes joined to `n` by an edge (including `n` itself for a self-loop). */
    function Neighbors(n: Label): set<Label>
      reads this
      requires HasNode(n)
    {
      set m | m in sentences && Linked(edgePred, n, m)
    }

    method AddNode(n: Label, s: seq<string>)
      requires Valid() && !HasNode(n)
      modifies this
      ensures Valid()
      ensures order == old(order) + [n]
      ensures sentences == old(sentences)[n := s]
      ensures edgePred == old(edgePred)
    {
      order := order + [n];
      sentences := sentences[n := s];
    }

    method AddEdge(u: Label, v: Label, p: string)
      requires Valid() && HasNode(u) && HasNode(v) && !HasEdge(u, v)
      modifies this
      ensures Valid()
      ensures edgePred == old(edgePred)[{u, v} := p]
      ensures order == old(order) && sentences == old(sentences)
    {
      edgePred := edgePred[{u, v} := p];
    }
  }

  /**
   * The elements of `s` that lie in `keep`, in their order in `s`: one
   * duplicate-free listing of the kept nodes, used for induced copies.
   */
  function Filter(s: seq<Label>, keep: set<Label>): (r: seq<Label>)
    ensures forall x :: x in r <==> x in s && x in keep
    ensures NoDuplicates(s) ==> NoDuplicates(r)
    ensures |r| <= |s|
  {
    if s == [] then []
    else if s[0] in keep then [s[0]] + Filter(s[1..], keep)
    else Filter(s[1..], keep)
  }

  /** Builds the graph triple by triple, adding only unseen nodes and unseen edges. */
  method BuildGraph(triples: seq<Triple>, texts: map<Label, string>) returns (g: Graph)
    ensures fresh(g) && g.Valid()
    ensures g.order == NodeOrder(triples)
    ensures g.sentences == NodeSentences(triples, texts)
    ensures g.edgePred == EdgePredicates(triples)
  {
    g := new Graph();
    for i := 0 to |triples|
      invariant g.Valid()
      invariant g.order == NodeOrder(triples[..i])
      invariant g.sentences == NodeSentences(triples[..i], texts)
      invariant g.edgePred == EdgePredicates(triples[..i])
    {
      var t := triples[i];
      assert triples[..i + 1][..i] == triples[..i];
      if !g.HasNode(t.subject) {
        g.AddNode(t.subject, SentencesFor(texts, t.subject));
      }
      if !g.HasNode(t.obj) {
        g.AddNode(t.obj, SentencesFor(texts, t.obj));
      }
      if !g.HasEdge(t.subject, t.obj) {
        g.AddEdge(t.subject, t.obj, t.pred);
      }
    }
    assert triples[..|triples|] == triples;
  }
}
