/**
 * Bounded neighbourhood expansion: `depth` rounds of frontier expansion from
 * the matched nodes, then the induced subgraph on everything reached.
 */
module Expansion {
  import opened KnowledgeGraph

  /** The nodes of `universe` joined by an edge to some node of `s`. */
  function Step(edges: map<Pair, string>, universe: set<Label>, s: set<Label>): set<Label>
  {
    set m | m in universe && exists n :: n in s && Linked(edges, n, m)
  }

  /** The nodes reachable from `seeds` in at most `d` rounds of `Step`. */
  function Ball(edges: map<Pair, string>, universe: set<Label>, seeds: set<Label>, d: nat): set<Label>
  {
    if d == 0 then seeds
    else
      var b := Ball(edges, universe, seeds, d - 1);
      b + Step(edges, universe, b)
  }

  /** The nodes settled before round `r`: those whose neighbours are already in `Ball(r)`. */
  function Settled(edges: map<Pair, string>, universe: set<Label>, seeds: set<Label>, r: nat): set<Label>
  {
    if r == 0 then {} else Ball(edges, universe, seeds, r - 1)
  }

  /** How many times `range(depth)` iterates. */
  function Rounds(depth: int): nat
  {
    if depth < 0 then 0 else depth
  }

  /** The set of the matched labels. */
  function Seeds(matched: seq<Label>): set<Label>
  {
    set n | n in matched
  }

  /** One step of a walk: `v` is a node of `universe` joined to `u` by an edge. */
  predicate Hop(edges: map<Pair, string>, universe: set<Label>, u: Label, v: Label)
  {
    v in universe && Linked(edges, u, v)
  }

  /** A sequence of nodes, each joined to the next by an edge. */
  ghost predicate IsWalk(edges: map<Pair, string>, universe: set<Label>, w: seq<Label>)
  {
    forall i :: 0 < i < |w| ==> Hop(edges, universe, w[i - 1], w[i])
  }

  /** `v` is at graph distance at most `d` from some seed. */
  ghost predicate WithinDistance(edges: map<Pair, string>, universe: set<Label>, seeds: set<Label>, v: Label, d: nat)
  {
    exists w :: 0 < |w| <= d + 1 && w[0] in seeds && w[|w| - 1] == v && IsWalk(edges, universe, w)
  }

  lemma StepUnion(edges: map<Pair, string>, universe: set<Label>, a: set<Label>, b: set<Label>)
    ensures Step(edges, universe, a + b) == Step(edges, universe, a) + Step(edges, universe, b)
  {
  }

  /** The reached set only grows with the number of rounds, and always holds the seeds. */
  lemma {:induction false} BallGrows(edges: map<Pair, string>, universe: set<Label>, seeds: set<Label>, d: nat, d': nat)
    requires d <= d'
    ensures Ball(edges, universe, seeds, d) <= Ball(edges, universe, seeds, d')
    ensures seeds <= Ball(edges, universe, seeds, d')
  {
    if d < d' {
      BallGrows(edges, universe, seeds, d, d' - 1);
    } else if 0 < d' {
      BallGrows(edges, universe, seeds, 0, d' - 1);
    }
  }

  /**
   * Expanding only the frontier (the nodes first reached in the last round)
   * reaches the same nodes as expanding everything reached so far.
   */
  lemma {:induction false} FrontierSuffices(edges: map<Pair, string>, universe: set<Label>, seeds: set<Label>, r: nat)
    ensures Ball(edges, universe, seeds, r + 1)
         == Ball(edges, universe, seeds, r) + Step(edges, universe, Ball(edges, universe, seeds, r) - Settled(edges, universe, seeds, r))
  {
    var b := Ball(edges, universe, seeds, r);
    var old_ := Settled(edges, universe, seeds, r);
    if r > 0 {
      BallGrows(edges, universe, seeds, r - 1, r);
      assert b == old_ + (b - old_);
      StepUnion(edges, universe, old_, b - old_);
    } else {
      assert b == old_ + (b - old_);
    }
  }

  /** Every node reached after `d` rounds is within distance `d` of a seed. */
  lemma {:induction false} BallWithinDistance(edges: map<Pair, string>, universe: set<Label>, seeds: set<Label>, d: nat, v: Label)
    requires v in Ball(edges, universe, seeds, d)
    ensures WithinDistance(edges, universe, seeds, v, d)
  {
    if d == 0 {
      assert IsWalk(edges, universe, [v]);
    } else if v in Ball(edges, universe, seeds, d - 1) {
      BallWithinDistance(edges, universe, seeds, d - 1, v);
    } else {
      var n :| n in Ball(edges, universe, seeds, d - 1) && Linked(edges, n, v);
      BallWithinDistance(edges, universe, seeds, d - 1, n);
      var w :| 0 < |w| <= d && w[0] in seeds && w[|w| - 1] == n && IsWalk(edges, universe, w);
      var w' := w + [v];
      assert IsWalk(edges, universe, w') by {
        forall i | 0 < i < |w'| ensures Hop(edges, universe, w'[i - 1], w'[i]) {
          if i < |w| {
            assert w'[i - 1] == w[i - 1] && w'[i] == w[i];
          }
        }
      }
      assert w'[0] == w[0] && w'[|w'| - 1] == v;
    }
  }

  /** Every node within distance `d` of a seed is reached after `d` rounds. */
  lemma {:induction false} DistanceWithinBall(edges: map<Pair, string>, universe: set<Label>, seeds: set<Label>, d: nat, v: Label)
    requires WithinDistance(edges, universe, seeds, v, d)
    ensures v in Ball(edges, universe, seeds, d)
  {
    var w :| 0 < |w| <= d + 1 && w[0] in seeds && w[|w| - 1] == v && IsWalk(edges, universe, w);
    if |w| == 1 {
      BallGrows(edges, universe, seeds, 0, d);
    } else {
      var w' := w[..|w| - 1];
      var n := w'[|w'| - 1];
      assert IsWalk(edges, universe, w') by {
        forall i | 0 < i < |w'| ensures Hop(edges, universe, w'[i - 1], w'[i]) {
          assert w'[i - 1] == w[i - 1] && w'[i] == w[i];
        }
      }
      DistanceWithinBall(edges, universe, seeds, d - 1, n);
      assert Hop(edges, universe, w[|w| - 2], w[|w| - 1]);
      assert v in Step(edges, universe, Ball(edges, universe, seeds, d - 1));
    }
  }

  /** After `d` rounds the reached set is exactly the nodes within distance `d` of a seed. */
  lemma BallIsDistance(edges: map<Pair, string>, universe: set<Label>, seeds: set<Label>, d: nat, v: Label)
    ensures v in Ball(edges, universe, seeds, d) <==> WithinDistance(edges, universe, seeds, v, d)
  {
    if v in Ball(edges, universe, seeds, d) {
      BallWithinDistance(edges, universe, seeds, d, v);
    }
    if WithinDistance(edges, universe, seeds, v, d) {
      DistanceWithinBall(edges, universe, seeds, d, v);
    }
  }

  /** The union of the neighbours of the frontier nodes, gathered one node at a time. */
  method NeighborsOfAll(g: Graph, frontier: set<Label>) returns (reached: set<Label>)
    requires g.Valid() && frontier <= g.sentences.Keys
    ensures reached == Step(g.edgePred, g.sentences.Keys, frontier)
  {
    reached := {};
    var rest := frontier;
    while rest != {}
      invariant rest <= frontier
      invariant reached == Step(g.edgePred, g.sentences.Keys, frontier - rest)
      decreases rest
    {
      var n :| n in rest;
      assert g.Neighbors(n) == Step(g.edgePred, g.sentences.Keys, {n});
      StepUnion(g.edgePred, g.sentences.Keys, frontier - rest, {n});
      assert frontier - (rest - {n}) == (frontier - rest) + {n};
      reached := reached + g.Neighbors(n);
      rest := rest - {n};
    }
  }

  /**
   * The subgraph shown for the matches: the nodes within `depth` rounds of
   * the matched nodes (those that are nodes of `g`), all their attributes,
   * and every edge of `g` between two of them.
   */
  method BuildSubgraphFromMatches(g: Graph, matched: seq<Label>, depth: int) returns (sub: Graph)
    requires g.Valid()
    requires depth > 0 ==> forall n :: n in matched ==> g.HasNode(n)
    ensures fresh(sub) && sub.Valid()
    ensures sub.sentences.Keys == Ball(g.edgePred, g.sentences.Keys, Seeds(matched), Rounds(depth)) * g.sentences.Keys
    ensures forall n :: n in sub.sentences ==> sub.sentences[n] == g.sentences[n]
    ensures sub.edgePred == map e | e in g.edgePred && e <= sub.sentences.Keys :: g.edgePred[e]
  {
    ghost var edges, universe, seeds := g.edgePred, g.sentences.Keys, Seeds(matched);
    var nodes := set n | n in matched;
    var frontier := set n | n in matched;
    for r := 0 to Rounds(depth)
      invariant nodes == Ball(edges, universe, seeds, r)
      invariant frontier == nodes - Settled(edges, universe, seeds, r)
      invariant depth > 0 ==> frontier <= universe
    {
      var reached := NeighborsOfAll(g, frontier);
      FrontierSuffices(edges, universe, seeds, r);
      frontier := reached - nodes;
      nodes := nodes + reached;
    }
    sub := new Graph.Induced(g, nodes);
  }

  /**
   * A worked case: from the triples `(Sun, is_a, Star)` and
   * `(Sun, related_to, Astrophysics)`, one round around `Sun` reaches all
   * three nodes, and both edges are kept.
   */
  lemma SunNeighbourhood()
    ensures var ts := [Triple("Sun", "is_a", "Star"), Triple("Sun", "related_to", "Astrophysics")];
      var edges := EdgePredicates(ts);
      var nodes := Ball(edges, Labels(ts), {"Sun"}, 1);
      && nodes == {"Sun", "Star", "Astrophysics"}
      && (map e | e in edges && e <= nodes :: edges[e])
         == map[{"Sun", "Star"} := "is_a", {"Sun", "Astrophysics"} := "related_to"]
  {
    var ts := [Triple("Sun", "is_a", "Star"), Triple("Sun", "related_to", "Astrophysics")];
    assert ts[..1] == [ts[0]] && ts[..1][..0] == [];
    assert EdgePredicates(ts[..1]) == map[{"Sun", "Star"} := "is_a"];
    assert "Astrophysics" !in {"Sun", "Star"};
    assert Ends(ts[1]) !in EdgePredicates(ts[..1]);
    var edges := EdgePredicates(ts);
    assert edges == map[{"Sun", "Star"} := "is_a", {"Sun", "Astrophysics"} := "related_to"];
    assert Labels(ts) == {"Sun", "Star", "Astrophysics"};
    assert Linked(edges, "Sun", "Star") && Linked(edges, "Sun", "Astrophysics");
    var step := Step(edges, Labels(ts), {"Sun"});
    assert "Star" in step && "Astrophysics" in step;
  }
}
