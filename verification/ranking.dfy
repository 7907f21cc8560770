/**
 * Top-k selection over a score vector: indices ordered by descending score,
 * then cut with a Python-style `[:top_k]` slice.
 */
module Ranking {
  import opened KnowledgeGraph

  /** Length of `s[:k]` for a list `s` of length `n`, negative `k` counting from the end. */
  function SliceLength(n: nat, k: int): (m: nat)
    ensures m <= n
    ensures 0 <= k ==> m == if k < n then k else n
  {
    if 0 <= k then (if k < n then k else n)
    else if n + k < 0 then 0 else n + k
  }

  /** Every entry of `idxs` indexes `sims`. */
  predicate InRange(sims: seq<real>, idxs: seq<nat>)
  {
    forall k :: 0 <= k < |idxs| ==> idxs[k] < |sims|
  }

  /** Scores are non-increasing along `idxs`. */
  predicate Descending(sims: seq<real>, idxs: seq<nat>)
    requires InRange(sims, idxs)
  {
    forall a, b :: 0 <= a < b < |idxs| ==> sims[idxs[a]] >= sims[idxs[b]]
  }

  /** Places `i` into the descending list `s`, after every index scoring at least as much. */
  function InsertDescending(sims: seq<real>, s: seq<nat>, i: nat): (r: seq<nat>)
    requires InRange(sims, s) && i < |sims|
    ensures |r| == |s| + 1 && InRange(sims, r)
    ensures forall j :: j in r <==> j in s || j == i
    ensures NoDuplicates(s) && i !in s ==> NoDuplicates(r)
    ensures Descending(sims, s) ==> Descending(sims, r)
  {
    if s == [] then [i]
    else if sims[s[0]] < sims[i] then [i] + s
    else
      var rest := InsertDescending(sims, s[1..], i);
      assert forall k :: 0 <= k < |rest| ==> rest[k] in s[1..] || rest[k] == i by {
        forall k | 0 <= k < |rest| ensures rest[k] in s[1..] || rest[k] == i {
          assert rest[k] in rest;
        }
      }
      assert Descending(sims, s) ==> forall k :: 0 <= k < |rest| ==> sims[s[0]] >= sims[rest[k]] by {
        if Descending(sims, s) {
          forall k | 0 <= k < |rest| ensures sims[s[0]] >= sims[rest[k]] {
            if rest[k] != i {
              var p :| 0 <= p < |s[1..]| && s[1..][p] == rest[k];
              assert s[p + 1] == rest[k];
            }
          }
        }
      }
      assert NoDuplicates(s) ==> s[0] !in s[1..];
      [s[0]] + rest
  }

  /**
   * The indices `0 .. n-1` of `sims`, each once, in descending score order.
   * Which of two equal scores comes first is not part of the contract.
   */
  function ArgsortDescending(sims: seq<real>, n: nat): (r: seq<nat>)
    requires n <= |sims|
    ensures |r| == n && InRange(sims, r)
    ensures forall j :: j in r <==> 0 <= j < n
    ensures NoDuplicates(r)
    ensures Descending(sims, r)
  {
    if n == 0 then [] else InsertDescending(sims, ArgsortDescending(sims, n - 1), n - 1)
  }

  /** The first `top_k` (slice semantics) indices of the descending order of all of `sims`. */
  function TopIndices(sims: seq<real>, topK: int): (r: seq<nat>)
    ensures |r| == SliceLength(|sims|, topK) && InRange(sims, r)
    ensures NoDuplicates(r)
    ensures Descending(sims, r)
    ensures forall j, k :: 0 <= j < |sims| && j !in r && 0 <= k < |r| ==> sims[j] <= sims[r[k]]
  {
    var all := ArgsortDescending(sims, |sims|);
    var r := all[..SliceLength(|sims|, topK)];
    assert forall j :: 0 <= j < |sims| && j !in r ==> exists p :: |r| <= p < |all| && all[p] == j by {
      forall j | 0 <= j < |sims| && j !in r
        ensures exists p :: |r| <= p < |all| && all[p] == j
      {
        assert j in all;
        var p :| 0 <= p < |all| && all[p] == j;
      }
    }
    r
  }
}
