/**
 * The state graph as the solver passes see it: vertices are arena indices
 * 0..n-1, `succ[v]` lists the targets of v's moves (one entry per move) and
 * `pred[v]` lists the sources of the moves into v (one entry per move).
 * Outcomes are the numbers solver.js uses, seen from the player to move.
 */
module Graphs {

  const LOSS: int := -1
  const DRAW: int := 0
  const WIN: int := 1

  datatype Graph = Graph(succ: seq<seq<nat>>, pred: seq<seq<nat>>)

  /** Every listed vertex exists, and each vertex lists a move into it as often as its source lists the move. */
  ghost predicate WellFormed(g: Graph) {
    |g.pred| == |g.succ| &&
    (forall v, i :: 0 <= v < |g.succ| && 0 <= i < |g.succ[v]| ==> g.succ[v][i] < |g.succ|) &&
    (forall v, i :: 0 <= v < |g.pred| && 0 <= i < |g.pred[v]| ==> g.pred[v][i] < |g.succ|) &&
    (forall u, v :: 0 <= u < |g.succ| && 0 <= v < |g.succ| ==> multiset(g.pred[v])[u] == multiset(g.succ[u])[v])
  }

  lemma EdgeHasPred(g: Graph, u: nat, i: nat)
    requires WellFormed(g) && u < |g.succ| && i < |g.succ[u]|
    ensures u in g.pred[g.succ[u][i]]
  {
    var v := g.succ[u][i];
    assert g.succ[u][i] in multiset(g.succ[u]);
  }

  lemma PredHasEdge(g: Graph, v: nat, j: nat)
    requires WellFormed(g) && v < |g.succ| && j < |g.pred[v]|
    ensures v in g.succ[g.pred[v][j]]
  {
    assert g.pred[v][j] in multiset(g.pred[v]);
  }

  /** The position, among the moves of its source, of a move listed as entering `v`. */
  lemma EdgeOfPred(g: Graph, v: nat, j: nat) returns (i: nat)
    requires WellFormed(g) && v < |g.succ| && j < |g.pred[v]|
    ensures i < |g.succ[g.pred[v][j]]| && g.succ[g.pred[v][j]][i] == v
  {
    PredHasEdge(g, v, j);
    i :| 0 <= i < |g.succ[g.pred[v][j]]| && g.succ[g.pred[v][j]][i] == v;
  }

  /** A new vertex without moves keeps a graph well formed. */
  lemma AddVertex(g: Graph)
    requires WellFormed(g)
    ensures WellFormed(Graph(g.succ + [[]], g.pred + [[]]))
  {
    var g' := Graph(g.succ + [[]], g.pred + [[]]);
    var n := |g.succ|;
    forall u, v | 0 <= u < |g'.succ| && 0 <= v < |g'.succ|
      ensures multiset(g'.pred[v])[u] == multiset(g'.succ[u])[v]
    {
      if u < n && v == n {
        assert v !in g.succ[u];
      } else if u == n && v < n {
        assert u !in g.pred[v];
      }
    }
  }

  /** Recording one more move from `u` to `v` on both sides keeps a graph well formed. */
  lemma AddEdge(g: Graph, u: nat, v: nat)
    requires WellFormed(g) && u < |g.succ| && v < |g.succ|
    ensures WellFormed(Graph(g.succ[u := g.succ[u] + [v]], g.pred[v := g.pred[v] + [u]]))
  {
    var succ', pred' := g.succ[u := g.succ[u] + [v]], g.pred[v := g.pred[v] + [u]];
    forall a, b | 0 <= a < |succ'| && 0 <= b < |succ'|
      ensures multiset(pred'[b])[a] == multiset(succ'[a])[b]
    {
      AddEdgeAt(g, u, v, a, b);
    }
  }

  lemma AddEdgeAt(g: Graph, u: nat, v: nat, a: nat, b: nat)
    requires WellFormed(g) && u < |g.succ| && v < |g.succ| && a < |g.succ| && b < |g.succ|
    ensures multiset(g.pred[v := g.pred[v] + [u]][b])[a] == multiset(g.succ[u := g.succ[u] + [v]][a])[b]
  {
    assert multiset(g.pred[b])[a] == multiset(g.succ[a])[b];
    if a == u {
      assert multiset(g.succ[u] + [v]) == multiset(g.succ[u]) + multiset{v};
    }
    if b == v {
      assert multiset(g.pred[v] + [u]) == multiset(g.pred[v]) + multiset{u};
    }
  }

  /** A WIN label is backed by a move into a LOSS vertex that was labelled earlier. */
  ghost predicate WinJustified(g: Graph, result: seq<int>, rank: seq<nat>, v: nat)
    requires v < |g.succ| && v < |result| && v < |rank|
  {
    exists i :: 0 <= i < |g.succ[v]| && g.succ[v][i] < |result| && g.succ[v][i] < |rank| &&
      result[g.succ[v][i]] == LOSS && rank[g.succ[v][i]] < rank[v]
  }

  /** A LOSS label (other than a sentinel's) means every move, and there is one, reaches an earlier-labelled WIN vertex. */
  ghost predicate LossJustified(g: Graph, result: seq<int>, rank: seq<nat>, v: nat)
    requires v < |g.succ| && v < |result| && v < |rank|
  {
    |g.succ[v]| > 0 &&
    forall i :: 0 <= i < |g.succ[v]| ==>
      g.succ[v][i] < |result| && g.succ[v][i] < |rank| &&
      result[g.succ[v][i]] == WIN && rank[g.succ[v][i]] < rank[v]
  }

  /** A DRAW vertex has no move into a LOSS vertex, and either no move at all or a move into another DRAW vertex. */
  ghost predicate DrawJustified(g: Graph, result: seq<int>, v: nat)
    requires v < |g.succ| && v < |result|
  {
    (forall i :: 0 <= i < |g.succ[v]| ==> g.succ[v][i] < |result| && result[g.succ[v][i]] != LOSS) &&
    (|g.succ[v]| == 0 || exists i :: 0 <= i < |g.succ[v]| && g.succ[v][i] < |result| && result[g.succ[v][i]] == DRAW)
  }

  /**
   * The labelling that retrograde analysis produces: the two sentinels lose,
   * every other label is justified by the labels of the successors, and the
   * ranks (the order of labelling) show that no WIN or LOSS label rests on a cycle.
   */
  ghost predicate Retrograde(g: Graph, tO: nat, tX: nat, result: seq<int>, rank: seq<nat>) {
    var n := |g.succ|;
    |result| == n && |rank| == n && tO < n && tX < n &&
    result[tO] == LOSS && result[tX] == LOSS &&
    (forall v :: 0 <= v < n ==> result[v] == LOSS || result[v] == DRAW || result[v] == WIN) &&
    (forall v :: 0 <= v < n && result[v] == WIN ==> WinJustified(g, result, rank, v)) &&
    (forall v :: 0 <= v < n && v != tO && v != tX && result[v] == LOSS ==> LossJustified(g, result, rank, v)) &&
    (forall v :: 0 <= v < n && result[v] == DRAW ==> DrawJustified(g, result, v))
  }

  /** The number of entries of `list` that belong to `S`. */
  function CountIn(list: seq<nat>, S: set<nat>): (c: nat)
    ensures c <= |list|
  {
    if |list| == 0 then 0
    else (if list[0] in S then 1 else 0) + CountIn(list[1..], S)
  }

  lemma {:induction false} CountNone(list: seq<nat>, S: set<nat>)
    requires forall i :: 0 <= i < |list| ==> list[i] !in S
    ensures CountIn(list, S) == 0
  {
    if |list| > 0 {
      CountNone(list[1..], S);
    }
  }

  lemma {:induction false} CountAdd(list: seq<nat>, S: set<nat>, s: nat)
    requires s !in S
    ensures CountIn(list, S + {s}) == CountIn(list, S) + multiset(list)[s]
  {
    if |list| > 0 {
      CountAdd(list[1..], S, s);
      assert list == [list[0]] + list[1..];
    }
  }

  lemma {:induction false} CountFull(list: seq<nat>, S: set<nat>)
    requires CountIn(list, S) == |list|
    ensures forall i :: 0 <= i < |list| ==> list[i] in S
  {
    if |list| > 0 {
      CountFull(list[1..], S);
      assert forall i :: 1 <= i < |list| ==> list[i] == list[1..][i - 1];
    }
  }

  lemma {:induction false} CountShort(list: seq<nat>, S: set<nat>)
    requires CountIn(list, S) < |list|
    ensures exists i :: 0 <= i < |list| && list[i] !in S
  {
    if list[0] in S {
      CountShort(list[1..], S);
      var i :| 0 <= i < |list[1..]| && list[1..][i] !in S;
      assert list[i + 1] !in S;
    }
  }
}
