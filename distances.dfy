/**
 * Ply distances to the end of the game over a labelled graph: a WIN vertex
 * ends as fast as it can (one more than the least distance of its LOSS
 * successors), a LOSS vertex holds out as long as it can (one more than the
 * greatest distance of its WIN successors), the sentinels are at 0 and a DRAW
 * vertex has no distance. The values are raised monotonically by a work queue
 * until they satisfy those equations.
 */
module Distances {
  import opened Wrappers
  import opened Graphs

  // ---------------------------------------------------------------------
  // The candidate value of one vertex.

  /** The distances of the entries of `list` labelled `want`, in list order, skipping those without a distance. */
  function Vals(list: seq<nat>, want: int, result: seq<int>, dist: seq<Option<nat>>): (r: seq<nat>)
    ensures |r| <= |list|
  {
    if |list| == 0 then []
    else
      var t := list[|list| - 1];
      Vals(list[..|list| - 1], want, result, dist) +
        (if t < |result| && t < |dist| && result[t] == want && dist[t].Some? then [dist[t].value] else [])
  }

  function MinOf(xs: seq<nat>): (r: nat)
    requires |xs| > 0
    ensures r in xs && forall k :: 0 <= k < |xs| ==> r <= xs[k]
  {
    if |xs| == 1 then xs[0]
    else
      var m := MinOf(xs[1..]);
      assert forall k :: 1 <= k < |xs| ==> xs[k] == xs[1..][k - 1];
      if xs[0] <= m then xs[0] else m
  }

  function MaxOf(xs: seq<nat>): (r: nat)
    requires |xs| > 0
    ensures r in xs && forall k :: 0 <= k < |xs| ==> xs[k] <= r
  {
    if |xs| == 1 then xs[0]
    else
      var m := MaxOf(xs[1..]);
      assert forall k :: 1 <= k < |xs| ==> xs[k] == xs[1..][k - 1];
      if xs[0] >= m then xs[0] else m
  }

  /**
   * The value the equations ask of `v` under the current distances: 1 + the
   * least distance among the LOSS successors of a WIN vertex, 1 + the
   * greatest among the WIN successors of a LOSS vertex; `None` when there is
   * no such successor with a distance, and for every other vertex.
   */
  function CandidateOf(g: Graph, result: seq<int>, dist: seq<Option<nat>>, v: nat): (r: Option<nat>)
    ensures r.Some? ==> r.value >= 1
  {
    if v < |g.succ| && v < |result| && result[v] == WIN then
      var vals := Vals(g.succ[v], LOSS, result, dist);
      if |vals| == 0 then None else Some(1 + MinOf(vals))
    else if v < |g.succ| && v < |result| && result[v] == LOSS then
      var vals := Vals(g.succ[v], WIN, result, dist);
      if |vals| == 0 then None else Some(1 + MaxOf(vals))
    else None
  }

  /** The candidate of `s`, gathered by a scan of its successors. */
  method Candidate(g: Graph, result: seq<int>, dist: seq<Option<nat>>, s: nat) returns (c: Option<nat>)
    requires s < |g.succ| && s < |result|
    ensures c == CandidateOf(g, result, dist, s)
  {
    var r := result[s];
    if r != WIN && r != LOSS {
      return None;  // DRAW
    }
    var want := if r == WIN then LOSS else WIN;
    var succ := g.succ[s];
    var vals: seq<nat> := [];
    var i := 0;
    while i < |succ|
      invariant 0 <= i <= |succ|
      invariant vals == Vals(succ[..i], want, result, dist)
    {
      var t := succ[i];
      if t < |result| && t < |dist| && result[t] == want && dist[t].Some? {
        vals := vals + [dist[t].value];
      }
      assert succ[..i + 1][..i] == succ[..i];
      i := i + 1;
    }
    assert succ[..i] == succ;
    if |vals| == 0 {
      return None;
    }
    c := if r == WIN then Some(1 + MinOf(vals)) else Some(1 + MaxOf(vals));
  }

  // ---------------------------------------------------------------------
  // Facts about the candidate values.

  /** Every value gathered is the distance of a listed vertex with the wanted label. */
  lemma {:induction false} ValsFrom(list: seq<nat>, want: int, result: seq<int>, dist: seq<Option<nat>>, k: nat)
    requires k < |Vals(list, want, result, dist)|
    ensures exists i :: (0 <= i < |list| && list[i] < |result| && list[i] < |dist| && result[list[i]] == want &&
                         dist[list[i]] == Some(Vals(list, want, result, dist)[k]))
  {
    var front := list[..|list| - 1];
    var t := list[|list| - 1];
    if k < |Vals(front, want, result, dist)| {
      ValsFrom(front, want, result, dist, k);
      var i :| 0 <= i < |front| && front[i] < |result| && front[i] < |dist| && result[front[i]] == want &&
        dist[front[i]] == Some(Vals(front, want, result, dist)[k]);
      assert list[i] == front[i];
    } else {
      assert dist[t] == Some(Vals(list, want, result, dist)[k]);
    }
  }

  /** Every listed vertex with the wanted label and a distance has its distance gathered. */
  lemma {:induction false} ValsHas(list: seq<nat>, want: int, result: seq<int>, dist: seq<Option<nat>>, i: nat)
    requires i < |list| && list[i] < |result| && list[i] < |dist| && result[list[i]] == want && dist[list[i]].Some?
    ensures dist[list[i]].value in Vals(list, want, result, dist)
  {
    var front := list[..|list| - 1];
    if i < |list| - 1 {
      assert front[i] == list[i];
      ValsHas(front, want, result, dist, i);
    }
  }

  /** Raising the distance of `s` raises the gathered values entry by entry, and changes none if `s` is not gathered. */
  lemma {:induction false} ValsRaise(list: seq<nat>, want: int, result: seq<int>, dist: seq<Option<nat>>, s: nat, x: nat)
    requires s < |dist| && dist[s].Some? && dist[s].value <= x
    ensures var a, b := Vals(list, want, result, dist), Vals(list, want, result, dist[s := Some(x)]);
      |a| == |b| && (forall k :: 0 <= k < |a| ==> a[k] <= b[k]) &&
      (s !in list || s >= |result| || result[s] != want ==> a == b)
  {
    if |list| > 0 {
      var front := list[..|list| - 1];
      ValsRaise(front, want, result, dist, s, x);
      assert s !in list ==> s !in front;
    }
  }

  lemma MinMono(a: seq<nat>, b: seq<nat>)
    requires |a| == |b| > 0 && forall k :: 0 <= k < |a| ==> a[k] <= b[k]
    ensures MinOf(a) <= MinOf(b)
  {
    var k :| 0 <= k < |b| && b[k] == MinOf(b);
    assert MinOf(a) <= a[k];
  }

  lemma MaxMono(a: seq<nat>, b: seq<nat>)
    requires |a| == |b| > 0 && forall k :: 0 <= k < |a| ==> a[k] <= b[k]
    ensures MaxOf(a) <= MaxOf(b)
  {
    var k :| 0 <= k < |a| && a[k] == MaxOf(a);
    assert b[k] <= MaxOf(b);
  }

  /**
   * Raising one distance never lowers a candidate and never makes one vanish;
   * it leaves alone the candidate of every vertex that has no move into `s`
   * or that has the label of `s`.
   */
  lemma CandidateRaise(g: Graph, result: seq<int>, dist: seq<Option<nat>>, s: nat, x: nat, v: nat)
    requires s < |dist| && dist[s].Some? && dist[s].value <= x
    ensures var c, c' := CandidateOf(g, result, dist, v), CandidateOf(g, result, dist[s := Some(x)], v);
      (c.Some? ==> c'.Some? && c.value <= c'.value) &&
      (v >= |g.succ| || s !in g.succ[v] || (s < |result| && v < |result| && result[s] == result[v]) ==> c == c')
  {
    if v < |g.succ| && v < |result| && (result[v] == WIN || result[v] == LOSS) {
      var want := if result[v] == WIN then LOSS else WIN;
      var a, b := Vals(g.succ[v], want, result, dist), Vals(g.succ[v], want, result, dist[s := Some(x)]);
      ValsRaise(g.succ[v], want, result, dist, s, x);
      if |a| > 0 {
        if result[v] == WIN {
          MinMono(a, b);
        } else {
          MaxMono(a, b);
        }
      }
    }
  }

  /** A vertex that is neither a sentinel nor a DRAW vertex: the ones the work queue handles. */
  ghost predicate Live(g: Graph, tO: nat, tX: nat, result: seq<int>, v: int) {
    0 <= v < |g.succ| && v < |result| && v != tO && v != tX && result[v] != DRAW
  }

  /** The distance table's fixed shape: sentinels at 0, DRAW vertices without a distance, every distance within the rank. */
  ghost predicate Shaped(g: Graph, tO: nat, tX: nat, result: seq<int>, rank: seq<nat>, dist: seq<Option<nat>>) {
    WellFormed(g) && Retrograde(g, tO, tX, result, rank) && |dist| == |g.succ| &&
    dist[tO] == Some(0) && dist[tX] == Some(0) &&
    (forall v :: 0 <= v < |dist| ==> (dist[v].None? <==> result[v] == DRAW)) &&
    (forall v :: 0 <= v < |dist| && dist[v].Some? ==> dist[v].value <= rank[v])
  }

  /** In a shaped table, every vertex the queue handles has a candidate, and it is within the vertex's rank. */
  lemma CandidateBound(g: Graph, tO: nat, tX: nat, result: seq<int>, rank: seq<nat>, dist: seq<Option<nat>>, v: nat)
    requires Shaped(g, tO, tX, result, rank, dist) && Live(g, tO, tX, result, v)
    ensures CandidateOf(g, result, dist, v).Some? && CandidateOf(g, result, dist, v).value <= rank[v]
  {
    if result[v] == WIN {
      assert WinJustified(g, result, rank, v);
      var i :| 0 <= i < |g.succ[v]| && g.succ[v][i] < |result| && g.succ[v][i] < |rank| &&
        result[g.succ[v][i]] == LOSS && rank[g.succ[v][i]] < rank[v];
      ValsHas(g.succ[v], LOSS, result, dist, i);
    } else {
      assert LossJustified(g, result, rank, v);
      ValsHas(g.succ[v], WIN, result, dist, 0);
      var vals := Vals(g.succ[v], WIN, result, dist);
      var k :| 0 <= k < |vals| && vals[k] == MaxOf(vals);
      ValsFrom(g.succ[v], WIN, result, dist, k);
    }
  }

  // ---------------------------------------------------------------------
  // The work-queue loop.

  /** Every distance the queue handles is at most its candidate. */
  ghost predicate Below(g: Graph, tO: nat, tX: nat, result: seq<int>, dist: seq<Option<nat>>) {
    |dist| == |g.succ| &&
    forall v :: Live(g, tO, tX, result, v) ==>
      dist[v].Some? && CandidateOf(g, result, dist, v).Some? && dist[v].value <= CandidateOf(g, result, dist, v).value
  }

  /** A handled vertex that is neither queued nor `pending` already equals its candidate. */
  ghost predicate Fixed(g: Graph, tO: nat, tX: nat, result: seq<int>, dist: seq<Option<nat>>, inq: set<nat>, pending: seq<nat>) {
    |dist| == |g.succ| &&
    forall v :: Live(g, tO, tX, result, v) && v !in inq && v !in pending ==> dist[v] == CandidateOf(g, result, dist, v)
  }

  /** The queue holds only handled vertices, and `inq` only queued ones. */
  ghost predicate Waiting(g: Graph, tO: nat, tX: nat, result: seq<int>, q: seq<nat>, inq: set<nat>) {
    (forall k :: 0 <= k < |q| ==> Live(g, tO, tX, result, q[k])) &&
    (forall v :: v in inq ==> v in q)
  }

  /** Every distance `dist0` holds is still there in `dist`, and no smaller. */
  ghost predicate Risen(dist0: seq<Option<nat>>, dist: seq<Option<nat>>) {
    |dist| == |dist0| && forall v :: 0 <= v < |dist0| && dist0[v].Some? ==> dist[v].Some? && dist0[v].value <= dist[v].value
  }

  lemma RisenStep(dist0: seq<Option<nat>>, dist: seq<Option<nat>>, s: nat, x: nat)
    requires Risen(dist0, dist) && s < |dist| && dist[s].Some? && dist[s].value <= x
    ensures Risen(dist0, dist[s := Some(x)])
  {
  }

  /** The total room left for the distances to grow below the ranks. */
  ghost function Slack(rank: seq<nat>, dist: seq<Option<nat>>): nat
    decreases |dist|
  {
    if |dist| == 0 || |rank| != |dist| then 0
    else
      var n := |dist| - 1;
      Slack(rank[..n], dist[..n]) + (if dist[n].Some? && dist[n].value <= rank[n] then rank[n] - dist[n].value else 0)
  }

  lemma {:induction false} SlackDrops(rank: seq<nat>, dist: seq<Option<nat>>, s: nat, x: nat)
    requires |rank| == |dist| && s < |dist| && dist[s].Some? && dist[s].value < x <= rank[s]
    ensures Slack(rank, dist[s := Some(x)]) < Slack(rank, dist)
  {
    var n := |dist| - 1;
    var dist' := dist[s := Some(x)];
    if s < n {
      assert dist'[..n] == dist[..n][s := Some(x)];
      SlackDrops(rank[..n], dist[..n], s, x);
    } else {
      assert dist'[..n] == dist[..n];
    }
  }

  /** Raising the front vertex to its candidate: only the vertices with a move into it can fall behind. */
  lemma Raise(g: Graph, tO: nat, tX: nat, result: seq<int>, rank: seq<nat>, dist: seq<Option<nat>>, inq: set<nat>, s: nat)
    requires Shaped(g, tO, tX, result, rank, dist) && Below(g, tO, tX, result, dist) && Fixed(g, tO, tX, result, dist, inq, [])
    requires Live(g, tO, tX, result, s) && dist[s].value < CandidateOf(g, result, dist, s).value
    ensures var dist' := dist[s := CandidateOf(g, result, dist, s)];
      Shaped(g, tO, tX, result, rank, dist') && Below(g, tO, tX, result, dist') &&
      Fixed(g, tO, tX, result, dist', inq - {s}, g.pred[s]) && Slack(rank, dist') < Slack(rank, dist)
  {
    var c := CandidateOf(g, result, dist, s);
    var x := c.value;
    var dist' := dist[s := c];
    CandidateBound(g, tO, tX, result, rank, dist, s);
    SlackDrops(rank, dist, s, x);
    forall v | Live(g, tO, tX, result, v)
      ensures CandidateOf(g, result, dist', v).Some? && dist'[v].value <= CandidateOf(g, result, dist', v).value
    {
      CandidateRaise(g, result, dist, s, x, v);
    }
    forall v | Live(g, tO, tX, result, v) && v !in inq - {s} && v !in g.pred[s]
      ensures dist'[v] == CandidateOf(g, result, dist', v)
    {
      CandidateRaise(g, result, dist, s, x, v);
      if s in g.succ[v] {
        var i :| 0 <= i < |g.succ[v]| && g.succ[v][i] == s;
        EdgeHasPred(g, v, i);
      }
    }
  }

  /** Leaving the front vertex as it is, when its candidate does not exceed it. */
  lemma Hold(g: Graph, tO: nat, tX: nat, result: seq<int>, dist: seq<Option<nat>>, inq: set<nat>, s: nat)
    requires Below(g, tO, tX, result, dist) && Fixed(g, tO, tX, result, dist, inq, [])
    requires Live(g, tO, tX, result, s) && dist[s].value >= CandidateOf(g, result, dist, s).value
    ensures Fixed(g, tO, tX, result, dist, inq - {s}, [])
  {
  }

  lemma Pop(g: Graph, tO: nat, tX: nat, result: seq<int>, q: seq<nat>, inq: set<nat>)
    requires |q| > 0 && Waiting(g, tO, tX, result, q, inq)
    ensures Live(g, tO, tX, result, q[0]) && Waiting(g, tO, tX, result, q[1..], inq - {q[0]})
  {
    forall v | v in inq - {q[0]} ensures v in q[1..] {
      var k :| 0 <= k < |q| && q[k] == v;
      assert q[1..][k - 1] == v;
    }
  }

  lemma Unpend(xs: seq<nat>, j: nat, v: nat)
    requires j < |xs| && v != xs[j] && v !in xs[j + 1..]
    ensures v !in xs[j..]
  {
    assert xs[j..] == [xs[j]] + xs[j + 1..];
  }

  /** The predecessors of the raised vertex `s` join the queue, unless queued already or not handled. */
  method Enqueue(g: Graph, tO: nat, tX: nat, result: seq<int>, dist: seq<Option<nat>>, s: nat, q0: seq<nat>, inq0: set<nat>)
    returns (q: seq<nat>, inq: set<nat>)
    requires WellFormed(g) && |result| == |g.succ| && s < |g.succ|
    requires Fixed(g, tO, tX, result, dist, inq0, g.pred[s]) && Waiting(g, tO, tX, result, q0, inq0)
    ensures Fixed(g, tO, tX, result, dist, inq, []) && Waiting(g, tO, tX, result, q, inq)
  {
    q, inq := q0, inq0;
    var preds := g.pred[s];
    var j := 0;
    while j < |preds|
      invariant 0 <= j <= |preds|
      invariant Fixed(g, tO, tX, result, dist, inq, preds[j..]) && Waiting(g, tO, tX, result, q, inq)
    {
      var p := preds[j];
      if p == tO || p == tX || result[p] == DRAW {
        // never queued
      } else if p !in inq {
        q := q + [p];
        inq := inq + {p};
      }
      forall v | Live(g, tO, tX, result, v) && v !in inq && v !in preds[j + 1..]
        ensures dist[v] == CandidateOf(g, result, dist, v)
      {
        Unpend(preds, j, v);
      }
      j := j + 1;
    }
  }

  /**
   * The distance pass over a retrograde labelling. The distances it returns
   * keep the sentinels at 0 and the DRAW vertices without a value, stay within
   * the labelling ranks, and satisfy the equations at every other vertex.
   */
  method SolveDistances(g: Graph, tO: nat, tX: nat, result: seq<int>, ghost rank: seq<nat>) returns (dist: seq<Option<nat>>)
    requires WellFormed(g) && Retrograde(g, tO, tX, result, rank)
    ensures |dist| == |g.succ|
    ensures dist[tO] == Some(0) && dist[tX] == Some(0)
    ensures forall v :: 0 <= v < |dist| ==> (dist[v].None? <==> result[v] == DRAW)
    ensures forall v :: 0 <= v < |dist| && dist[v].Some? ==> dist[v].value <= rank[v]
    ensures forall v :: Live(g, tO, tX, result, v) ==> dist[v] == CandidateOf(g, result, dist, v)
  {
    var n := |result|;
    dist := [];
    var v := 0;
    while v < n
      invariant 0 <= v <= n && |dist| == v
      invariant forall u :: 0 <= u < v ==> dist[u] == if u != tO && u != tX && result[u] == DRAW then None else Some(0)
    {
      if v == tO || v == tX {
        dist := dist + [Some(0)];
      } else if result[v] == DRAW {
        dist := dist + [None];
      } else {
        dist := dist + [Some(0)];  // the lower bound the values rise from
      }
      v := v + 1;
    }
    assert Shaped(g, tO, tX, result, rank, dist);
    forall u | Live(g, tO, tX, result, u) ensures CandidateOf(g, result, dist, u).Some? {
      CandidateBound(g, tO, tX, result, rank, dist, u);
    }

    ghost var dist0 := dist;
    var q: seq<nat> := [];
    var inq: set<nat> := {};
    v := 0;
    while v < n
      invariant 0 <= v <= n
      invariant Waiting(g, tO, tX, result, q, inq)
      invariant forall u :: 0 <= u < v && Live(g, tO, tX, result, u) ==> u in inq
    {
      if result[v] != DRAW && v != tO && v != tX {
        q := q + [v];
        inq := inq + {v};
      }
      v := v + 1;
    }

    while |q| > 0
      invariant Shaped(g, tO, tX, result, rank, dist) && Below(g, tO, tX, result, dist)
      invariant Fixed(g, tO, tX, result, dist, inq, []) && Waiting(g, tO, tX, result, q, inq)
      invariant Risen(dist0, dist)
      decreases Slack(rank, dist), |q|
    {
      var s := q[0];
      ghost var inq0 := inq;
      Pop(g, tO, tX, result, q, inq);
      q := q[1..];
      inq := inq - {s};
      var c := Candidate(g, result, dist, s);
      if c.Some? && (dist[s].None? || c.value > dist[s].value) {
        Raise(g, tO, tX, result, rank, dist, inq0, s);
        RisenStep(dist0, dist, s, c.value);
        dist := dist[s := c];
        q, inq := Enqueue(g, tO, tX, result, dist, s, q, inq);
      } else {
        Hold(g, tO, tX, result, dist, inq0, s);
      }
    }
  }
}
