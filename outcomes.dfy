/**
 * Outcome labelling by retrograde analysis over a graph with cycles: the
 * sentinels lose; a predecessor of a LOSS vertex wins; a vertex all of whose
 * moves reach WIN vertices loses once its counter of unresolved moves runs out;
 * whatever is never resolved is a DRAW.
 */
module Outcomes {
  import opened Graphs

  /** The verdict of a vertex the passes have not resolved yet. */
  const UNKNOWN: int := 2

  /** What the propagation has established once its queue is empty. */
  ghost predicate Settled(g: Graph, tO: nat, tX: nat, mid: seq<int>, rank: seq<nat>) {
    var n := |g.succ|;
    |mid| == n && |rank| == n && tO < n && tX < n &&
    mid[tO] == LOSS && mid[tX] == LOSS &&
    (forall v :: 0 <= v < n ==> mid[v] == LOSS || mid[v] == WIN || mid[v] == UNKNOWN) &&
    (forall v :: 0 <= v < n && mid[v] == WIN ==> WinJustified(g, mid, rank, v)) &&
    (forall v :: 0 <= v < n && v != tO && v != tX && mid[v] == LOSS ==> LossJustified(g, mid, rank, v)) &&
    (forall v :: 0 <= v < n && mid[v] == UNKNOWN ==>
      (forall i :: 0 <= i < |g.succ[v]| ==> g.succ[v][i] < n && mid[g.succ[v][i]] != LOSS) &&
      (|g.succ[v]| == 0 || exists i :: 0 <= i < |g.succ[v]| && g.succ[v][i] < n && mid[g.succ[v][i]] == UNKNOWN))
  }

  /** Turning every unresolved verdict into DRAW completes a settled labelling into a retrograde one. */
  lemma SettledResolves(g: Graph, tO: nat, tX: nat, mid: seq<int>, rank: seq<nat>, result: seq<int>)
    requires Settled(g, tO, tX, mid, rank)
    requires |result| == |mid|
    requires forall v :: 0 <= v < |mid| ==> result[v] == if mid[v] == UNKNOWN then DRAW else mid[v]
    ensures Retrograde(g, tO, tX, result, rank)
  {
    var n := |g.succ|;
    forall v | 0 <= v < n && result[v] == WIN ensures WinJustified(g, result, rank, v) {
      assert WinJustified(g, mid, rank, v);
      var i :| 0 <= i < |g.succ[v]| && g.succ[v][i] < |mid| && g.succ[v][i] < |rank| &&
        mid[g.succ[v][i]] == LOSS && rank[g.succ[v][i]] < rank[v];
      assert result[g.succ[v][i]] == LOSS;
    }
    forall v | 0 <= v < n && v != tO && v != tX && result[v] == LOSS ensures LossJustified(g, result, rank, v) {
      assert LossJustified(g, mid, rank, v);
    }
    forall v | 0 <= v < n && result[v] == DRAW ensures DrawJustified(g, result, v) {
      if |g.succ[v]| > 0 {
        var i :| 0 <= i < |g.succ[v]| && g.succ[v][i] < n && mid[g.succ[v][i]] == UNKNOWN;
        assert result[g.succ[v][i]] == DRAW;
      }
    }
  }

  /**
   * The outcome pass. Returns one verdict per vertex; the ghost `rank` is the
   * order in which the labels were decided.
   */
  method SolveOutcomes(g: Graph, tO: nat, tX: nat) returns (result: seq<int>, ghost rank: seq<nat>)
    requires WellFormed(g) && tO < |g.succ| && tX < |g.succ| && tO != tX
    ensures Retrograde(g, tO, tX, result, rank)
  {
    var mid;
    mid, rank := Propagate(g, tO, tX);
    // unresolved => draw
    result := mid;
    var v := 0;
    while v < |result|
      invariant 0 <= v <= |result| == |mid|
      invariant forall u :: 0 <= u < v ==> result[u] == if mid[u] == UNKNOWN then DRAW else mid[u]
      invariant forall u :: v <= u < |result| ==> result[u] == mid[u]
    {
      if result[v] == UNKNOWN {
        result := result[v := DRAW];
      }
      v := v + 1;
    }
    SettledResolves(g, tO, tX, mid, rank, result);
  }

  // ---------------------------------------------------------------------
  // The invariants of the work-queue loop. `rank` numbers the decided
  // vertices in the order of their deciding, `count` of them so far; the
  // first `head` of them have been taken from the queue.

  /** The labels decided so far are justified by labels decided before them. */
  ghost predicate Labelled(g: Graph, tO: nat, tX: nat, result: seq<int>, rank: seq<nat>, count: nat) {
    var n := |g.succ|;
    |result| == n && |rank| == n && tO < n && tX < n &&
    (forall v :: 0 <= v < n ==> result[v] == LOSS || result[v] == WIN || result[v] == UNKNOWN) &&
    result[tO] == LOSS && result[tX] == LOSS &&
    (forall v :: 0 <= v < n && result[v] != UNKNOWN ==> rank[v] < count) &&
    (forall u, v {:trigger rank[u], rank[v]} :: 0 <= u < n && 0 <= v < n && result[u] != UNKNOWN && result[v] != UNKNOWN && rank[u] == rank[v] ==> u == v) &&
    (forall v :: 0 <= v < n && result[v] == WIN ==> WinJustified(g, result, rank, v)) &&
    (forall v :: 0 <= v < n && v != tO && v != tX && result[v] == LOSS ==> LossJustified(g, result, rank, v))
  }

  /** The queue holds the decided vertices of ranks `first` .. `count` - 1, in rank order. */
  ghost predicate Queued(result: seq<int>, rank: seq<nat>, dq: seq<nat>, first: nat, count: nat) {
    first + |dq| == count &&
    forall k :: 0 <= k < |dq| ==> dq[k] < |result| && dq[k] < |rank| && result[dq[k]] != UNKNOWN && rank[dq[k]] == first + k
  }

  /** Every LOSS vertex taken from the queue has had all its predecessors resolved. */
  ghost predicate Spread(g: Graph, result: seq<int>, rank: seq<nat>, head: nat) {
    forall v :: 0 <= v < |result| && v < |rank| && v < |g.pred| && result[v] == LOSS && rank[v] < head ==>
      forall j :: 0 <= j < |g.pred[v]| ==> g.pred[v][j] < |result| && result[g.pred[v][j]] != UNKNOWN
  }

  /** `wins` holds exactly the WIN vertices taken from the queue. */
  ghost predicate WinsAre(result: seq<int>, rank: seq<nat>, wins: set<nat>, head: nat) {
    forall v :: v in wins <==> 0 <= v < |result| && v < |rank| && result[v] == WIN && rank[v] < head
  }

  /**
   * The counter of an unresolved vertex is its number of moves, less those into
   * the WIN vertices of `wins`, less the moves counted down in `done`; it is
   * positive whenever the vertex has a move.
   */
  ghost predicate Counted(g: Graph, result: seq<int>, remaining: seq<int>, wins: set<nat>, done: seq<nat>) {
    |remaining| == |result| == |g.succ| &&
    forall p :: 0 <= p < |result| && result[p] == UNKNOWN ==>
      remaining[p] == |g.succ[p]| - CountIn(g.succ[p], wins) - multiset(done)[p] &&
      (|g.succ[p]| > 0 ==> remaining[p] > 0)
  }

  /** Every label decided in `result0` is still the label in `result`: a vertex is decided at most once. */
  ghost predicate Kept(result0: seq<int>, result: seq<int>) {
    |result| == |result0| && forall v :: 0 <= v < |result0| && result0[v] != UNKNOWN ==> result[v] == result0[v]
  }

  /** No counter of unresolved moves has gone up since `remaining0`. */
  ghost predicate Lowered(remaining0: seq<int>, remaining: seq<int>) {
    |remaining| == |remaining0| && forall v :: 0 <= v < |remaining0| ==> remaining[v] <= remaining0[v]
  }

  /** Deciding an unresolved vertex and lowering one counter to `x` keep every earlier label and no counter rises. */
  lemma KeptLoweredStep(result: seq<int>, remaining: seq<int>, p: nat, verdict: int, x: int)
    requires p < |result| == |remaining| && x <= remaining[p]
    ensures result[p] == UNKNOWN ==> Kept(result, result[p := verdict])
    ensures Kept(result, result) && Lowered(remaining, remaining) && Lowered(remaining, remaining[p := x])
  {
  }

  lemma KeptLoweredTrans(result0: seq<int>, result1: seq<int>, result: seq<int>,
                         remaining0: seq<int>, remaining1: seq<int>, remaining: seq<int>)
    requires Kept(result0, result1) && Kept(result1, result) && Lowered(remaining0, remaining1) && Lowered(remaining1, remaining)
    ensures Kept(result0, result) && Lowered(remaining0, remaining)
  {
  }

  ghost predicate Unknowns(result: seq<int>, unknown: set<nat>) {
    forall v :: v in unknown <==> 0 <= v < |result| && result[v] == UNKNOWN
  }

  /** Deciding one more vertex, soundly, keeps the labelling justified and ordered. */
  lemma DecideLabelled(g: Graph, tO: nat, tX: nat, result: seq<int>, rank: seq<nat>, count: nat, p: nat, verdict: int)
    requires Labelled(g, tO, tX, result, rank, count)
    requires p < |g.succ| && result[p] == UNKNOWN
    requires verdict == WIN || verdict == LOSS
    requires verdict == WIN ==> exists i :: 0 <= i < |g.succ[p]| && g.succ[p][i] < |result| && result[g.succ[p][i]] == LOSS
    requires verdict == LOSS ==> (|g.succ[p]| > 0 &&
      forall i :: 0 <= i < |g.succ[p]| ==> g.succ[p][i] < |result| && result[g.succ[p][i]] == WIN)
    ensures Labelled(g, tO, tX, result[p := verdict], rank[p := count], count + 1)
  {
    var n := |g.succ|;
    var result', rank' := result[p := verdict], rank[p := count];
    if verdict == WIN {
      var i :| 0 <= i < |g.succ[p]| && g.succ[p][i] < |result| && result[g.succ[p][i]] == LOSS;
      assert result'[g.succ[p][i]] == LOSS && rank'[g.succ[p][i]] < rank'[p];
      assert WinJustified(g, result', rank', p);
    } else {
      assert LossJustified(g, result', rank', p);
    }
    Undisturbed(g, tO, tX, result, rank, count, p, verdict, result', rank');
  }

  /** Deciding `p` leaves the justification of every other label intact. */
  lemma Undisturbed(g: Graph, tO: nat, tX: nat, result: seq<int>, rank: seq<nat>, count: nat, p: nat, verdict: int,
                    result': seq<int>, rank': seq<nat>)
    requires Labelled(g, tO, tX, result, rank, count)
    requires p < |g.succ| && result[p] == UNKNOWN
    requires result' == result[p := verdict] && rank' == rank[p := count]
    ensures forall v :: 0 <= v < |g.succ| && v != p && result'[v] == WIN ==> WinJustified(g, result', rank', v)
    ensures forall v :: 0 <= v < |g.succ| && v != p && v != tO && v != tX && result'[v] == LOSS ==>
      LossJustified(g, result', rank', v)
  {
    var n := |g.succ|;
    forall v | 0 <= v < n && v != p && result'[v] == WIN ensures WinJustified(g, result', rank', v) {
      assert WinJustified(g, result, rank, v);
      var i :| 0 <= i < |g.succ[v]| && g.succ[v][i] < |result| && g.succ[v][i] < |rank| &&
        result[g.succ[v][i]] == LOSS && rank[g.succ[v][i]] < rank[v];
      assert result'[g.succ[v][i]] == LOSS && rank'[g.succ[v][i]] < rank'[v];
    }
    forall v | 0 <= v < n && v != p && v != tO && v != tX && result'[v] == LOSS ensures LossJustified(g, result', rank', v) {
      assert LossJustified(g, result, rank, v);
    }
  }

  /** Deciding one more vertex keeps the bookkeeping of the queue. */
  lemma DecideBooks(g: Graph, tO: nat, tX: nat, result: seq<int>, rank: seq<nat>, count: nat, dq: seq<nat>, first: nat,
                    head: nat, wins: set<nat>, unknown: set<nat>, p: nat, verdict: int)
    requires Labelled(g, tO, tX, result, rank, count) && Queued(result, rank, dq, first, count)
    requires Spread(g, result, rank, head) && WinsAre(result, rank, wins, head) && Unknowns(result, unknown)
    requires head <= first && p < |g.succ| && result[p] == UNKNOWN && verdict != UNKNOWN
    ensures Queued(result[p := verdict], rank[p := count], dq + [p], first, count + 1)
    ensures Spread(g, result[p := verdict], rank[p := count], head)
    ensures WinsAre(result[p := verdict], rank[p := count], wins, head)
    ensures Unknowns(result[p := verdict], unknown - {p}) && p in unknown
  {
  }

  /** Once the queue's front vertex has told its predecessors, the processed ranks grow by one. */
  lemma SpreadStep(g: Graph, tO: nat, tX: nat, result: seq<int>, rank: seq<nat>, count: nat, head: nat, s: nat)
    requires WellFormed(g)
    requires Labelled(g, tO, tX, result, rank, count) && Spread(g, result, rank, head)
    requires s < |result| && result[s] != UNKNOWN && rank[s] == head
    requires result[s] == LOSS ==>
      forall j :: 0 <= j < |g.pred[s]| ==> g.pred[s][j] < |result| && result[g.pred[s][j]] != UNKNOWN
    ensures Spread(g, result, rank, head + 1)
  {
  }

  /** Taking the front vertex off the queue adds it to `wins` when it is a WIN vertex. */
  lemma WinsStep(g: Graph, tO: nat, tX: nat, result: seq<int>, rank: seq<nat>, count: nat, wins: set<nat>, head: nat, s: nat)
    requires Labelled(g, tO, tX, result, rank, count) && WinsAre(result, rank, wins, head)
    requires s < |result| && result[s] != UNKNOWN && rank[s] == head
    ensures WinsAre(result, rank, if result[s] == WIN then wins + {s} else wins, head + 1)
  {
  }

  /** A decided vertex drops out of the counters' invariant. */
  lemma CountedDecided(g: Graph, result: seq<int>, remaining: seq<int>, wins: set<nat>, done: seq<nat>, p: nat, verdict: int)
    requires Counted(g, result, remaining, wins, done) && p < |result| && verdict != UNKNOWN
    ensures Counted(g, result[p := verdict], remaining, wins, done)
  {
  }

  /** Counting a move out of a decided vertex changes nothing the invariant speaks of. */
  lemma CountedSkip(g: Graph, result: seq<int>, remaining: seq<int>, wins: set<nat>, done: seq<nat>, p: nat, x: int)
    requires Counted(g, result, remaining, wins, done) && p < |result| && result[p] != UNKNOWN
    ensures Counted(g, result, remaining, wins, done + [p])
    ensures Counted(g, result, remaining[p := x], wins, done + [p])
  {
  }

  /** Counting down an unresolved vertex that keeps a move to go. */
  lemma CountedDown(g: Graph, result: seq<int>, remaining: seq<int>, wins: set<nat>, done: seq<nat>, p: nat)
    requires Counted(g, result, remaining, wins, done) && p < |result| && result[p] == UNKNOWN && remaining[p] > 1
    ensures Counted(g, result, remaining[p := remaining[p] - 1], wins, done + [p])
  {
  }

  /** Handling all the moves into the WIN vertex `s` is the same as adding `s` to `wins`. */
  lemma CountedStep(g: Graph, result: seq<int>, remaining: seq<int>, wins: set<nat>, s: nat)
    requires WellFormed(g) && s < |g.succ| && s !in wins
    requires Counted(g, result, remaining, wins, g.pred[s])
    ensures Counted(g, result, remaining, wins + {s}, [])
  {
    forall p | 0 <= p < |result| && result[p] == UNKNOWN
      ensures remaining[p] == |g.succ[p]| - CountIn(g.succ[p], wins + {s})
    {
      CountAdd(g.succ[p], wins, s);
    }
  }

  /** A counter that runs out means every move of the vertex reaches a WIN vertex. */
  lemma RunOut(g: Graph, result: seq<int>, remaining: seq<int>, wins: set<nat>, s: nat, j: nat, p: nat)
    requires WellFormed(g) && s < |g.succ| == |result| && s !in wins && result[s] == WIN
    requires forall v :: v in wins ==> v < |result| && result[v] == WIN
    requires j < |g.pred[s]| && p == g.pred[s][j] && p < |result| && result[p] == UNKNOWN
    requires Counted(g, result, remaining, wins, g.pred[s][..j]) && remaining[p] == 1
    ensures |g.succ[p]| > 0 && forall i :: 0 <= i < |g.succ[p]| ==> g.succ[p][i] < |result| && result[g.succ[p][i]] == WIN
  {
    var preds := g.pred[s];
    PredHasEdge(g, s, j);
    assert multiset(preds[..j])[p] + 1 <= multiset(g.succ[p])[s] by {
      TakeOneMore(preds, j);
      assert preds == preds[..j + 1] + preds[j + 1..];
      assert multiset(preds[..j + 1])[p] <= multiset(preds)[p];
    }
    CountAdd(g.succ[p], wins, s);
    assert CountIn(g.succ[p], wins + {s}) == |g.succ[p]|;
    CountFull(g.succ[p], wins + {s});
  }

  /** With the queue drained, every unresolved vertex is as `Settled` describes. */
  lemma Drained(g: Graph, tO: nat, tX: nat, result: seq<int>, rank: seq<nat>, count: nat,
                remaining: seq<int>, wins: set<nat>)
    requires WellFormed(g)
    requires Labelled(g, tO, tX, result, rank, count) && Spread(g, result, rank, count)
    requires WinsAre(result, rank, wins, count) && Counted(g, result, remaining, wins, [])
    ensures Settled(g, tO, tX, result, rank)
  {
    var n := |g.succ|;
    forall p | 0 <= p < n && result[p] == UNKNOWN
      ensures forall i :: 0 <= i < |g.succ[p]| ==> g.succ[p][i] < n && result[g.succ[p][i]] != LOSS
      ensures |g.succ[p]| == 0 || exists i :: 0 <= i < |g.succ[p]| && g.succ[p][i] < n && result[g.succ[p][i]] == UNKNOWN
    {
      forall i | 0 <= i < |g.succ[p]| ensures result[g.succ[p][i]] != LOSS {
        EdgeHasPred(g, p, i);
      }
      if |g.succ[p]| > 0 {
        CountShort(g.succ[p], wins);
        var i :| 0 <= i < |g.succ[p]| && g.succ[p][i] !in wins;
        assert result[g.succ[p][i]] == UNKNOWN;
      }
    }
  }

  /** All the bookkeeping of the work-queue loop at once. */
  ghost predicate Books(g: Graph, tO: nat, tX: nat, result: seq<int>, rank: seq<nat>, count: nat, dq: seq<nat>, first: nat,
                        head: nat, wins: set<nat>, remaining: seq<int>, done: seq<nat>, unknown: set<nat>) {
    WellFormed(g) &&
    Labelled(g, tO, tX, result, rank, count) && Queued(result, rank, dq, first, count) &&
    Spread(g, result, rank, head) && WinsAre(result, rank, wins, head) &&
    Counted(g, result, remaining, wins, done) && Unknowns(result, unknown)
  }

  /**
   * Where a round of the loop stands after the first `j` predecessors of `s`:
   * the label and rank of `s` are unchanged, `done` lists the moves counted
   * down so far, and after a LOSS vertex the seen predecessors are all resolved.
   */
  ghost predicate Round(g: Graph, s: nat, rs: int, j: nat, result: seq<int>, rank: seq<nat>, head: nat, done: seq<nat>) {
    s < |g.pred| && j <= |g.pred[s]| && s < |result| && s < |rank| &&
    result[s] == rs && rs != UNKNOWN && rank[s] == head &&
    (rs == WIN ==> done == g.pred[s][..j]) &&
    (rs != WIN ==> done == []) &&
    (rs == LOSS ==> forall k :: 0 <= k < j ==> g.pred[s][k] < |result| && result[g.pred[s][k]] != UNKNOWN)
  }

  lemma TakeOneMore(xs: seq<nat>, j: nat)
    requires j < |xs|
    ensures xs[..j + 1] == xs[..j] + [xs[j]]
  {
  }

  /** An unresolved predecessor of a LOSS vertex is decided WIN. */
  lemma StepWin(g: Graph, tO: nat, tX: nat, result: seq<int>, rank: seq<nat>, count: nat, dq: seq<nat>,
                head: nat, wins: set<nat>, remaining: seq<int>, done: seq<nat>, unknown: set<nat>, s: nat, j: nat, p: nat)
    requires Books(g, tO, tX, result, rank, count, dq, head + 1, head, wins, remaining, done, unknown)
    requires Round(g, s, LOSS, j, result, rank, head, done)
    requires j < |g.pred[s]| && p == g.pred[s][j] && result[p] == UNKNOWN
    ensures p in unknown
    ensures Books(g, tO, tX, result[p := WIN], rank[p := count], count + 1, dq + [p], head + 1, head, wins, remaining, done, unknown - {p})
    ensures Round(g, s, LOSS, j + 1, result[p := WIN], rank[p := count], head, done)
  {
    var i := EdgeOfPred(g, s, j);
    assert g.succ[p][i] < |result| && result[g.succ[p][i]] == LOSS;
    DecideLabelled(g, tO, tX, result, rank, count, p, WIN);
    DecideBooks(g, tO, tX, result, rank, count, dq, head + 1, head, wins, unknown, p, WIN);
    CountedDecided(g, result, remaining, wins, done, p, WIN);
  }

  /** An unresolved predecessor of a WIN vertex whose last move is counted down is decided LOSS. */
  lemma StepLoss(g: Graph, tO: nat, tX: nat, result: seq<int>, rank: seq<nat>, count: nat, dq: seq<nat>,
                 head: nat, wins: set<nat>, remaining: seq<int>, done: seq<nat>, unknown: set<nat>, s: nat, j: nat, p: nat)
    requires Books(g, tO, tX, result, rank, count, dq, head + 1, head, wins, remaining, done, unknown)
    requires Round(g, s, WIN, j, result, rank, head, done)
    requires j < |g.pred[s]| && p == g.pred[s][j] && result[p] == UNKNOWN && remaining[p] == 1
    ensures p in unknown
    ensures Books(g, tO, tX, result[p := LOSS], rank[p := count], count + 1, dq + [p], head + 1, head, wins,
                  remaining[p := 0], done + [p], unknown - {p})
    ensures Round(g, s, WIN, j + 1, result[p := LOSS], rank[p := count], head, done + [p])
  {
    TakeOneMore(g.pred[s], j);
    RunOut(g, result, remaining, wins, s, j, p);
    DecideLabelled(g, tO, tX, result, rank, count, p, LOSS);
    DecideBooks(g, tO, tX, result, rank, count, dq, head + 1, head, wins, unknown, p, LOSS);
    CountedDecided(g, result, remaining, wins, done, p, LOSS);
    CountedSkip(g, result[p := LOSS], remaining, wins, done, p, 0);
  }

  /** An unresolved predecessor of a WIN vertex with moves still open is counted down. */
  lemma StepDown(g: Graph, tO: nat, tX: nat, result: seq<int>, rank: seq<nat>, count: nat, dq: seq<nat>,
                 head: nat, wins: set<nat>, remaining: seq<int>, done: seq<nat>, unknown: set<nat>, s: nat, j: nat, p: nat)
    requires Books(g, tO, tX, result, rank, count, dq, head + 1, head, wins, remaining, done, unknown)
    requires Round(g, s, WIN, j, result, rank, head, done)
    requires j < |g.pred[s]| && p == g.pred[s][j] && result[p] == UNKNOWN && remaining[p] > 1
    ensures Books(g, tO, tX, result, rank, count, dq, head + 1, head, wins, remaining[p := remaining[p] - 1], done + [p], unknown)
    ensures Round(g, s, WIN, j + 1, result, rank, head, done + [p])
  {
    TakeOneMore(g.pred[s], j);
    CountedDown(g, result, remaining, wins, done, p);
  }

  /** A resolved predecessor is only counted as seen. */
  lemma StepSkip(g: Graph, tO: nat, tX: nat, result: seq<int>, rank: seq<nat>, count: nat, dq: seq<nat>,
                 head: nat, wins: set<nat>, remaining: seq<int>, done: seq<nat>, unknown: set<nat>, s: nat, rs: int, j: nat, p: nat)
    requires Books(g, tO, tX, result, rank, count, dq, head + 1, head, wins, remaining, done, unknown)
    requires Round(g, s, rs, j, result, rank, head, done)
    requires j < |g.pred[s]| && p == g.pred[s][j] && p < |result| && result[p] != UNKNOWN
    ensures Books(g, tO, tX, result, rank, count, dq, head + 1, head, wins, remaining, if rs == WIN then done + [p] else done, unknown)
    ensures Round(g, s, rs, j + 1, result, rank, head, if rs == WIN then done + [p] else done)
  {
    TakeOneMore(g.pred[s], j);
    CountedSkip(g, result, remaining, wins, done, p, 0);
  }

  /**
   * One step of a round of the work-queue loop: the `j`-th predecessor `p` of
   * the vertex `s` learns the label `rs` of `s`.
   */
  method Visit(g: Graph, tO: nat, tX: nat, s: nat, rs: int, j: nat, result0: seq<int>, remaining0: seq<int>, dq0: seq<nat>,
               ghost rank0: seq<nat>, ghost count0: nat, ghost head: nat, ghost wins: set<nat>, ghost done0: seq<nat>,
               ghost unknown0: set<nat>)
    returns (result: seq<int>, remaining: seq<int>, dq: seq<nat>, ghost rank: seq<nat>, ghost count: nat,
             ghost done: seq<nat>, ghost unknown: set<nat>)
    requires Books(g, tO, tX, result0, rank0, count0, dq0, head + 1, head, wins, remaining0, done0, unknown0)
    requires Round(g, s, rs, j, result0, rank0, head, done0) && j < |g.pred[s]|
    ensures Books(g, tO, tX, result, rank, count, dq, head + 1, head, wins, remaining, done, unknown)
    ensures Round(g, s, rs, j + 1, result, rank, head, done)
    ensures |unknown| + count == |unknown0| + count0
    ensures Kept(result0, result) && Lowered(remaining0, remaining)
  {
    result, remaining, dq, rank, count, done, unknown := result0, remaining0, dq0, rank0, count0, done0, unknown0;
    var p := g.pred[s][j];
    KeptLoweredStep(result, remaining, p, UNKNOWN, remaining[p]);
    if result[p] != UNKNOWN {
      StepSkip(g, tO, tX, result, rank, count, dq, head, wins, remaining, done, unknown, s, rs, j, p);
      if rs == WIN {
        done := done + [p];
      }
    } else {
      result, remaining, dq, rank, count, done, unknown :=
        Learn(g, tO, tX, s, rs, j, p, result, remaining, dq, rank, count, head, wins, done, unknown);
    }
  }

  /** The `j`-th predecessor `p` of `s` is unresolved: a LOSS for `s` makes it WIN, a WIN for `s` counts it down. */
  method Learn(g: Graph, tO: nat, tX: nat, s: nat, rs: int, j: nat, p: nat, result0: seq<int>, remaining0: seq<int>,
               dq0: seq<nat>, ghost rank0: seq<nat>, ghost count0: nat, ghost head: nat, ghost wins: set<nat>,
               ghost done0: seq<nat>, ghost unknown0: set<nat>)
    returns (result: seq<int>, remaining: seq<int>, dq: seq<nat>, ghost rank: seq<nat>, ghost count: nat,
             ghost done: seq<nat>, ghost unknown: set<nat>)
    requires Books(g, tO, tX, result0, rank0, count0, dq0, head + 1, head, wins, remaining0, done0, unknown0)
    requires Round(g, s, rs, j, result0, rank0, head, done0) && j < |g.pred[s]|
    requires p == g.pred[s][j] && result0[p] == UNKNOWN
    ensures Books(g, tO, tX, result, rank, count, dq, head + 1, head, wins, remaining, done, unknown)
    ensures Round(g, s, rs, j + 1, result, rank, head, done)
    ensures |unknown| + count == |unknown0| + count0
    ensures Kept(result0, result) && Lowered(remaining0, remaining)
  {
    result, remaining, dq, rank, count, done, unknown := result0, remaining0, dq0, rank0, count0, done0, unknown0;
    KeptLoweredStep(result, remaining, p, if rs == LOSS then WIN else LOSS, remaining[p] - 1);
    KeptLoweredStep(result, remaining, p, LOSS, 0);
    if rs == LOSS {
      // successor is LOSS for the player to move there => predecessor is WIN
      StepWin(g, tO, tX, result, rank, count, dq, head, wins, remaining, done, unknown, s, j, p);
      rank := rank[p := count];
      result := result[p := WIN];
      count := count + 1;
      dq := dq + [p];
      unknown := unknown - {p};
    } else if remaining[p] - 1 == 0 {
      // successor is WIN and it was the last move counted down => every move reaches a WIN vertex => predecessor is LOSS
      StepLoss(g, tO, tX, result, rank, count, dq, head, wins, remaining, done, unknown, s, j, p);
      remaining := remaining[p := 0];
      done := done + [p];
      rank := rank[p := count];
      result := result[p := LOSS];
      count := count + 1;
      dq := dq + [p];
      unknown := unknown - {p};
    } else {
      // successor is WIN => count down
      StepDown(g, tO, tX, result, rank, count, dq, head, wins, remaining, done, unknown, s, j, p);
      remaining := remaining[p := remaining[p] - 1];
      done := done + [p];
    }
  }

  /**
   * One round of the work-queue loop: the vertex `s`, just taken from the
   * front of the queue, tells each of its predecessors about its label.
   */
  method Relax(g: Graph, tO: nat, tX: nat, s: nat, result0: seq<int>, remaining0: seq<int>, dq0: seq<nat>,
               ghost rank0: seq<nat>, ghost count0: nat, ghost head: nat, ghost wins: set<nat>, ghost unknown0: set<nat>)
    returns (result: seq<int>, remaining: seq<int>, dq: seq<nat>, ghost rank: seq<nat>, ghost count: nat, ghost unknown: set<nat>)
    requires s < |g.succ| && s < |result0|
    requires Books(g, tO, tX, result0, rank0, count0, dq0, head + 1, head, wins, remaining0, [], unknown0)
    requires result0[s] != UNKNOWN && rank0[s] == head
    ensures s < |result|
    ensures Books(g, tO, tX, result, rank, count, dq, head + 1, head, wins, remaining,
                  if result[s] == WIN then g.pred[s] else [], unknown)
    ensures Spread(g, result, rank, head + 1)
    ensures result[s] == result0[s] && rank[s] == head
    ensures |unknown| + count == |unknown0| + count0
    ensures Kept(result0, result) && Lowered(remaining0, remaining)
  {
    result, remaining, dq, rank, count, unknown := result0, remaining0, dq0, rank0, count0, unknown0;
    var rs := result[s];
    ghost var done: seq<nat> := [];
    RoundStart(g, tO, tX, result, rank, count, dq, head, wins, remaining, unknown, s);
    var j := 0;
    while j < |g.pred[s]|
      invariant 0 <= j <= |g.pred[s]|
      invariant Books(g, tO, tX, result, rank, count, dq, head + 1, head, wins, remaining, done, unknown)
      invariant Round(g, s, rs, j, result, rank, head, done)
      invariant |unknown| + count == |unknown0| + count0
      invariant Kept(result0, result) && Lowered(remaining0, remaining)
      decreases |g.pred[s]| - j
    {
      ghost var result1, remaining1 := result, remaining;
      result, remaining, dq, rank, count, done, unknown :=
        Visit(g, tO, tX, s, rs, j, result, remaining, dq, rank, count, head, wins, done, unknown);
      KeptLoweredTrans(result0, result1, result, remaining0, remaining1, remaining);
      j := j + 1;
    }
    RoundEnd(g, tO, tX, result, rank, count, dq, head, wins, remaining, done, unknown, s, rs);
  }

  lemma RoundStart(g: Graph, tO: nat, tX: nat, result: seq<int>, rank: seq<nat>, count: nat, dq: seq<nat>,
                   head: nat, wins: set<nat>, remaining: seq<int>, unknown: set<nat>, s: nat)
    requires s < |g.succ| && s < |result|
    requires Books(g, tO, tX, result, rank, count, dq, head + 1, head, wins, remaining, [], unknown)
    requires result[s] != UNKNOWN && rank[s] == head
    ensures Round(g, s, result[s], 0, result, rank, head, [])
  {
    assert g.pred[s][..0] == [];
  }

  lemma RoundEnd(g: Graph, tO: nat, tX: nat, result: seq<int>, rank: seq<nat>, count: nat, dq: seq<nat>,
                 head: nat, wins: set<nat>, remaining: seq<int>, done: seq<nat>, unknown: set<nat>, s: nat, rs: int)
    requires WellFormed(g) && s < |g.pred|
    requires Books(g, tO, tX, result, rank, count, dq, head + 1, head, wins, remaining, done, unknown)
    requires Round(g, s, rs, |g.pred[s]|, result, rank, head, done)
    ensures s < |result| && result[s] == rs && rank[s] == head
    ensures Books(g, tO, tX, result, rank, count, dq, head + 1, head, wins, remaining,
                  if result[s] == WIN then g.pred[s] else [], unknown)
    ensures Spread(g, result, rank, head + 1)
  {
    assert g.pred[s][..|g.pred[s]|] == g.pred[s];
    SpreadStep(g, tO, tX, result, rank, count, head, s);
  }

  /** Moving past the front vertex: its moves become part of the counts, and it joins `wins` if it is a WIN vertex. */
  lemma StepHead(g: Graph, tO: nat, tX: nat, result: seq<int>, rank: seq<nat>, count: nat, dq: seq<nat>,
                 head: nat, wins: set<nat>, remaining: seq<int>, unknown: set<nat>, s: nat)
    requires WellFormed(g) && s < |g.succ| && s < |result|
    requires Books(g, tO, tX, result, rank, count, dq, head + 1, head, wins, remaining,
                   if result[s] == WIN then g.pred[s] else [], unknown)
    requires Spread(g, result, rank, head + 1)
    requires result[s] != UNKNOWN && rank[s] == head
    ensures Books(g, tO, tX, result, rank, count, dq, head + 1, head + 1,
                  if result[s] == WIN then wins + {s} else wins, remaining, [], unknown)
  {
    WinsStep(g, tO, tX, result, rank, count, wins, head, s);
    if result[s] == WIN {
      CountedStep(g, result, remaining, wins, s);
    }
  }

  /** The work-queue part of the outcome pass: everything it resolves, it resolves soundly. */
  method Propagate(g: Graph, tO: nat, tX: nat) returns (result: seq<int>, ghost rank: seq<nat>)
    requires WellFormed(g) && tO < |g.succ| && tX < |g.succ| && tO != tX
    ensures Settled(g, tO, tX, result, rank)
  {
    var n := |g.succ|;
    result := seq(n, _ => UNKNOWN)[tO := LOSS][tX := LOSS];
    var remaining := seq(n, v requires 0 <= v < n => |g.succ[v]|);
    var dq := [tO, tX];
    ghost var count := 2;
    ghost var head := 0;
    ghost var wins: set<nat> := {};
    ghost var unknown: set<nat> := set v: nat | v < n && result[v] == UNKNOWN;
    rank := seq(n, _ => 0)[tO := 0][tX := 1];
    Start(g, tO, tX, result, remaining, rank, unknown);

    ghost var result0, remaining0 := result, remaining;
    while |dq| > 0
      invariant Books(g, tO, tX, result, rank, count, dq, head, head, wins, remaining, [], unknown)
      invariant Kept(result0, result) && Lowered(remaining0, remaining)
      decreases |unknown| + |dq|
    {
      var s := dq[0];
      ghost var rs := result[s];
      ghost var result1, remaining1 := result, remaining;
      result, remaining, dq, rank, count, unknown := Relax(g, tO, tX, s, result, remaining, dq[1..], rank, count, head, wins, unknown);
      KeptLoweredTrans(result0, result1, result, remaining0, remaining1, remaining);
      StepHead(g, tO, tX, result, rank, count, dq, head, wins, remaining, unknown, s);
      if rs == WIN {
        wins := wins + {s};
      }
      head := head + 1;
    }
    Drained(g, tO, tX, result, rank, count, remaining, wins);
  }

  /** The bookkeeping holds when only the sentinels are decided. */
  lemma Start(g: Graph, tO: nat, tX: nat, result: seq<int>, remaining: seq<int>, rank: seq<nat>, unknown: set<nat>)
    requires WellFormed(g) && tO < |g.succ| && tX < |g.succ| && tO != tX
    requires result == seq(|g.succ|, _ => UNKNOWN)[tO := LOSS][tX := LOSS]
    requires remaining == seq(|g.succ|, v requires 0 <= v < |g.succ| => |g.succ[v]|)
    requires rank == seq(|g.succ|, _ => 0)[tO := 0][tX := 1]
    requires unknown == set v: nat | v < |g.succ| && result[v] == UNKNOWN
    ensures Books(g, tO, tX, result, rank, 2, [tO, tX], 0, 0, {}, remaining, [], unknown)
  {
    forall p | 0 <= p < |g.succ| ensures CountIn(g.succ[p], {}) == 0 {
      CountNone(g.succ[p], {});
    }
    var none: seq<nat> := [];
    assert multiset(none) == multiset{};
  }
}
