/**
 * The solver object. Its constructor numbers every position reachable from
 * the two openings, labels each one WIN, DRAW or LOSS for the player to move,
 * and computes how many plies remain under the solver's own policy; its
 * queries read those tables back and rank the moves of a position.
 */
module Solving {
  import opened Wrappers
  import opened Rules
  import opened Graphs
  import opened Outcomes
  import opened Distances
  import opened Builder

  /** The ply count given to a move that throws a win away; larger than any real distance. */
  const FALLBACK: int := 1000000000

  /** A move's sort key: a priority, then a ply count; smaller sorts first. */
  datatype Key = Key(priority: int, plies: int)

  /** Lexicographic order on keys. */
  predicate KeyLess(a: Key, b: Key) {
    a.priority < b.priority || (a.priority == b.priority && a.plies < b.plies)
  }

  /** Negative, zero or positive as `a` sorts before, with or after `b`. */
  function CompareKeys(a: Key, b: Key): (r: int)
    ensures r < 0 <==> KeyLess(a, b)
    ensures r > 0 <==> KeyLess(b, a)
    ensures r == 0 <==> a == b
  {
    if a.priority != b.priority then a.priority - b.priority else a.plies - b.plies
  }

  /**
   * The key of a move that leads to `t` from a position labelled `r`; `rt`
   * and `dt` are what the tables hold for `t` (`None` when `t` has no entry,
   * `Some(None)` for the distance of a draw). A move that ends the game
   * sorts as a one-ply finish; otherwise a move that keeps the value of the
   * position (to a losing position from a won one, to a winning one from a
   * lost one, to a drawn one from anything else) has priority 0, ordered by
   * the quickest win or the slowest loss, and every other move priority 1.
   */
  function MoveKey(r: Option<int>, t: State, rt: Option<int>, dt: Option<Option<nat>>): (k: Key)
    ensures k.priority == 0 || k.priority == 1
    ensures t == TermO || t == TermX ==> k == Key(0, 1)
    ensures k.priority == 0 && t != TermO && t != TermX ==>
      (r == Some(WIN) ==> rt == Some(LOSS) && dt.Some? && dt.value.Some? && k.plies == 1 + dt.value.value) &&
      (r == Some(LOSS) ==> rt == Some(WIN) && dt.Some? && dt.value.Some? && k.plies == -(1 + dt.value.value)) &&
      (r != Some(WIN) && r != Some(LOSS) ==> rt == Some(DRAW) && k.plies == 0)
  {
    if t == TermO || t == TermX then Key(0, 1)
    else if r == Some(WIN) then
      if rt == Some(LOSS) && dt.Some? && dt.value.Some? then Key(0, 1 + dt.value.value) else Key(1, FALLBACK)
    else if r == Some(LOSS) then
      if rt == Some(WIN) && dt.Some? && dt.value.Some? then Key(0, -(1 + dt.value.value)) else Key(1, 0)
    else if rt == Some(DRAW) then Key(0, 0)
    else Key(1, 0)
  }

  /** The entries of `ms` whose key in `ks` is `key`, in order. */
  function Ties(ms: seq<int>, ks: seq<Key>, key: Key): (r: seq<int>)
    requires |ms| == |ks|
    ensures forall m :: m in r <==> exists k :: 0 <= k < |ms| && ms[k] == m && ks[k] == key
  {
    if |ms| == 0 then []
    else
      var n := |ms| - 1;
      var r0 := Ties(ms[..n], ks[..n], key);
      assert forall k :: 0 <= k < n ==> ms[..n][k] == ms[k] && ks[..n][k] == ks[k];
      r0 + if ks[n] == key then [ms[n]] else []
  }

  /** Strictly increasing. */
  predicate Increasing(ms: seq<int>) {
    forall i, j :: 0 <= i < j < |ms| ==> ms[i] < ms[j]
  }

  /** The ties of an increasing sequence are increasing. */
  lemma {:induction false} TiesSorted(ms: seq<int>, ks: seq<Key>, key: Key)
    requires |ms| == |ks| && Increasing(ms)
    ensures Increasing(Ties(ms, ks, key))
  {
    if |ms| > 0 {
      var n := |ms| - 1;
      TiesSorted(ms[..n], ks[..n], key);
      var r0 := Ties(ms[..n], ks[..n], key);
      forall k | 0 <= k < |r0| ensures r0[k] < ms[n] {
        assert r0[k] in r0;
        var p :| 0 <= p < n && ms[..n][p] == r0[k];
        assert ms[p] == r0[k];
      }
      var r := Ties(ms, ks, key);
      var tail := if ks[n] == key then [ms[n]] else [];
      assert r == r0 + tail;
      forall i, j | 0 <= i < j < |r| ensures r[i] < r[j] {
        assert r[i] == r0[i];
        if j < |r0| {
          assert r[j] == r0[j];
          assert r0[i] < r0[j];
        } else {
          assert r[j] == ms[n];
          assert r0[i] < ms[n];
        }
      }
    }
  }

  /** No entry has key `key`, so nothing ties with it. */
  lemma NoTies(ms: seq<int>, ks: seq<Key>, key: Key)
    requires |ms| == |ks| && forall k :: 0 <= k < |ks| ==> ks[k] != key
    ensures Ties(ms, ks, key) == []
  {
  }

  /**
   * The index of the first least key: scanning in order, a key replaces the
   * best so far only when it compares strictly smaller.
   */
  method FirstLeast(ks: seq<Key>) returns (b: nat)
    requires |ks| > 0
    ensures b < |ks|
    ensures forall j :: 0 <= j < |ks| ==> !KeyLess(ks[j], ks[b])
    ensures forall j :: 0 <= j < b ==> KeyLess(ks[b], ks[j])
  {
    var bestKey := ks[0];
    b := 0;
    var i := 1;
    while i < |ks|
      invariant 0 <= b < i <= |ks| && bestKey == ks[b]
      invariant forall j :: 0 <= j < i ==> !KeyLess(ks[j], bestKey)
      invariant forall j :: 0 <= j < b ==> KeyLess(bestKey, ks[j])
    {
      var key := ks[i];
      if CompareKeys(key, bestKey) < 0 {
        bestKey := key;
        b := i;
      }
      i := i + 1;
    }
  }

  /**
   * The entries of `ms` whose key is least, in order: a strictly smaller key
   * restarts the list, an equal one is appended.
   */
  method AllLeast(ms: seq<int>, ks: seq<Key>) returns (best: seq<int>, bestKey: Key, ghost w: nat)
    requires |ms| == |ks| > 0
    ensures w < |ks| && ks[w] == bestKey
    ensures forall j :: 0 <= j < |ks| ==> !KeyLess(ks[j], bestKey)
    ensures best == Ties(ms, ks, bestKey) && ms[w] in best
  {
    best := [ms[0]];
    bestKey := ks[0];
    w := 0;
    var i := 1;
    assert ms[..1] == [ms[0]] && ks[..1] == [ks[0]];
    assert Ties(ms[..1], ks[..1], bestKey) == Ties([], [], bestKey) + [ms[0]] by {
      assert ms[..1][..0] == [] && ks[..1][..0] == [];
    }
    while i < |ms|
      invariant 0 <= w < i <= |ms| && ks[w] == bestKey
      invariant forall j :: 0 <= j < i ==> !KeyLess(ks[j], bestKey)
      invariant best == Ties(ms[..i], ks[..i], bestKey)
    {
      var key := ks[i];
      assert ms[..i + 1][..i] == ms[..i] && ks[..i + 1][..i] == ks[..i];
      if CompareKeys(key, bestKey) < 0 {
        NoTies(ms[..i], ks[..i], key);
        bestKey := key;
        best := [ms[i]];
        w := i;
      } else if CompareKeys(key, bestKey) == 0 {
        best := best + [ms[i]];
      }
      i := i + 1;
    }
    assert ms[..i] == ms && ks[..i] == ks;
  }

  /** The outcome table's entry for `s`; `None` when it has none. */
  function Label(index: map<State, nat>, result: seq<int>, s: State): Option<int> {
    if s in index && index[s] < |result| then Some(result[index[s]]) else None
  }

  /** The distance table's entry for `s`; `None` when it has none. */
  function Plies(index: map<State, nat>, dist: seq<Option<nat>>, s: State): Option<Option<nat>> {
    if s in index && index[s] < |dist| then Some(dist[index[s]]) else None
  }

  /** The key of the legal move `m` of `s`, read from the tables. */
  function KeyIn(index: map<State, nat>, result: seq<int>, dist: seq<Option<nat>>, s: State, m: int): Key
    requires s.o.Cells? && s.x.Cells? && m in Moves(s)
  {
    LegalMovesSucceed(s, m);
    var t := ApplyMove(s, m).value;
    MoveKey(Label(index, result, s), t, Label(index, result, t), Plies(index, dist, t))
  }

  /** The keys of the legal moves `ms` of `s`, in order. */
  function KeysIn(index: map<State, nat>, result: seq<int>, dist: seq<Option<nat>>, s: State, ms: seq<int>): (r: seq<Key>)
    requires s.o.Cells? && s.x.Cells? && forall k :: 0 <= k < |ms| ==> ms[k] in Moves(s)
    ensures |r| == |ms| && forall k :: 0 <= k < |ms| ==> r[k] == KeyIn(index, result, dist, s, ms[k])
  {
    seq(|ms|, k requires 0 <= k < |ms| => KeyIn(index, result, dist, s, ms[k]))
  }

  /** `m` is a legal move of `s` and no legal move of `s` has a smaller key. */
  ghost predicate IsBest(index: map<State, nat>, result: seq<int>, dist: seq<Option<nat>>, s: State, m: int)
    requires s.o.Cells? && s.x.Cells?
  {
    m in Moves(s) && forall m' :: m' in Moves(s) ==> !KeyLess(KeyIn(index, result, dist, s, m'), KeyIn(index, result, dist, s, m))
  }

  /**
   * A least key among the keys of all the moves belongs to a best move, and
   * the best moves are exactly the moves with that key.
   */
  lemma LeastIsBest(index: map<State, nat>, result: seq<int>, dist: seq<Option<nat>>, s: State, ks: seq<Key>, b: nat)
    requires s.o.Cells? && s.x.Cells? && ks == KeysIn(index, result, dist, s, Moves(s))
    requires b < |ks| && forall j :: 0 <= j < |ks| ==> !KeyLess(ks[j], ks[b])
    ensures IsBest(index, result, dist, s, Moves(s)[b])
    ensures forall m :: IsBest(index, result, dist, s, m) <==> m in Moves(s) && KeyIn(index, result, dist, s, m) == ks[b]
  {
    var moves := Moves(s);
    forall m | m in moves ensures !KeyLess(KeyIn(index, result, dist, s, m), ks[b]) {
      var j :| 0 <= j < |moves| && moves[j] == m;
    }
    forall m | IsBest(index, result, dist, s, m) ensures KeyIn(index, result, dist, s, m) == ks[b] {
      assert !KeyLess(ks[b], KeyIn(index, result, dist, s, m));
    }
  }

  /** In a strictly ascending sequence a smaller element sits at a smaller index. */
  lemma AscendingIndex(r: seq<int>, i: nat, j: nat)
    requires forall p, q :: 0 <= p < q < |r| ==> r[p] < r[q]
    requires i < |r| && j < |r| && r[i] < r[j]
    ensures i < j
  {
  }

  /** The first least key belongs to the lowest-numbered best move. */
  lemma FirstLeastIsFirstBest(index: map<State, nat>, result: seq<int>, dist: seq<Option<nat>>, s: State, ks: seq<Key>, b: nat)
    requires s.o.Cells? && s.x.Cells? && ks == KeysIn(index, result, dist, s, Moves(s))
    requires b < |ks| && forall j :: 0 <= j < |ks| ==> !KeyLess(ks[j], ks[b])
    requires forall j :: 0 <= j < b ==> KeyLess(ks[b], ks[j])
    ensures IsBest(index, result, dist, s, Moves(s)[b])
    ensures forall m :: m in Moves(s) && m < Moves(s)[b] ==> !IsBest(index, result, dist, s, m)
  {
    var moves := Moves(s);
    LeastIsBest(index, result, dist, s, ks, b);
    forall m | m in moves && m < moves[b] ensures !IsBest(index, result, dist, s, m) {
      var j :| 0 <= j < |moves| && moves[j] == m;
      AscendingIndex(moves, j, b);
      assert KeyLess(ks[b], ks[j]);
    }
  }

  /**
   * The solver's tables: the arena of every reachable position, numbered from
   * the sentinels and the openings, with one edge per legal move; a
   * retrograde labelling of it; and the distances at their fixed point.
   */
  ghost predicate Solved(states: seq<State>, index: map<State, nat>, g: Graph, result: seq<int>, dist: seq<Option<nat>>, rank: seq<nat>) {
    4 <= |states| == |g.succ| &&
    states[0] == TermO && states[1] == TermX && states[2] == StartO && states[3] == StartX &&
    Arena(states, index) && WellFormed(g) &&
    (forall i :: 0 <= i < |states| ==> ValidState(states[i])) &&
    (forall i :: 0 <= i < |states| ==> Complete(states, g.succ, i)) &&
    Retrograde(g, 0, 1, result, rank) &&
    |dist| == |states| && dist[0] == Some(0) && dist[1] == Some(0) &&
    (forall v :: 0 <= v < |dist| ==> (dist[v].None? <==> result[v] == DRAW)) &&
    (forall v {:trigger Live(g, 0, 1, result, v)} :: Live(g, 0, 1, result, v) ==> dist[v] == CandidateOf(g, result, dist, v))
  }

  /** The numbered positions are exactly the sentinels and the positions reachable from an opening. */
  ghost predicate ReachableDomain(index: map<State, nat>) {
    forall s :: s in index <==> s == TermO || s == TermX || Reachable(s)
  }

  class Solver {
    var states: seq<State>
    var index: map<State, nat>
    var graph: Graph
    var result: seq<int>
    var dist: seq<Option<nat>>
    ghost var rank: seq<nat>

    /** The tables are a solved arena whose positions are exactly the sentinels and the reachable positions. */
    ghost predicate Valid()
      reads this
    {
      Solved(states, index, graph, result, dist, rank) && ReachableDomain(index)
    }

    constructor()
      ensures Valid()
      ensures forall s :: s in index <==> s == TermO || s == TermX || Reachable(s)
    {
      var st, ix, g := BuildGraph();
      var res;
      ghost var rk;
      res, rk := SolveOutcomes(g, 0, 1);
      var d := SolveDistances(g, 0, 1, res, rk);
      states, index, graph, result, dist, rank := st, ix, g, res, d, rk;
    }

    /** The label of a position, `None` for a position the search never reached. */
    function Evaluate(s: State): (r: Option<int>)
      reads this
      requires Valid()
      ensures r.Some? <==> s in index
      ensures r.Some? <==> s == TermO || s == TermX || Reachable(s)
      ensures r.Some? ==> r.value == LOSS || r.value == DRAW || r.value == WIN
      ensures s == TermO || s == TermX ==> r == Some(LOSS)
      ensures s == StartO || s == StartX ==> r.Some?
    {
      assert Lookup(states, index, s);
      Label(index, result, s)
    }

    /** The plies left from a position: `Some(None)` for a draw, `None` for a position the search never reached. */
    function DistanceToEnd(s: State): (r: Option<Option<nat>>)
      reads this
      requires Valid()
      ensures r.Some? <==> s in index
      ensures r.Some? <==> s == TermO || s == TermX || Reachable(s)
      ensures r.Some? ==> (r.value.None? <==> Evaluate(s) == Some(DRAW))
      ensures s == TermO || s == TermX ==> r == Some(Some(0))
    {
      assert Lookup(states, index, s);
      Plies(index, dist, s)
    }

    /**
     * The move to play: the quickest win, the slowest loss, or a move that
     * keeps a draw; among equal keys the lowest cell. `None` for a terminal
     * position or one without moves.
     */
    method BestMove(s: State) returns (mv: Option<int>)
      requires Valid() && (s.o.Cells? ==> s.x.Cells?)
      ensures mv.None? <==> s.o.Null? || |Moves(s)| == 0
      ensures mv.Some? ==> IsBest(index, result, dist, s, mv.value)
      ensures mv.Some? ==> forall m :: m in Moves(s) && m < mv.value ==> !IsBest(index, result, dist, s, m)
    {
      if s.o.Null? {
        return None;
      }
      var moves := Moves(s);
      if |moves| == 0 {
        return None;
      }
      var ks := KeysIn(index, result, dist, s, moves);
      var b := FirstLeast(ks);
      mv := Some(moves[b]);
      FirstLeastIsFirstBest(index, result, dist, s, ks, b);
    }

    /** Every move of minimal key, in increasing order; empty for a terminal position or one without moves. */
    method GetBestMoves(s: State) returns (best: seq<int>)
      requires Valid() && (s.o.Cells? ==> s.x.Cells?)
      ensures |best| == 0 <==> s.o.Null? || |Moves(s)| == 0
      ensures s.o.Cells? ==> forall m :: m in best <==> IsBest(index, result, dist, s, m)
      ensures Increasing(best)
    {
      if s.o.Null? {
        return [];
      }
      var moves := Moves(s);
      if |moves| == 0 {
        return [];
      }
      var ks := KeysIn(index, result, dist, s, moves);
      var bestKey;
      ghost var w;
      best, bestKey, w := AllLeast(moves, ks);
      LeastIsBest(index, result, dist, s, ks, w);
      TiesSorted(moves, ks, bestKey);
    }
  }
}
