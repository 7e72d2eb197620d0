/**
 * The breadth-first construction of the state graph from the two empty-board
 * openings. Positions are numbered in the order they are found, the two
 * sentinels first; `index` maps a position back to its number, as the
 * solver's tables map a position's key to its entry.
 */
module Builder {
  import opened Wrappers
  import opened Rules
  import opened Graphs

  /** `index` is the inverse of the numbering `states`. */
  ghost predicate Arena(states: seq<State>, index: map<State, nat>) {
    (forall i :: 0 <= i < |states| ==> states[i] in index && index[states[i]] == i) &&
    (forall s {:trigger Lookup(states, index, s)} :: Lookup(states, index, s))
  }

  /** A position with a number is the position under that number. */
  ghost predicate Lookup(states: seq<State>, index: map<State, nat>, s: State) {
    s in index ==> index[s] < |states| && states[index[s]] == s
  }

  /** The moves of a live position in the order the builder tries them. */
  function Moves(s: State): seq<int>
    requires s.o.Cells? && s.x.Cells?
  {
    LegalMoves(s.o.cells, s.x.cells)
  }

  /** `t` follows `s` by a mark on one of the nine cells. */
  ghost predicate Step(s: State, t: State) {
    exists m :: 0 <= m < 9 && ApplyMove(s, m) == Success(t)
  }

  /** `p` starts in `first`, and each of its positions follows the one before it by `step`. */
  ghost predicate Chain<S>(p: seq<S>, first: set<S>, step: (S, S) -> bool)
    decreases |p|
  {
    if |p| <= 1 then |p| == 1 && p[0] in first
    else Chain(p[..|p| - 1], first, step) && step(p[|p| - 2], p[|p| - 1])
  }

  /** A chain followed by one more step is a chain. */
  lemma ChainExtend<S>(p: seq<S>, first: set<S>, step: (S, S) -> bool, t: S)
    requires |p| >= 1 && Chain(p, first, step) && step(p[|p| - 1], t)
    ensures Chain(p + [t], first, step)
  {
    var p' := p + [t];
    assert p'[..|p'| - 1] == p;
    assert p'[|p'| - 2] == p[|p| - 1];
  }

  /** A set that holds the starts and is closed under `step` holds the end of every chain. */
  lemma {:induction false} ChainStaysIn<S>(p: seq<S>, first: set<S>, step: (S, S) -> bool, closed: set<S>)
    requires first <= closed && forall u, v :: u in closed && step(u, v) ==> v in closed
    requires |p| >= 1 && Chain(p, first, step)
    ensures p[|p| - 1] in closed
    decreases |p|
  {
    if |p| > 1 {
      var p0 := p[..|p| - 1];
      ChainStaysIn(p0, first, step, closed);
      assert p0[|p0| - 1] == p[|p| - 2];
    }
  }

  /** A run of legal moves from one of the two openings. */
  ghost predicate Run(p: seq<State>) {
    Chain(p, {StartO, StartX}, Step)
  }

  /** A position some run of legal moves from an opening ends in. */
  ghost predicate Reachable(s: State) {
    exists p :: |p| >= 1 && Run(p) && p[|p| - 1] == s
  }

  /** Every position numbered after the sentinels is reachable. */
  ghost predicate Found(states: seq<State>) {
    forall i :: 2 <= i < |states| ==> Reachable(states[i])
  }

  /** Numbering, if anything, one position a numbered live position steps to keeps every numbered position reachable. */
  lemma FoundGrows(states0: seq<State>, states: seq<State>, head: nat, k: nat)
    requires Found(states0) && 2 <= head < |states0| <= |states| <= |states0| + 1 && states0 == states[..|states0|]
    requires states0[head].o.Cells? && states0[head].x.Cells? && k < |Moves(states0[head])|
    requires |states| == |states0| + 1 ==> ApplyMove(states0[head], Moves(states0[head])[k]) == Success(states[|states0|])
    ensures Found(states)
  {
    forall i | 2 <= i < |states| ensures Reachable(states[i]) {
      if i < |states0| {
        assert states[i] == states0[i];
        assert Reachable(states0[i]);
      } else {
        assert i == |states0| && Reachable(states0[head]);
        assert Moves(states0[head])[k] in Moves(states0[head]);
        assert Step(states0[head], states[|states0|]);
        ReachStep(states0[head], states[|states0|]);
      }
    }
  }

  /** One more legal move from a reachable position reaches the position it leads to. */
  lemma ReachStep(s: State, t: State)
    requires Reachable(s) && Step(s, t)
    ensures Reachable(t)
  {
    var p :| |p| >= 1 && Run(p) && p[|p| - 1] == s;
    ChainExtend(p, {StartO, StartX}, Step, t);
    assert (p + [t])[|p|] == t;
  }

  /**
   * In a numbering that records every legal move of every live position it
   * holds, a position that follows a numbered one by a legal move is numbered.
   */
  lemma NumberingClosed(states: seq<State>, index: map<State, nat>, succ: seq<seq<nat>>)
    requires |states| == |succ| && Arena(states, index) && CompleteBelow(states, succ, |states|)
    ensures forall u, v :: u in index && Step(u, v) ==> v in index
  {
    forall u, v | u in index && Step(u, v) ensures v in index {
      assert Lookup(states, index, u);
      var i := index[u];
      var m :| 0 <= m < 9 && ApplyMove(u, m) == Success(v);
      LegalMovesSucceed(u, m);
      var j :| 0 <= j < |Moves(u)| && Moves(u)[j] == m;
      assert Complete(states, succ, i);
      assert states[succ[i][j]] == v;
    }
  }

  /** The first `k` moves of the live position numbered `i` are recorded, in order, as edges to the positions they lead to. */
  ghost predicate Partial(states: seq<State>, succ: seq<seq<nat>>, i: nat, k: nat)
    requires i < |states| && i < |succ|
  {
    |succ[i]| == k &&
    (k > 0 ==> states[i].o.Cells? && states[i].x.Cells? && k <= |Moves(states[i])|) &&
    forall j :: 0 <= j < k ==>
      succ[i][j] < |states| && states[i].o.Cells? && states[i].x.Cells? && j < |Moves(states[i])| &&
      ApplyMove(states[i], Moves(states[i])[j]) == Success(states[succ[i][j]])
  }

  /** A sentinel has no moves; a live position has one edge per legal move, in the order of the moves. */
  ghost predicate Complete(states: seq<State>, succ: seq<seq<nat>>, i: nat)
    requires i < |states| && i < |succ|
  {
    if states[i].o.Null? || states[i].x.Null? then succ[i] == []
    else Partial(states, succ, i, |Moves(states[i])|)
  }

  /** The sentinels and the openings are numbered first, and the tables have one entry per position. */
  ghost predicate Numbered(states: seq<State>, succ: seq<seq<nat>>, pred: seq<seq<nat>>, head: nat) {
    4 <= |states| && states[0] == TermO && states[1] == TermX && states[2] == StartO && states[3] == StartX &&
    |succ| == |states| && |pred| == |states| && head <= |states|
  }

  ghost predicate AllValid(states: seq<State>) {
    forall i {:trigger ValidState(states[i])} :: 0 <= i < |states| ==> ValidState(states[i])
  }

  ghost predicate CompleteBelow(states: seq<State>, succ: seq<seq<nat>>, head: nat)
    requires head <= |states| == |succ|
  {
    forall i :: 0 <= i < head ==> Complete(states, succ, i)
  }

  ghost predicate EmptyAbove(succ: seq<seq<nat>>, head: nat) {
    forall i :: head < i < |succ| ==> succ[i] == []
  }

  /**
   * The builder's invariant: the numbering starts with the sentinels and the
   * openings, holds only well-formed positions, and the graph is well formed;
   * the positions before `head` are expanded, the one at `head` has its first
   * `k` moves recorded, and those after it none.
   */
  ghost predicate Built(states: seq<State>, index: map<State, nat>, succ: seq<seq<nat>>, pred: seq<seq<nat>>, head: nat, k: nat) {
    Numbered(states, succ, pred, head) &&
    Arena(states, index) &&
    AllValid(states) &&
    WellFormed(Graph(succ, pred)) &&
    CompleteBelow(states, succ, head) &&
    EmptyAbove(succ, head) &&
    (head < |states| ==> Partial(states, succ, head, k))
  }

  /** A newly found position gets the next number, with no moves recorded yet. */
  lemma NewVertex(states: seq<State>, index: map<State, nat>, succ: seq<seq<nat>>, pred: seq<seq<nat>>, head: nat, k: nat, t: State)
    requires Built(states, index, succ, pred, head, k) && head < |states|
    requires t !in index && ValidState(t)
    ensures Built(states + [t], index[t := |states|], succ + [[]], pred + [[]], head, k)
  {
    AddVertex(Graph(succ, pred));
    var states' := states + [t];
    forall s: State {:trigger Lookup(states', index[t := |states|], s)} ensures Lookup(states', index[t := |states|], s) {
      assert Lookup(states, index, s);
    }
    assert Partial(states', succ + [[]], head, k);
    forall i | 0 <= i < head ensures Complete(states', succ + [[]], i) {
      assert Complete(states, succ, i);
    }
  }

  /**
   * Recording the edge of the `k`-th move of the position at `head`. Each
   * part of the invariant is re-established by a lemma of its own.
   */
  lemma NewEdge(states: seq<State>, index: map<State, nat>, succ: seq<seq<nat>>, pred: seq<seq<nat>>, head: nat, k: nat, ti: nat)
    requires Built(states, index, succ, pred, head, k) && head < |states| && ti < |states|
    requires states[head].o.Cells? && states[head].x.Cells? && k < |Moves(states[head])|
    requires ApplyMove(states[head], Moves(states[head])[k]) == Success(states[ti])
    ensures Built(states, index, succ[head := succ[head] + [ti]], pred[ti := pred[ti] + [head]], head, k + 1)
  {
    EdgeKeepsWellFormed(states, index, succ, pred, head, k, ti);
    EdgeKeepsComplete(states, index, succ, pred, head, k, ti);
    EdgeExtends(states, index, succ, pred, head, k, ti);
    EdgeKeepsEmpty(states, index, succ, pred, head, k, ti);
  }

  lemma EdgeKeepsWellFormed(states: seq<State>, index: map<State, nat>, succ: seq<seq<nat>>, pred: seq<seq<nat>>, head: nat, k: nat, ti: nat)
    requires Built(states, index, succ, pred, head, k) && head < |states| && ti < |states|
    requires states[head].o.Cells? && states[head].x.Cells? && k < |Moves(states[head])|
    requires ApplyMove(states[head], Moves(states[head])[k]) == Success(states[ti])
    ensures Numbered(states, succ[head := succ[head] + [ti]], pred[ti := pred[ti] + [head]], head)
    ensures WellFormed(Graph(succ[head := succ[head] + [ti]], pred[ti := pred[ti] + [head]]))
  {
    AddEdge(Graph(succ, pred), head, ti);
  }

  /** Changing only the moves of `head` leaves the positions before it complete. */
  lemma EdgeKeepsComplete(states: seq<State>, index: map<State, nat>, succ: seq<seq<nat>>, pred: seq<seq<nat>>, head: nat, k: nat, ti: nat)
    requires Built(states, index, succ, pred, head, k) && head < |states| && ti < |states|
    requires states[head].o.Cells? && states[head].x.Cells? && k < |Moves(states[head])|
    requires ApplyMove(states[head], Moves(states[head])[k]) == Success(states[ti])
    ensures CompleteBelow(states, succ[head := succ[head] + [ti]], head)
  {
    var succ' := succ[head := succ[head] + [ti]];
    forall i | 0 <= i < head ensures Complete(states, succ', i) {
      assert Complete(states, succ, i);
      assert succ'[i] == succ[i];
    }
  }

  /** Changing only the moves of `head` leaves the positions after it unexpanded. */
  lemma EdgeKeepsEmpty(states: seq<State>, index: map<State, nat>, succ: seq<seq<nat>>, pred: seq<seq<nat>>, head: nat, k: nat, ti: nat)
    requires Built(states, index, succ, pred, head, k) && head < |states| && ti < |states|
    requires states[head].o.Cells? && states[head].x.Cells? && k < |Moves(states[head])|
    requires ApplyMove(states[head], Moves(states[head])[k]) == Success(states[ti])
    ensures EmptyAbove(succ[head := succ[head] + [ti]], head)
  {
  }

  /** Appending the edge of the `k`-th move to the first `k`. */
  lemma EdgeExtends(states: seq<State>, index: map<State, nat>, succ: seq<seq<nat>>, pred: seq<seq<nat>>, head: nat, k: nat, ti: nat)
    requires Built(states, index, succ, pred, head, k) && head < |states| && ti < |states|
    requires states[head].o.Cells? && states[head].x.Cells? && k < |Moves(states[head])|
    requires ApplyMove(states[head], Moves(states[head])[k]) == Success(states[ti])
    ensures Partial(states, succ[head := succ[head] + [ti]], head, k + 1)
  {
    Extend(states, succ, succ[head := succ[head] + [ti]], head, k, ti);
  }

  lemma Extend(states: seq<State>, succ: seq<seq<nat>>, succ': seq<seq<nat>>, head: nat, k: nat, ti: nat)
    requires |succ| == |states| == |succ'| && head < |states| && ti < |states| && Partial(states, succ, head, k)
    requires succ'[head] == succ[head] + [ti]
    requires states[head].o.Cells? && states[head].x.Cells? && k < |Moves(states[head])|
    requires ApplyMove(states[head], Moves(states[head])[k]) == Success(states[ti])
    ensures Partial(states, succ', head, k + 1)
  {
    var s := states[head];
    forall j | 0 <= j < k + 1
      ensures succ'[head][j] < |states| && j < |Moves(s)| && ApplyMove(s, Moves(s)[j]) == Success(states[succ'[head][j]])
    {
      if j < k {
        var t := succ[head][j];
        assert succ'[head][j] == t;
        assert t < |states| && ApplyMove(s, Moves(s)[j]) == Success(states[t]);
      } else {
        assert succ'[head][j] == ti;
      }
    }
  }

  /** Moving the head past a position whose moves are all recorded. */
  lemma Advance(states: seq<State>, index: map<State, nat>, succ: seq<seq<nat>>, pred: seq<seq<nat>>, head: nat, k: nat)
    requires Built(states, index, succ, pred, head, k) && head < |states|
    requires Complete(states, succ, head)
    ensures Built(states, index, succ, pred, head + 1, 0)
  {
  }

  /** A sentinel has nothing to expand. */
  lemma SkipSentinel(states: seq<State>, index: map<State, nat>, succ: seq<seq<nat>>, pred: seq<seq<nat>>, head: nat)
    requires Built(states, index, succ, pred, head, 0) && head < |states| && states[head].o.Null?
    ensures Built(states, index, succ, pred, head + 1, 0)
  {
    assert ValidState(states[head]);
  }

  /** Finding a new position takes one out of the finite universe of positions not yet found. */
  lemma Shrinks(states0: seq<State>, index0: map<State, nat>, states: seq<State>, index: map<State, nat>)
    requires Arena(states0, index0) && Arena(states, index)
    requires |states0| < |states| && states0 == states[..|states0|] && index0.Keys <= index.Keys
    requires forall i :: 0 <= i < |states| ==> ValidState(states[i])
    ensures |Universe() - index.Keys| < |Universe() - index0.Keys|
  {
    var t := states[|states0|];
    ValidInUniverse(t);
    forall s | s in index0 ensures s != t {
      assert Lookup(states0, index0, s);
      assert states[index0[s]] == s;
    }
    FewerLeft(Universe(), index0.Keys, index.Keys, t);
  }

  lemma SubsetCard<T>(a: set<T>, b: set<T>)
    requires a <= b
    ensures |a| <= |b|
  {
    assert b == a + (b - a);
    assert a * (b - a) == {};
  }

  lemma FewerLeft<T>(u: set<T>, k0: set<T>, k: set<T>, t: T)
    requires k0 <= k && t in u && t !in k0 && t in k
    ensures |u - k| < |u - k0|
  {
    var d0 := u - k0;
    assert u - k <= d0 - {t};
    SubsetCard(u - k, d0 - {t});
    assert d0 == (d0 - {t}) + {t};
    assert (d0 - {t}) * {t} == {};
  }

  lemma DropAppend<T>(xs: seq<T>, i: nat, t: T)
    requires i <= |xs|
    ensures (xs + [t])[i..] == xs[i..] + [t] && (xs + [t])[..|xs|] == xs
  {
  }

  /** Numbering and queueing a new position `t` reached by the `k`-th move of the position at `head`, then recording that edge. */
  lemma FollowNew(states: seq<State>, index: map<State, nat>, succ: seq<seq<nat>>, pred: seq<seq<nat>>,
                  head: nat, k: nat, t: State)
    requires Built(states, index, succ, pred, head, k) && head < |states|
    requires states[head].o.Cells? && states[head].x.Cells? && k < |Moves(states[head])|
    requires ApplyMove(states[head], Moves(states[head])[k]) == Success(t) && t !in index
    ensures var succ': seq<seq<nat>>, pred': seq<seq<nat>> := succ + [[]], pred + [[]];
            Built(states + [t], index[t := |states|], succ'[head := succ'[head] + [|states|]],
                  pred'[|states| := pred'[|states|] + [head]], head, k + 1)
  {
    var s := states[head];
    assert Moves(s)[k] in Moves(s) && ValidState(s);
    ApplyMoveKeepsValid(s, Moves(s)[k]);
    NewVertex(states, index, succ, pred, head, k, t);
    var states' := states + [t];
    assert states'[head] == s && states'[|states|] == t;
    NewEdge(states', index[t := |states|], succ + [[]], pred + [[]], head, k, |states|);
  }

  /** Recording the edge of the `k`-th move of the position at `head` to the position `t` that already has a number. */
  lemma FollowOld(states: seq<State>, index: map<State, nat>, succ: seq<seq<nat>>, pred: seq<seq<nat>>,
                  head: nat, k: nat, t: State)
    requires Built(states, index, succ, pred, head, k) && head < |states|
    requires states[head].o.Cells? && states[head].x.Cells? && k < |Moves(states[head])|
    requires ApplyMove(states[head], Moves(states[head])[k]) == Success(t) && (t in index || t == TermO || t == TermX)
    ensures t in index && index[t] < |states|
    ensures Built(states, index, succ[head := succ[head] + [index[t]]], pred[index[t] := pred[index[t]] + [head]], head, k + 1)
  {
    assert states[0] == TermO && states[1] == TermX;
    assert Lookup(states, index, t);
    NewEdge(states, index, succ, pred, head, k, index[t]);
  }

  /** Records the edge of the `k`-th move of `s`, numbering and queueing the position it leads to if that is new. */
  method Follow(states0: seq<State>, index0: map<State, nat>, succ0: seq<seq<nat>>, pred0: seq<seq<nat>>, q0: seq<State>,
                s: State, si: nat, k: nat, ghost head: nat)
    returns (states: seq<State>, index: map<State, nat>, succ: seq<seq<nat>>, pred: seq<seq<nat>>, q: seq<State>)
    requires Built(states0, index0, succ0, pred0, head, k) && head < |states0| && q0 == states0[head + 1..]
    requires states0[head] == s && si == head && s.o.Cells? && s.x.Cells? && k < |Moves(s)|
    ensures |states0| <= |states| <= |states0| + 1 && states0 == states[..|states0|] && index0.Keys <= index.Keys
    ensures Built(states, index, succ, pred, head, k + 1) && q == states[head + 1..]
    ensures |states| == |states0| + 1 ==> ApplyMove(s, Moves(s)[k]) == Success(states[|states0|])
  {
    var mv := Moves(s)[k];
    assert mv in Moves(s);
    LegalMovesSucceed(s, mv);
    var t := ApplyMove(s, mv).value;
    if t !in index0 && t != TermO && t != TermX {
      FollowNew(states0, index0, succ0, pred0, head, k, t);
      DropAppend(states0, head + 1, t);
      var ti := |states0|;
      states, index := states0 + [t], index0[t := ti];
      succ, pred := succ0 + [[]], pred0 + [[]];
      succ, pred := succ[si := succ[si] + [ti]], pred[ti := pred[ti] + [si]];
      q := q0 + [t];
      assert states[|states0|] == t;
    } else {
      FollowOld(states0, index0, succ0, pred0, head, k, t);
      var ti := index0[t];
      states, index, q := states0, index0, q0;
      succ, pred := succ0[si := succ0[si] + [ti]], pred0[ti := pred0[ti] + [si]];
    }
  }

  /** Expanding the position at `head`: one edge per legal move, and a number and a queue place for each position new so far. */
  method Expand(states0: seq<State>, index0: map<State, nat>, succ0: seq<seq<nat>>, pred0: seq<seq<nat>>, q0: seq<State>,
                s: State, ghost head: nat)
    returns (states: seq<State>, index: map<State, nat>, succ: seq<seq<nat>>, pred: seq<seq<nat>>, q: seq<State>)
    requires Built(states0, index0, succ0, pred0, head, 0) && head < |states0| && q0 == states0[head + 1..]
    requires states0[head] == s && s.o.Cells? && 2 <= head && Found(states0)
    ensures Built(states, index, succ, pred, head + 1, 0) && q == states[head + 1..] && Found(states)
    ensures |states0| <= |states| && states0 == states[..|states0|] && index0.Keys <= index.Keys
  {
    states, index, succ, pred, q := states0, index0, succ0, pred0, q0;
    assert ValidState(s);
    var si := index[s];
    var moves := Moves(s);
    var k := 0;
    while k < |moves|
      invariant |states0| <= |states| && states0 == states[..|states0|] && index0.Keys <= index.Keys
      invariant 0 <= k <= |moves| && states[head] == s && si == head
      invariant Built(states, index, succ, pred, head, k) && q == states[head + 1..] && Found(states)
    {
      ghost var states1 := states;
      states, index, succ, pred, q := Follow(states, index, succ, pred, q, s, si, k, head);
      FoundGrows(states1, states, head, k);
      PrefixOfPrefix(states0, states1, states);
      k := k + 1;
    }
    Advance(states, index, succ, pred, head, k);
  }

  lemma PrefixOfPrefix<T>(a: seq<T>, b: seq<T>, c: seq<T>)
    requires |a| <= |b| <= |c| && a == b[..|a|] && b == c[..|b|]
    ensures a == c[..|a|]
  {
  }

  lemma DropFront<T>(xs: seq<T>, i: nat)
    requires i < |xs|
    ensures xs[i..][1..] == xs[i + 1..]
  {
  }

  /** Before the search: the sentinels and the openings are numbered, and nothing is expanded. */
  lemma Begin()
    ensures Built([TermO, TermX, StartO, StartX], map[TermO := 0, TermX := 1, StartO := 2, StartX := 3],
                  [[], [], [], []], [[], [], [], []], 2, 0)
  {
    BeginArena();
    BeginGraph();
  }

  /** A finished numbering holds exactly the two sentinels and the reachable positions. */
  lemma NumberedIffReachable(states: seq<State>, index: map<State, nat>, succ: seq<seq<nat>>)
    requires 4 <= |states| == |succ| && states[0] == TermO && states[1] == TermX && states[2] == StartO && states[3] == StartX
    requires Arena(states, index) && Found(states) && CompleteBelow(states, succ, |states|)
    ensures forall s :: s in index <==> s == TermO || s == TermX || Reachable(s)
  {
    NumberingClosed(states, index, succ);
    assert states[2] in index && states[3] in index;
    forall s | Reachable(s) ensures s in index {
      var p :| |p| >= 1 && Run(p) && p[|p| - 1] == s;
      ChainStaysIn(p, {StartO, StartX}, Step, index.Keys);
    }
    forall s | s in index && s != TermO && s != TermX ensures Reachable(s) {
      assert Lookup(states, index, s);
      var i := index[s];
      assert states[i] == s && i != 0 && i != 1;
      assert Reachable(states[i]);
    }
    assert states[0] in index && states[1] in index;
  }

  /** The two openings are reachable: each is the run of no moves. */
  lemma OpeningsReachable()
    ensures Found([TermO, TermX, StartO, StartX])
  {
    assert Run([StartO]) && Run([StartX]);
  }

  lemma BeginArena()
    ensures Arena([TermO, TermX, StartO, StartX], map[TermO := 0, TermX := 1, StartO := 2, StartX := 3])
  {
    var states := [TermO, TermX, StartO, StartX];
    var index := map[TermO := 0, TermX := 1, StartO := 2, StartX := 3];
    forall s: State {:trigger Lookup(states, index, s)} ensures Lookup(states, index, s) {
    }
  }

  lemma BeginGraph()
    ensures AllValid([TermO, TermX, StartO, StartX])
    ensures WellFormed(Graph([[], [], [], []], [[], [], [], []]))
    ensures CompleteBelow([TermO, TermX, StartO, StartX], [[], [], [], []], 2)
  {
    var states := [TermO, TermX, StartO, StartX];
    var empty: seq<seq<nat>> := [[], [], [], []];
    forall i | 0 <= i < 4 ensures ValidState(states[i]) {
    }
    forall i | 0 <= i < 2 ensures Complete(states, empty, i) {
    }
  }

  /**
   * The graph of every position reachable from the two openings. Every
   * position is numbered once and is well formed, the graph is well formed,
   * the sentinels have no moves, and every other position has one edge per
   * legal move, in ascending order of the moves, to the position that move
   * leads to.
   */
  method BuildGraph() returns (states: seq<State>, index: map<State, nat>, g: Graph)
    ensures 4 <= |states| == |g.succ| && states[0] == TermO && states[1] == TermX && states[2] == StartO && states[3] == StartX
    ensures Arena(states, index) && WellFormed(g)
    ensures forall i :: 0 <= i < |states| ==> ValidState(states[i])
    ensures forall i :: 0 <= i < |states| ==> Complete(states, g.succ, i)
    ensures forall s :: s in index <==> s == TermO || s == TermX || Reachable(s)
  {
    states := [TermO, TermX, StartO, StartX];
    index := map[TermO := 0, TermX := 1, StartO := 2, StartX := 3];
    var succ: seq<seq<nat>> := [[], [], [], []];
    var pred: seq<seq<nat>> := [[], [], [], []];
    var q := [StartO, StartX];
    ghost var head := 2;
    Begin();
    OpeningsReachable();
    while |q| > 0
      invariant Built(states, index, succ, pred, head, 0) && q == states[head..]
      invariant 2 <= head && Found(states)
      decreases |Universe() - index.Keys|, |q|
    {
      var s := q[0];
      DropFront(states, head);
      q := q[1..];
      if s.o.Null? {
        SkipSentinel(states, index, succ, pred, head);
      } else {
        ghost var states0, index0 := states, index;
        states, index, succ, pred, q := Expand(states, index, succ, pred, q, s, head);
        if |states0| < |states| {
          Shrinks(states0, index0, states, index);
        } else {
          SubsetCard(Universe() - index.Keys, Universe() - index0.Keys);
        }
      }
      head := head + 1;
    }
    g := Graph(succ, pred);
    NumberedIffReachable(states, index, succ);
  }
}
