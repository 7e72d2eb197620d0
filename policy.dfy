/**
 * What the move ranking achieves on a solved arena: from a won position the
 * best move reaches a lost position one ply nearer the end, from a lost
 * position it reaches a won position one ply nearer the end (the longest
 * resistance), and from a drawn position it keeps the draw.
 */
module Policy {
  import opened Wrappers
  import opened Rules
  import opened Graphs
  import opened Distances
  import opened Builder
  import opened Solving

  // ---------------------------------------------------------------------
  // What the tables say around one position.

  /**
   * The `j`-th move of the numbered live position `s` follows its `j`-th
   * edge, whose target's entries are shaped as in the whole table (no distance exactly for DRAW, a sentinel
   * lost with no plies left).
   */
  ghost predicate EdgeOk(states: seq<State>, index: map<State, nat>, g: Graph, result: seq<int>, dist: seq<Option<nat>>,
                         s: State, j: nat)
    requires s.o.Cells? && s.x.Cells? && j < |Moves(s)|
  {
    s in index && index[s] < |g.succ| && index[s] < |result| && j < |g.succ[index[s]]| &&
    var u := g.succ[index[s]][j];
    u < |states| && u < |result| && u < |dist| &&
    ApplyMove(s, Moves(s)[j]) == Success(states[u]) &&
    Label(index, result, states[u]) == Some(result[u]) && Plies(index, dist, states[u]) == Some(dist[u]) &&
    (dist[u].None? <==> result[u] == DRAW) &&
    ((states[u] == TermO || states[u] == TermX) ==> result[u] == LOSS && dist[u] == Some(0))
  }

  /**
   * The facts about the numbered live position `s` that the ranking of its
   * moves depends on: its own entries and one good edge per move.
   */
  ghost predicate Around(states: seq<State>, index: map<State, nat>, g: Graph, result: seq<int>, dist: seq<Option<nat>>, rank: seq<nat>,
                         s: State)
    requires s.o.Cells? && s.x.Cells?
  {
    s in index && 2 <= index[s] < |states| && |g.succ| == |result| == |dist| == |rank| == |states| &&
    Label(index, result, s) == Some(result[index[s]]) && Plies(index, dist, s) == Some(dist[index[s]]) &&
    |g.succ[index[s]]| == |Moves(s)| &&
    (forall j :: 0 <= j < |Moves(s)| ==> EdgeOk(states, index, g, result, dist, s, j))
  }

  /** Each move of a numbered live position satisfies `EdgeOk`. */
  lemma EdgeFacts(states: seq<State>, index: map<State, nat>, g: Graph, result: seq<int>, dist: seq<Option<nat>>, rank: seq<nat>,
                  s: State, j: nat)
    requires Solved(states, index, g, result, dist, rank)
    requires s in index && s.o.Cells? && s.x.Cells? && j < |Moves(s)|
    ensures EdgeOk(states, index, g, result, dist, s, j)
  {
    assert Lookup(states, index, s);
    var i := index[s];
    assert Complete(states, g.succ, i);
    assert Partial(states, g.succ, i, |Moves(s)|);
    var u := g.succ[i][j];
    assert ApplyMove(s, Moves(s)[j]) == Success(states[u]);
    assert states[u] in index && index[states[u]] == u;
    assert index[states[0]] == 0 && index[states[1]] == 1;
  }

  /** A solved arena satisfies `Around` at every numbered live position. */
  lemma Localize(states: seq<State>, index: map<State, nat>, g: Graph, result: seq<int>, dist: seq<Option<nat>>, rank: seq<nat>,
                 s: State)
    requires Solved(states, index, g, result, dist, rank)
    requires s in index && s.o.Cells? && s.x.Cells?
    ensures Around(states, index, g, result, dist, rank, s)
  {
    assert Lookup(states, index, s);
    var i := index[s];
    assert Complete(states, g.succ, i);
    assert Partial(states, g.succ, i, |Moves(s)|);
    forall j | 0 <= j < |Moves(s)| ensures EdgeOk(states, index, g, result, dist, s, j) {
      EdgeFacts(states, index, g, result, dist, rank, s, j);
    }
  }

  // ---------------------------------------------------------------------
  // Keys on the graph.

  /**
   * What a move's key says about the edge into `u` from a vertex labelled
   * `r`: from WIN, priority 0 and one ply more than `u` exactly when `u` is
   * LOSS; from LOSS, priority 0 and the longest resistance first when `u` is
   * WIN; from DRAW, (0, 0) into DRAW and priority 1 into WIN.
   */
  ghost predicate KeyFits(result: seq<int>, dist: seq<Option<nat>>, r: int, u: nat, key: Key) {
    u < |result| && u < |dist| &&
    (r == WIN ==>
      (result[u] == LOSS ==> dist[u].Some? && key == Key(0, 1 + dist[u].value)) &&
      (result[u] != LOSS ==> key.priority == 1)) &&
    (r == LOSS ==> (result[u] == WIN ==> dist[u].Some? && key == Key(0, -(1 + dist[u].value as int)))) &&
    (r == DRAW ==> (result[u] == DRAW ==> key == Key(0, 0)) && (result[u] == WIN ==> key.priority == 1))
  }

  /** `ks` are keys of the edges out of `v`, in edge order, and the `b`-th is least. */
  ghost predicate LeastOut(g: Graph, result: seq<int>, dist: seq<Option<nat>>, v: nat, ks: seq<Key>, b: nat) {
    v < |g.succ| && v < |result| && |ks| == |g.succ[v]| && b < |ks| &&
    (forall j :: 0 <= j < |ks| ==> KeyFits(result, dist, result[v], g.succ[v][j], ks[j])) &&
    (forall j :: 0 <= j < |ks| ==> !KeyLess(ks[j], ks[b]))
  }

  /** From a WIN vertex, the least key reaches a LOSS vertex, and the vertex's distance is one more than that vertex's. */
  lemma WinningEdge(g: Graph, result: seq<int>, dist: seq<Option<nat>>, rank: seq<nat>, v: nat, ks: seq<Key>, b: nat)
    requires LeastOut(g, result, dist, v, ks, b) && v < |rank| && result[v] == WIN
    requires WinJustified(g, result, rank, v) && v < |dist| && dist[v] == CandidateOf(g, result, dist, v)
    ensures var u := g.succ[v][b]; result[u] == LOSS && dist[u].Some? && dist[v] == Some(1 + dist[u].value)
  {
    var succ := g.succ[v];
    var u := succ[b];
    assert KeyFits(result, dist, WIN, u, ks[b]);
    var j0 :| 0 <= j0 < |succ| && succ[j0] < |result| && succ[j0] < |rank| && result[succ[j0]] == LOSS && rank[succ[j0]] < rank[v];
    assert KeyFits(result, dist, WIN, succ[j0], ks[j0]);
    assert !KeyLess(ks[j0], ks[b]);
    assert result[u] == LOSS;
    var d := dist[u].value;
    var vals := Vals(succ, LOSS, result, dist);
    ValsHas(succ, LOSS, result, dist, b);
    var k :| 0 <= k < |vals| && vals[k] == MinOf(vals);
    ValsFrom(succ, LOSS, result, dist, k);
    var j1 :| 0 <= j1 < |succ| && succ[j1] < |result| && succ[j1] < |dist| && result[succ[j1]] == LOSS && dist[succ[j1]] == Some(vals[k]);
    assert KeyFits(result, dist, WIN, succ[j1], ks[j1]);
    assert !KeyLess(ks[j1], ks[b]);
    assert MinOf(vals) == d;
  }

  /** From a LOSS vertex other than a sentinel, the least key reaches a WIN vertex, and the vertex's distance is one more than that vertex's. */
  lemma LosingEdge(g: Graph, result: seq<int>, dist: seq<Option<nat>>, rank: seq<nat>, v: nat, ks: seq<Key>, b: nat)
    requires LeastOut(g, result, dist, v, ks, b) && v < |rank| && result[v] == LOSS
    requires LossJustified(g, result, rank, v) && v < |dist| && dist[v] == CandidateOf(g, result, dist, v)
    ensures var u := g.succ[v][b]; result[u] == WIN && dist[u].Some? && dist[v] == Some(1 + dist[u].value)
  {
    var succ := g.succ[v];
    var u := succ[b];
    assert KeyFits(result, dist, LOSS, u, ks[b]);
    assert result[u] == WIN;
    var d := dist[u].value;
    var vals := Vals(succ, WIN, result, dist);
    ValsHas(succ, WIN, result, dist, b);
    var k :| 0 <= k < |vals| && vals[k] == MaxOf(vals);
    ValsFrom(succ, WIN, result, dist, k);
    var j1 :| 0 <= j1 < |succ| && succ[j1] < |result| && succ[j1] < |dist| && result[succ[j1]] == WIN && dist[succ[j1]] == Some(vals[k]);
    assert KeyFits(result, dist, LOSS, succ[j1], ks[j1]);
    assert !KeyLess(ks[j1], ks[b]);
    assert MaxOf(vals) == d;
  }

  /** From a DRAW vertex, the least key reaches a DRAW vertex. */
  lemma DrawingEdge(g: Graph, result: seq<int>, dist: seq<Option<nat>>, v: nat, ks: seq<Key>, b: nat)
    requires LeastOut(g, result, dist, v, ks, b) && result[v] == DRAW && DrawJustified(g, result, v)
    requires forall u :: 0 <= u < |result| ==> result[u] == LOSS || result[u] == DRAW || result[u] == WIN
    ensures result[g.succ[v][b]] == DRAW
  {
    var succ := g.succ[v];
    var j0 :| 0 <= j0 < |succ| && succ[j0] < |result| && result[succ[j0]] == DRAW;
    assert KeyFits(result, dist, DRAW, succ[j0], ks[j0]);
    assert KeyFits(result, dist, DRAW, succ[b], ks[b]);
    assert !KeyLess(ks[j0], ks[b]);
  }

  // ---------------------------------------------------------------------
  // From the keys of moves to the keys of edges.

  /** The key a move into `u` gets from a vertex labelled `r` fits the edge, given the entries of `u` are shaped. */
  lemma KeyFitsEntry(result: seq<int>, dist: seq<Option<nat>>, r: int, u: nat, t: State)
    requires u < |result| && u < |dist| && (dist[u].None? <==> result[u] == DRAW)
    requires (t == TermO || t == TermX) ==> result[u] == LOSS && dist[u] == Some(0)
    ensures KeyFits(result, dist, r, u, MoveKey(Some(r), t, Some(result[u]), Some(dist[u])))
  {
  }

  /** The key of each move of a numbered live position fits the edge the move follows. */
  lemma MoveKeyFits(states: seq<State>, index: map<State, nat>, g: Graph, result: seq<int>, dist: seq<Option<nat>>,
                    s: State, j: nat)
    requires s.o.Cells? && s.x.Cells? && j < |Moves(s)| && EdgeOk(states, index, g, result, dist, s, j)
    ensures KeyFits(result, dist, result[index[s]], g.succ[index[s]][j], KeyIn(index, result, dist, s, Moves(s)[j]))
  {
    var u := g.succ[index[s]][j];
    assert KeyIn(index, result, dist, s, Moves(s)[j]) == MoveKey(Some(result[index[s]]), states[u], Some(result[u]), Some(dist[u]));
    KeyFitsEntry(result, dist, result[index[s]], u, states[u]);
  }

  /** The move `Moves(s)[b]` leads to the target of the `b`-th edge, whose entries are the tables' entries for it. */
  lemma Target(states: seq<State>, index: map<State, nat>, g: Graph, result: seq<int>, dist: seq<Option<nat>>,
               s: State, b: nat)
    requires s.o.Cells? && s.x.Cells? && b < |Moves(s)| && EdgeOk(states, index, g, result, dist, s, b)
    ensures var u := g.succ[index[s]][b]; var t := ApplyMove(s, Moves(s)[b]).value;
      ApplyMove(s, Moves(s)[b]).Success? && t == states[u] &&
      Label(index, result, t) == Some(result[u]) && Plies(index, dist, t) == Some(dist[u])
  {
  }

  /** Around a position, the keys of its moves are keys of its edges, and a best move's key is least among them. */
  lemma BestIsLeast(states: seq<State>, index: map<State, nat>, g: Graph, result: seq<int>, dist: seq<Option<nat>>, rank: seq<nat>,
                    s: State, m: int) returns (ks: seq<Key>, b: nat, u: nat)
    requires s.o.Cells? && s.x.Cells? && Around(states, index, g, result, dist, rank, s)
    requires IsBest(index, result, dist, s, m)
    ensures LeastOut(g, result, dist, index[s], ks, b) && b < |Moves(s)| && Moves(s)[b] == m
    ensures u == g.succ[index[s]][b] && u < |states| && u < |result| && u < |dist| && ApplyMove(s, m) == Success(states[u])
    ensures Label(index, result, states[u]) == Some(result[u]) && Plies(index, dist, states[u]) == Some(dist[u])
    ensures dist[u].None? <==> result[u] == DRAW
  {
    var moves := Moves(s);
    ks := KeysIn(index, result, dist, s, moves);
    b :| 0 <= b < |moves| && moves[b] == m;
    forall j | 0 <= j < |ks| ensures KeyFits(result, dist, result[index[s]], g.succ[index[s]][j], ks[j]) {
      assert EdgeOk(states, index, g, result, dist, s, j);
      MoveKeyFits(states, index, g, result, dist, s, j);
    }
    forall j | 0 <= j < |ks| ensures !KeyLess(ks[j], ks[b]) {
      assert moves[j] in moves;
    }
    assert EdgeOk(states, index, g, result, dist, s, b);
    u := g.succ[index[s]][b];
  }

  // ---------------------------------------------------------------------
  // The best move of a labelled position.

  /** The best move of a WIN position reaches a LOSS position, and the position's distance is one more than that position's. */
  lemma WinningMove(states: seq<State>, index: map<State, nat>, g: Graph, result: seq<int>, dist: seq<Option<nat>>, rank: seq<nat>,
                    s: State, m: int)
    requires Solved(states, index, g, result, dist, rank)
    requires s.o.Cells? && s.x.Cells? && Label(index, result, s) == Some(WIN)
    requires IsBest(index, result, dist, s, m)
    ensures exists t, d: nat ::
      ApplyMove(s, m) == Success(t) && Label(index, result, t) == Some(LOSS) && Plies(index, dist, t) == Some(Some(d)) && Plies(index, dist, s) == Some(Some(1 + d))
  {
    Localize(states, index, g, result, dist, rank, s);
    var ks, b, u := BestIsLeast(states, index, g, result, dist, rank, s, m);
    WinningStep(states, index, g, result, dist, rank, s, ks, b);
    assert Plies(index, dist, s) == Some(Some(1 + dist[g.succ[index[s]][b]].value));
    assert ApplyMove(s, m) == Success(states[u]) && Label(index, result, states[u]) == Some(LOSS) &&
      Plies(index, dist, states[u]) == Some(Some(dist[u].value));
  }

  /** In a solved arena, the edge of least key out of a live WIN position leads into a LOSS vertex one ply nearer the end. */
  lemma WinningStep(states: seq<State>, index: map<State, nat>, g: Graph, result: seq<int>, dist: seq<Option<nat>>, rank: seq<nat>,
                    s: State, ks: seq<Key>, b: nat)
    requires Solved(states, index, g, result, dist, rank)
    requires s in index && 2 <= index[s] < |states| && result[index[s]] == WIN && LeastOut(g, result, dist, index[s], ks, b)
    ensures var u := g.succ[index[s]][b];
      u < |result| && result[u] == LOSS && u < |dist| && dist[u].Some? && Plies(index, dist, s) == Some(Some(1 + dist[u].value))
  {
    var v := index[s];
    assert Live(g, 0, 1, result, v);
    WinningEdge(g, result, dist, rank, v, ks, b);
  }

  /** The best move of a LOSS position reaches a WIN position, and the position's distance is one more than that position's. */
  lemma LosingMove(states: seq<State>, index: map<State, nat>, g: Graph, result: seq<int>, dist: seq<Option<nat>>, rank: seq<nat>,
                    s: State, m: int)
    requires Solved(states, index, g, result, dist, rank)
    requires s.o.Cells? && s.x.Cells? && Label(index, result, s) == Some(LOSS)
    requires IsBest(index, result, dist, s, m)
    ensures exists t, d: nat ::
      ApplyMove(s, m) == Success(t) && Label(index, result, t) == Some(WIN) && Plies(index, dist, t) == Some(Some(d)) && Plies(index, dist, s) == Some(Some(1 + d))
  {
    Localize(states, index, g, result, dist, rank, s);
    var ks, b, u := BestIsLeast(states, index, g, result, dist, rank, s, m);
    LosingStep(states, index, g, result, dist, rank, s, ks, b);
    assert Plies(index, dist, s) == Some(Some(1 + dist[g.succ[index[s]][b]].value));
    assert ApplyMove(s, m) == Success(states[u]) && Label(index, result, states[u]) == Some(WIN) &&
      Plies(index, dist, states[u]) == Some(Some(dist[u].value));
  }

  /** In a solved arena, the edge of least key out of a live LOSS position leads into a WIN vertex one ply nearer the end. */
  lemma LosingStep(states: seq<State>, index: map<State, nat>, g: Graph, result: seq<int>, dist: seq<Option<nat>>, rank: seq<nat>,
                    s: State, ks: seq<Key>, b: nat)
    requires Solved(states, index, g, result, dist, rank)
    requires s in index && 2 <= index[s] < |states| && result[index[s]] == LOSS && LeastOut(g, result, dist, index[s], ks, b)
    ensures var u := g.succ[index[s]][b];
      u < |result| && result[u] == WIN && u < |dist| && dist[u].Some? && Plies(index, dist, s) == Some(Some(1 + dist[u].value))
  {
    var v := index[s];
    assert Live(g, 0, 1, result, v);
    LosingEdge(g, result, dist, rank, v, ks, b);
  }

  /** The best move of a DRAW position reaches a DRAW position. */
  lemma DrawingMove(states: seq<State>, index: map<State, nat>, g: Graph, result: seq<int>, dist: seq<Option<nat>>, rank: seq<nat>,
                    s: State, m: int)
    requires Solved(states, index, g, result, dist, rank)
    requires s.o.Cells? && s.x.Cells? && Label(index, result, s) == Some(DRAW)
    requires IsBest(index, result, dist, s, m)
    ensures exists t :: ApplyMove(s, m) == Success(t) && Label(index, result, t) == Some(DRAW) && Plies(index, dist, t) == Some(None)
  {
    Localize(states, index, g, result, dist, rank, s);
    var ks, b, u := BestIsLeast(states, index, g, result, dist, rank, s, m);
    DrawingStep(states, index, g, result, dist, rank, index[s], ks, b);
    assert ApplyMove(s, m) == Success(states[u]) && Label(index, result, states[u]) == Some(DRAW) &&
      Plies(index, dist, states[u]) == Some(None);
  }

  /** In a solved arena, the edge of least key out of a DRAW vertex leads into a DRAW vertex. */
  lemma DrawingStep(states: seq<State>, index: map<State, nat>, g: Graph, result: seq<int>, dist: seq<Option<nat>>, rank: seq<nat>,
                    v: nat, ks: seq<Key>, b: nat)
    requires Solved(states, index, g, result, dist, rank)
    requires v < |states| && result[v] == DRAW && LeastOut(g, result, dist, v, ks, b)
    ensures g.succ[v][b] < |result| && result[g.succ[v][b]] == DRAW
  {
    DrawingEdge(g, result, dist, v, ks, b);
  }
}
