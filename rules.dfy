/**
 * The rules of vanishing tic-tac-toe as the solver sees them: a position is
 * the two players' mark queues (cells 0..8 in placement order) and the player
 * to move; placing a fourth mark evicts the oldest one, and a move that
 * completes a line collapses the game into the sentinel of the side that lost.
 */
module Rules {
  import opened Wrappers

  datatype Player = O | X

  function Other(p: Player): (r: Player)
    ensures r != p
  {
    if p == O then X else O
  }

  /** A mark queue: `Null` inside a terminal sentinel, otherwise the cells in placement order. */
  datatype Queue = Null | Cells(cells: seq<int>)

  datatype State = State(o: Queue, x: Queue, turn: Player)

  /** O is to move but has already lost. */
  const TermO: State := State(Null, Null, O)
  /** X is to move but has already lost. */
  const TermX: State := State(Null, Null, X)
  /** The two canonical openings: empty board, either side to move. */
  const StartO: State := State(Cells([]), Cells([]), O)
  const StartX: State := State(Cells([]), Cells([]), X)

  /** The sentinel in which `loser` is to move. */
  function Sentinel(loser: Player): (r: State)
    ensures r.o.Null? && r.x.Null? && r.turn == loser
    ensures r == TermO || r == TermX
  {
    match loser
    case O => TermO
    case X => TermX
  }

  /** Rows, then columns, then the two diagonals. */
  const WinLines: seq<(int, int, int)> := [
    (0, 1, 2), (3, 4, 5), (6, 7, 8),
    (0, 3, 6), (1, 4, 7), (2, 5, 8),
    (0, 4, 8), (2, 4, 6)
  ]

  /** The cells `a`, `a + d`, `a + 2d` form a row, a column or a diagonal of the 3x3 board. */
  predicate StraightLine(a: int, d: int) {
    (0 <= a < 9 && a % 3 == 0 && d == 1) || (0 <= a < 3 && d == 3) || (a == 0 && d == 4) || (a == 2 && d == 2)
  }

  /** The winning lines are exactly the eight rows, columns and diagonals. */
  lemma EightLines()
    ensures |WinLines| == 8
    ensures forall j :: 0 <= j < |WinLines| ==>
      StraightLine(WinLines[j].0, WinLines[j].1 - WinLines[j].0) && WinLines[j].2 - WinLines[j].1 == WinLines[j].1 - WinLines[j].0
    ensures forall a, d :: StraightLine(a, d) ==> (a, a + d, a + 2 * d) in WinLines
  {
  }

  /** All three cells of `line` are in the queue. */
  predicate Covers(q: seq<int>, line: (int, int, int)) {
    line.0 in q && line.1 in q && line.2 in q
  }

  /** The scan over the winning lines from line `i` on. */
  function LineFrom(q: seq<int>, i: nat): (r: bool)
    requires i <= |WinLines|
    ensures r <==> exists j :: i <= j < |WinLines| && Covers(q, WinLines[j])
    decreases |WinLines| - i
  {
    if i == |WinLines| then false
    else if Covers(q, WinLines[i]) then true
    else LineFrom(q, i + 1)
  }

  function HasWin(q: seq<int>): (r: bool)
    ensures |q| < 3 ==> !r
    ensures |q| >= 3 ==> (r <==> exists j :: 0 <= j < |WinLines| && Covers(q, WinLines[j]))
  {
    if |q| < 3 then false else LineFrom(q, 0)
  }

  /** Three different values cannot all sit in a sequence shorter than three. */
  lemma ThreeDistinctNeedThree(q: seq<int>, a: int, b: int, c: int)
    requires a in q && b in q && c in q
    requires a != b && b != c && a != c
    ensures |q| >= 3
  {
    var i :| 0 <= i < |q| && q[i] == a;
    var j :| 0 <= j < |q| && q[j] == b;
    var k :| 0 <= k < |q| && q[k] == c;
    assert i != j && j != k && i != k;
  }

  /** The length guard of HasWin never changes its answer: every line has three distinct cells. */
  lemma HasWinIsLineCover(q: seq<int>)
    ensures HasWin(q) <==> exists j :: 0 <= j < |WinLines| && Covers(q, WinLines[j])
  {
    if j :| 0 <= j < |WinLines| && Covers(q, WinLines[j]) {
      var line := WinLines[j];
      assert line.0 != line.1 && line.1 != line.2 && line.0 != line.2;
      ThreeDistinctNeedThree(q, line.0, line.1, line.2);
    }
  }

  /** The free cells at or above `p`, in ascending order. */
  function FreeFrom(o: seq<int>, x: seq<int>, p: int): (r: seq<int>)
    requires 0 <= p <= 9
    ensures forall m {:trigger m in r} :: m in r <==> p <= m < 9 && m !in o && m !in x
    ensures forall i, j :: 0 <= i < j < |r| ==> r[i] < r[j]
    decreases 9 - p
  {
    if p == 9 then []
    else if p in o || p in x then FreeFrom(o, x, p + 1)
    else
      var rest := FreeFrom(o, x, p + 1);
      assert forall k :: 0 <= k < |rest| ==> rest[k] in rest;
      [p] + rest
  }

  /** The cells 0..8 that neither queue occupies, ascending, each once. */
  function LegalMoves(o: seq<int>, x: seq<int>): (r: seq<int>)
    ensures forall m {:trigger m in r} :: m in r <==> 0 <= m < 9 && m !in o && m !in x
    ensures forall i, j :: 0 <= i < j < |r| ==> r[i] < r[j]
  {
    FreeFrom(o, x, 0)
  }

  /** Appends a mark and drops the oldest one when the queue grows past three. */
  function PushQueue(q: seq<int>, m: int): (r: seq<int>)
    ensures |r| == if |q| >= 3 then |q| else |q| + 1
    ensures r[|r| - 1] == m
    ensures r[..|r| - 1] == q[|q| + 1 - |r|..]
  {
    var nq := q + [m];
    if |nq| > 3 then nq[1..] else nq
  }

  datatype MoveError = TerminalState | Occupied

  /** The queue of player `p` in a non-terminal state. */
  function QueueOf(s: State, p: Player): seq<int>
    requires s.o.Cells? && s.x.Cells?
  {
    if p == O then s.o.cells else s.x.cells
  }

  function ApplyMove(s: State, m: int): (r: Result<State, MoveError>)
    ensures r == Failure(TerminalState) <==> s.o.Null? || s.x.Null?
    ensures r == Failure(Occupied) <==> s.o.Cells? && s.x.Cells? && (m in s.o.cells || m in s.x.cells)
  {
    if s.o.Null? || s.x.Null? then Failure(TerminalState)
    else if m in s.o.cells || m in s.x.cells then Failure(Occupied)
    else if s.turn == O then
      var no := PushQueue(s.o.cells, m);
      if HasWin(no) then Success(TermX) else Success(State(Cells(no), s.x, X))
    else
      var nx := PushQueue(s.x.cells, m);
      if HasWin(nx) then Success(TermO) else Success(State(s.o, Cells(nx), O))
  }

  /**
   * A move that is played pushes the mark onto the mover's queue; if that
   * queue then holds a line the mover has won and the result is the sentinel
   * in which the other side lost, otherwise the other side is to move and its
   * queue is unchanged.
   */
  lemma ApplyMoveOutcome(s: State, m: int)
    requires ApplyMove(s, m).Success?
    ensures var q := PushQueue(QueueOf(s, s.turn), m); var t := ApplyMove(s, m).value;
      if HasWin(q) then t == Sentinel(Other(s.turn))
      else t.o.Cells? && t.x.Cells? && t.turn == Other(s.turn) &&
           QueueOf(t, s.turn) == q && QueueOf(t, Other(s.turn)) == QueueOf(s, Other(s.turn))
  {
  }

  /** The side that won, for a terminal sentinel; `None` for a live state. */
  function WinnerFromTerminal(s: State): (r: Option<Player>)
    ensures r.Some? <==> s.o.Null?
    ensures r.Some? ==> r.value == Other(s.turn)
  {
    if s.o.Cells? then None
    else Some(if s.turn == X then O else X)
  }

  /** Every legal move can be played, and on the board's cells only legal moves can. */
  lemma LegalMovesSucceed(s: State, m: int)
    requires s.o.Cells? && s.x.Cells? && 0 <= m < 9
    ensures m in LegalMoves(s.o.cells, s.x.cells) <==> ApplyMove(s, m).Success?
  {
  }

  /** A move that ends the game names its mover as the winner, because the mover completed a line. */
  lemma WinningMoveNamesMover(s: State, m: int)
    requires ApplyMove(s, m).Success? && ApplyMove(s, m).value.o.Null?
    ensures HasWin(PushQueue(QueueOf(s, s.turn), m))
    ensures WinnerFromTerminal(ApplyMove(s, m).value) == Some(s.turn)
  {
  }

  // ---------------------------------------------------------------------
  // Well-formed positions and the finite universe that holds them all.

  predicate ValidQueue(q: seq<int>) {
    |q| <= 3 &&
    (forall i :: 0 <= i < |q| ==> 0 <= q[i] < 9) &&
    (forall i, j :: 0 <= i < j < |q| ==> q[i] != q[j])
  }

  /** A sentinel, or two queues of at most three distinct cells that share no cell. */
  predicate ValidState(s: State) {
    (s.o.Null? && s.x.Null?) ||
    (s.o.Cells? && s.x.Cells? && ValidQueue(s.o.cells) && ValidQueue(s.x.cells) &&
     (forall c :: c in s.o.cells ==> c !in s.x.cells))
  }

  lemma PushQueueKeepsValid(q: seq<int>, m: int)
    requires ValidQueue(q) && 0 <= m < 9 && m !in q
    ensures ValidQueue(PushQueue(q, m))
    ensures forall c :: c in PushQueue(q, m) ==> c == m || c in q
  {
    var r := PushQueue(q, m);
    var d := |q| + 1 - |r|;
    assert 0 <= d <= 1;
    forall i | 0 <= i < |r| - 1 ensures r[i] == q[i + d] {
      assert r[..|r| - 1][i] == q[d..][i];
    }
    forall c | c in r ensures c == m || c in q {
      var i :| 0 <= i < |r| && r[i] == c;
      if i < |r| - 1 {
        assert c == q[i + d];
      }
    }
  }

  /** Legal moves keep positions well formed. */
  lemma ApplyMoveKeepsValid(s: State, m: int)
    requires ValidState(s) && 0 <= m < 9 && ApplyMove(s, m).Success?
    ensures ValidState(ApplyMove(s, m).value)
  {
    var q := QueueOf(s, s.turn);
    PushQueueKeepsValid(q, m);
  }

  ghost function SmallQueues(): set<seq<int>> {
    {[]} +
    (set a | 0 <= a < 9 :: [a]) +
    (set a, b | 0 <= a < 9 && 0 <= b < 9 :: [a, b]) +
    (set a, b, c | 0 <= a < 9 && 0 <= b < 9 && 0 <= c < 9 :: [a, b, c])
  }

  /** A finite set that holds every well-formed position. */
  ghost function Universe(): set<State> {
    {TermO, TermX} +
    (set a, b | a in SmallQueues() && b in SmallQueues() :: State(Cells(a), Cells(b), O)) +
    (set a, b | a in SmallQueues() && b in SmallQueues() :: State(Cells(a), Cells(b), X))
  }

  lemma SmallQueue(q: seq<int>)
    requires ValidQueue(q)
    ensures q in SmallQueues()
  {
    if |q| == 1 {
      assert q == [q[0]];
    } else if |q| == 2 {
      assert q == [q[0], q[1]];
    } else if |q| == 3 {
      assert q == [q[0], q[1], q[2]];
    }
  }

  lemma ValidInUniverse(s: State)
    requires ValidState(s)
    ensures s in Universe()
  {
    if s.o.Null? {
      assert s == if s.turn == O then TermO else TermX;
    } else {
      SmallQueue(s.o.cells);
      SmallQueue(s.x.cells);
      var a, b := s.o.cells, s.x.cells;
      assert s == State(Cells(a), Cells(b), s.turn);
      if s.turn == O {
        assert s in (set a, b | a in SmallQueues() && b in SmallQueues() :: State(Cells(a), Cells(b), O));
      } else {
        assert s in (set a, b | a in SmallQueues() && b in SmallQueues() :: State(Cells(a), Cells(b), X));
      }
    }
  }
}
