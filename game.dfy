/**
 * The interactive board (class GameState of game.js). It keeps a 3x3 board,
 * each side's marks in the order they were placed, and for every mark the
 * number of half-moves left before it vanishes. Placing a mark ages every
 * mark on the board, removes the expired ones, evicts the mover's oldest
 * mark when they already have three, and passes the turn.
 */
module Game {
  import opened Wrappers
  import opened Rules

  /** A board coordinate: (row, column). */
  type Cell = (int, int)

  const BoardSize: int := 3
  /** The counter a freshly placed mark starts with, in half-moves. */
  const Lifetime: int := 6

  predicate OnBoard(c: Cell) {
    0 <= c.0 < BoardSize && 0 <= c.1 < BoardSize
  }

  /** Row-major index of a cell, the solver's cell numbering. */
  function BoardToPos(row: int, col: int): (r: int)
    ensures 0 <= row < BoardSize && 0 <= col < BoardSize ==>
      0 <= r < 9 && r / BoardSize == row && r % BoardSize == col
  {
    row * BoardSize + col
  }

  /**
   * The cell of an index: the row is the floor of the quotient and the column
   * the remainder as JavaScript's `%` computes it, which keeps the sign of
   * the dividend.
   */
  function PosToBoard(pos: int): (r: Cell)
    ensures 0 <= pos < 9 ==> OnBoard(r)
    ensures pos >= 0 ==> BoardToPos(r.0, r.1) == pos
  {
    (pos / BoardSize, if pos >= 0 then pos % BoardSize else -((-pos) % BoardSize))
  }

  /** Two different cells of the board never share an index. */
  lemma BoardToPosInjective(a: Cell, b: Cell)
    requires OnBoard(a) && OnBoard(b)
    ensures BoardToPos(a.0, a.1) == BoardToPos(b.0, b.1) <==> a == b
  {
  }

  /** Indices and cells are in one-to-one correspondence. */
  lemma PosRoundTrips(row: int, col: int, pos: int)
    ensures 0 <= row < BoardSize && 0 <= col < BoardSize ==> PosToBoard(BoardToPos(row, col)) == (row, col)
    ensures 0 <= pos < 9 ==> BoardToPos(PosToBoard(pos).0, PosToBoard(pos).1) == pos
  {
  }

  // ---------------------------------------------------------------------
  // Mark lists and their counters, as values.

  predicate AllOnBoard(l: seq<Cell>) {
    forall c :: c in l ==> OnBoard(c)
  }

  /** No cell occurs twice: the head is not in the tail, and so on down the list. */
  predicate Distinct(l: seq<Cell>) {
    l == [] || (l[0] !in l[1..] && Distinct(l[1..]))
  }

  /** A side's marks: at most three distinct board cells, each with a counter and no other counter. */
  predicate Marks(l: seq<Cell>, counts: map<Cell, int>) {
    |l| <= 3 && Distinct(l) &&
    AllOnBoard(l) &&
    (forall c :: c in counts ==> c in l) && (forall c :: c in l ==> c in counts)
  }

  /** The first position of `c` in `l`, or -1 (as `findIndex` in game.js). */
  function IndexOf(l: seq<Cell>, c: Cell): (r: int)
    ensures -1 <= r < |l|
    ensures r == -1 <==> c !in l
    ensures r >= 0 ==> l[r] == c && forall j :: 0 <= j < r ==> l[j] != c
  {
    if l == [] then -1
    else if l[0] == c then 0
    else
      var i := IndexOf(l[1..], c);
      if i == -1 then -1 else i + 1
  }

  /** `l` without the cells of `dead`, in the original order. */
  function Without(l: seq<Cell>, dead: set<Cell>): (r: seq<Cell>)
    ensures forall c {:trigger c in r} :: c in r <==> c in l && c !in dead
    ensures |r| <= |l|
    ensures Distinct(l) ==> Distinct(r)
  {
    if l == [] then []
    else
      var t := Without(l[1..], dead);
      assert Distinct(l) ==> Distinct(l[1..]) && l[0] !in l[1..] by {
        if Distinct(l) {
          DistinctTail(l);
        }
      }
      assert Distinct(l) && l[0] !in dead ==> Distinct([l[0]] + t) by {
        if Distinct(l) && l[0] !in dead {
          DistinctCons(l[0], t);
        }
      }
      if l[0] in dead then t else [l[0]] + t
  }

  /** The marks whose counter drops to zero or below on the next decrement. */
  function Expired(counts: map<Cell, int>): (r: set<Cell>)
    ensures forall c :: c in r <==> c in counts && counts[c] <= 1
  {
    set c | c in counts && counts[c] - 1 <= 0
  }

  /** Every counter one less, expired ones dropped. */
  function Decremented(counts: map<Cell, int>): (r: map<Cell, int>)
    ensures forall c :: c in r <==> c in counts && c !in Expired(counts)
    ensures forall c :: c in r ==> r[c] == counts[c] - 1 && r[c] >= 1
  {
    map c | c in counts && counts[c] - 1 > 0 :: counts[c] - 1
  }

  /** The mover's surviving marks: the oldest is evicted when three are left. */
  function Survivors(l: seq<Cell>, counts: map<Cell, int>): (r: seq<Cell>)
    ensures |l| <= 3 ==> |r| <= 2
    ensures forall c {:trigger c in r} :: c in r ==> c in l && c !in Expired(counts)
  {
    var kept := Without(l, Expired(counts));
    if |kept| >= 3 then
      assert forall c :: c in kept[1..] ==> c in kept;
      kept[1..]
    else kept
  }

  /**
   * A mover's list after placing on `cell`: with three marks down the oldest
   * is evicted first, and the new mark goes at the end.
   */
  function Pushed(l: seq<Cell>, cell: Cell): (r: seq<Cell>)
    ensures |l| <= 3 ==> |r| <= 3
    ensures |r| >= 1 && r[|r| - 1] == cell
    ensures forall c {:trigger c in r} :: c in r ==> c == cell || c in l
  {
    var s := if |l| >= 3 then l[1..] else l;
    assert forall c :: c in s ==> c in l;
    s + [cell]
  }

  /** A mover's counters after placing on `cell`: the evicted mark loses its counter, the new one gets a full one. */
  function PushedCounts(l: seq<Cell>, counts: map<Cell, int>, cell: Cell): (r: map<Cell, int>)
    ensures cell in r && r[cell] == Lifetime
    ensures forall c :: c in r && c != cell ==> c in counts && r[c] == counts[c]
  {
    (if |l| >= 3 then counts - {l[0]} else counts)[cell := Lifetime]
  }

  /** The mover's marks after ageing and placing on `cell`. */
  function NextOwn(l: seq<Cell>, counts: map<Cell, int>, cell: Cell): (r: seq<Cell>)
    ensures |l| <= 3 ==> |r| <= 3
    ensures |r| >= 1 && r[|r| - 1] == cell
    ensures forall c {:trigger c in r} :: c in r ==> c == cell || (c in l && c !in Expired(counts))
  {
    Pushed(Without(l, Expired(counts)), cell)
  }

  /** The mover's counters after ageing and placing on `cell`. */
  function NextOwnCounts(l: seq<Cell>, counts: map<Cell, int>, cell: Cell): (r: map<Cell, int>)
    ensures cell in r && r[cell] == Lifetime
  {
    PushedCounts(Without(l, Expired(counts)), Decremented(counts), cell)
  }

  /** Placing on a free cell keeps a side's marks and counters well formed. */
  lemma PushKeepsMarks(l: seq<Cell>, counts: map<Cell, int>, cell: Cell)
    requires Marks(l, counts) && OnBoard(cell) && cell !in l
    ensures Marks(Pushed(l, cell), PushedCounts(l, counts, cell))
  {
    var s := if |l| >= 3 then l[1..] else l;
    assert forall c :: c in s ==> c in l;
    assert Distinct(s) by {
      if |l| >= 3 {
        DistinctTail(l);
      }
    }
    DistinctSnoc(s, cell);
    var r := Pushed(l, cell);
    var rc := PushedCounts(l, counts, cell);
    forall c ensures c in rc <==> c in r {
      if |l| >= 3 {
        assert l == [l[0]] + s;
        assert l[0] !in s;
      }
    }
  }

  /** Ageing and placing keep a side's marks and counters well formed. */
  lemma NextOwnKeepsMarks(l: seq<Cell>, counts: map<Cell, int>, cell: Cell)
    requires Marks(l, counts) && OnBoard(cell) && cell !in l
    ensures Marks(NextOwn(l, counts, cell), NextOwnCounts(l, counts, cell))
  {
    DecrementKeepsMarks(l, counts);
    PushKeepsMarks(Without(l, Expired(counts)), Decremented(counts), cell);
  }

  /** Ageing keeps the waiting side's marks and counters well formed. */
  lemma DecrementKeepsMarks(l: seq<Cell>, counts: map<Cell, int>)
    requires Marks(l, counts)
    ensures Marks(Without(l, Expired(counts)), Decremented(counts))
  {
  }

  /** The tail of a list without repeats has none, and lacks the head. */
  lemma DistinctTail(l: seq<Cell>)
    requires Distinct(l) && l != []
    ensures Distinct(l[1..]) && l[0] !in l[1..]
  {
  }

  lemma DistinctCons(h: Cell, t: seq<Cell>)
    requires Distinct(t) && h !in t
    ensures Distinct([h] + t)
  {
    assert ([h] + t)[1..] == t;
  }

  /** A new cell at the end keeps a list without repeats. */
  lemma {:induction false} DistinctSnoc(l: seq<Cell>, c: Cell)
    requires Distinct(l) && c !in l
    ensures Distinct(l + [c])
  {
    if l != [] {
      DistinctSnoc(l[1..], c);
      assert (l + [c])[1..] == l[1..] + [c];
    }
  }

  /** A list without repeats holds different cells at different positions. */
  lemma {:induction false} DistinctPairs(l: seq<Cell>)
    requires Distinct(l)
    ensures forall i, j :: 0 <= i < j < |l| ==> l[i] != l[j]
  {
    if l != [] {
      DistinctPairs(l[1..]);
      forall i, j | 0 <= i < j < |l| ensures l[i] != l[j] {
        assert l[j] == l[1..][j - 1];
        if i > 0 {
          assert l[i] == l[1..][i - 1];
        }
      }
    }
  }

  /** `l` with its first `c`, if any, taken out. */
  function RemoveFirst(l: seq<Cell>, c: Cell): (r: seq<Cell>)
    ensures |r| == if c in l then |l| - 1 else |l|
    ensures c !in l ==> r == l
    ensures forall d {:trigger d in r} :: d in r ==> d in l
  {
    if l == [] then []
    else if l[0] == c then l[1..]
    else [l[0]] + RemoveFirst(l[1..], c)
  }

  /** In a list without repeats, removing the first `c` removes `c` and nothing else. */
  lemma {:induction false} RemoveFirstMembers(l: seq<Cell>, c: Cell)
    requires Distinct(l)
    ensures forall d :: d in RemoveFirst(l, c) <==> d in l && d != c
  {
    if l != [] {
      DistinctTail(l);
      RemoveFirstMembers(l[1..], c);
      assert l == [l[0]] + l[1..];
    }
  }

  /** Splicing out the position `findIndex` returns removes the first `c`. */
  lemma {:induction false} SpliceRemovesFirst(l: seq<Cell>, c: Cell)
    ensures var i := IndexOf(l, c);
      RemoveFirst(l, c) == if i == -1 then l else l[..i] + l[i + 1..]
  {
    if l == [] {
    } else if l[0] == c {
      assert IndexOf(l, c) == 0;
      assert l[..0] + l[1..] == l[1..];
    } else {
      var t := l[1..];
      SpliceRemovesFirst(t, c);
      var it := IndexOf(t, c);
      assert RemoveFirst(l, c) == [l[0]] + RemoveFirst(t, c);
      if it == -1 {
        assert IndexOf(l, c) == -1;
        assert [l[0]] + t == l;
      } else {
        assert IndexOf(l, c) == it + 1;
        ConsSplice(l[0], t, it);
        assert [l[0]] + t == l;
      }
    }
  }

  /** Dropping one more (live) cell from a list without repeats removes its one occurrence. */
  lemma {:induction false} WithoutOneMore(l: seq<Cell>, dead: set<Cell>, c: Cell)
    requires Distinct(l) && c !in dead
    ensures Without(l, dead + {c}) == RemoveFirst(Without(l, dead), c)
  {
    if l != [] {
      var t := l[1..];
      DistinctTail(l);
      WithoutOneMore(t, dead, c);
      if l[0] == c {
        WithoutAbsent(t, dead, c);
      }
    }
  }

  lemma ConsSplice(h: Cell, s: seq<Cell>, i: nat)
    requires i < |s|
    ensures [h] + (s[..i] + s[i + 1..]) == ([h] + s)[..i + 1] + ([h] + s)[i + 2..]
  {
    var w := [h] + s;
    assert w[..i + 1] == [h] + s[..i];
    assert w[i + 2..] == s[i + 1..];
  }

  /** Dropping a cell the list does not hold changes nothing. */
  lemma {:induction false} WithoutAbsent(l: seq<Cell>, dead: set<Cell>, c: Cell)
    requires c !in l
    ensures Without(l, dead + {c}) == Without(l, dead)
  {
    if l != [] {
      assert c !in l[1..];
      WithoutAbsent(l[1..], dead, c);
    }
  }

  /** A list none of whose cells is dropped comes back whole. */
  lemma {:induction false} WithoutNothing(l: seq<Cell>, dead: set<Cell>)
    requires forall i :: 0 <= i < |l| ==> l[i] !in dead
    ensures Without(l, dead) == l
  {
    if l != [] {
      assert l == [l[0]] + l[1..];
      WithoutNothing(l[1..], dead);
    }
  }

  // ---------------------------------------------------------------------
  // The solver's view of the marks.

  /** A side's marks as solver cell indices, in placement order. */
  function Indices(l: seq<Cell>): (r: seq<int>)
    ensures |r| == |l|
    ensures AllOnBoard(l) ==> forall i :: 0 <= i < |l| ==> 0 <= r[i] < 9 && PosToBoard(r[i]) == l[i]
  {
    var r := seq(|l|, i requires 0 <= i < |l| => BoardToPos(l[i].0, l[i].1));
    assert AllOnBoard(l) ==> forall i :: 0 <= i < |l| ==> 0 <= r[i] < 9 && PosToBoard(r[i]) == l[i] by {
      if AllOnBoard(l) {
        forall i | 0 <= i < |l| ensures 0 <= r[i] < 9 && PosToBoard(r[i]) == l[i] {
          assert l[i] in l;
        }
      }
    }
    r
  }

  /** On the board, a cell's index is in the queue exactly when the cell is in the list. */
  lemma IndicesHold(l: seq<Cell>, c: Cell)
    requires AllOnBoard(l)
    requires OnBoard(c)
    ensures BoardToPos(c.0, c.1) in Indices(l) <==> c in l
  {
    var q := Indices(l);
    if BoardToPos(c.0, c.1) in q {
      var i :| 0 <= i < |q| && q[i] == BoardToPos(c.0, c.1);
      BoardToPosInjective(l[i], c);
    }
    if c in l {
      var i :| 0 <= i < |l| && l[i] == c;
      assert q[i] == BoardToPos(c.0, c.1);
    }
  }

  /** The solver position with `mover` to move, holding marks `own`, against `waiting`. */
  function Position(mover: Player, own: seq<Cell>, waiting: seq<Cell>): (s: State)
    ensures s.o.Cells? && s.x.Cells? && s.turn == mover
    ensures QueueOf(s, mover) == Indices(own) && QueueOf(s, Other(mover)) == Indices(waiting)
  {
    match mover
    case O => State(Cells(Indices(own)), Cells(Indices(waiting)), O)
    case X => State(Cells(Indices(waiting)), Cells(Indices(own)), X)
  }

  /**
   * The counters strict alternation gives a side's marks: the newest has
   * `newest` left and each older one two fewer.
   */
  predicate Aged(l: seq<Cell>, counts: map<Cell, int>, newest: int) {
    forall i :: 0 <= i < |l| ==> l[i] in counts && counts[l[i]] == newest - 2 * (|l| - 1 - i)
  }

  /** With alternating counters no waiting mark expires, and the survivors are aged one step. */
  lemma {:induction false} WaitingMarksSurvive(l: seq<Cell>, counts: map<Cell, int>)
    requires Marks(l, counts) && Aged(l, counts, Lifetime)
    ensures Without(l, Expired(counts)) == l
    ensures Aged(l, Decremented(counts), Lifetime - 1)
  {
    WithoutNothing(l, Expired(counts));
  }

  /** With alternating counters only a third mark of the mover expires, and it is the oldest. */
  lemma {:induction false} MoverSurvivors(l: seq<Cell>, counts: map<Cell, int>)
    requires Marks(l, counts) && Aged(l, counts, Lifetime - 1)
    ensures Without(l, Expired(counts)) == Survivors(l, counts)
    ensures Survivors(l, counts) == if |l| == 3 then l[1..] else l
  {
    var e := Expired(counts);
    if |l| == 3 {
      assert l[0] in e;
      assert l == [l[0]] + l[1..];
      forall i | 0 <= i < |l[1..]| ensures l[1..][i] !in e {
        assert l[1..][i] == l[i + 1];
      }
      WithoutNothing(l[1..], e);
    } else {
      WithoutNothing(l, e);
    }
  }

  /**
   * With alternating counters, counter expiry and first-in-first-out eviction
   * together do what the solver's `PushQueue` does to the mover's queue.
   */
  lemma {:induction false} MoverMarksFollowPushQueue(l: seq<Cell>, counts: map<Cell, int>, cell: Cell)
    requires Marks(l, counts) && Aged(l, counts, Lifetime - 1) && OnBoard(cell)
    ensures Indices(NextOwn(l, counts, cell)) == PushQueue(Indices(l), BoardToPos(cell.0, cell.1))
  {
    MoverSurvivors(l, counts);
    var q := Indices(l);
    var m := BoardToPos(cell.0, cell.1);
    var r := Indices(NextOwn(l, counts, cell));
    var p := PushQueue(q, m);
    if |l| == 3 {
      assert p == (q + [m])[1..];
      assert NextOwn(l, counts, cell) == l[1..] + [cell];
    } else {
      assert p == q + [m];
      assert NextOwn(l, counts, cell) == l + [cell];
    }
  }

  /** After the move the mover's marks carry the counters of the side that waits. */
  lemma {:induction false} MoverMarksAge(l: seq<Cell>, counts: map<Cell, int>, cell: Cell)
    requires Marks(l, counts) && Aged(l, counts, Lifetime - 1) && cell !in l
    ensures Aged(NextOwn(l, counts, cell), NextOwnCounts(l, counts, cell), Lifetime)
  {
    MoverSurvivors(l, counts);
    var d := if |l| == 3 then 1 else 0;
    var r := NextOwn(l, counts, cell);
    var rc := NextOwnCounts(l, counts, cell);
    assert rc == Decremented(counts)[cell := Lifetime];
    forall i | 0 <= i < |r| ensures r[i] in rc && rc[r[i]] == Lifetime - 2 * (|r| - 1 - i) {
      if i < |r| - 1 {
        assert r[i] == l[i + d];
        assert l[i + d] != cell;
      }
    }
  }

  /**
   * From an alternating position, placing on a free cell is the solver's move
   * on the same position: the waiting side keeps every mark, and the result is
   * either the solver's next position or, when the mover completes a line,
   * the sentinel in which the waiting side has lost.
   */
  lemma PlacementIsApplyMove(mover: Player, own: seq<Cell>, ownCounts: map<Cell, int>,
                             waiting: seq<Cell>, waitingCounts: map<Cell, int>, cell: Cell)
    requires Marks(own, ownCounts) && Aged(own, ownCounts, Lifetime - 1)
    requires Marks(waiting, waitingCounts) && Aged(waiting, waitingCounts, Lifetime)
    requires OnBoard(cell) && cell !in own && cell !in waiting
    ensures Without(waiting, Expired(waitingCounts)) == waiting
    ensures var next := NextOwn(own, ownCounts, cell);
      ApplyMove(Position(mover, own, waiting), BoardToPos(cell.0, cell.1)) ==
        Success(if HasWin(Indices(next)) then Sentinel(Other(mover)) else Position(Other(mover), waiting, next))
  {
    WaitingMarksSurvive(waiting, waitingCounts);
    MoverMarksFollowPushQueue(own, ownCounts, cell);
    NextOwnKeepsMarks(own, ownCounts, cell);
    IndicesHold(own, cell);
    IndicesHold(waiting, cell);
  }

  // ---------------------------------------------------------------------
  // The state `placeMark` reads and writes, as a value.

  /** The side to move, both sides' marks (oldest first) and both sides' vanish counters. */
  datatype Play = Play(turn: Player, o: seq<Cell>, x: seq<Cell>, oCounts: map<Cell, int>, xCounts: map<Cell, int>)
  {
    /** The marks of `p`. */
    function Own(p: Player): seq<Cell> {
      if p == O then o else x
    }

    /** The counters of `p`'s marks. */
    function CountsOf(p: Player): map<Cell, int> {
      if p == O then oCounts else xCounts
    }
  }

  /** Both lists are well formed, with counters for exactly their marks, and share no cell. */
  predicate WellFormed(s: Play) {
    Marks(s.o, s.oCounts) && Marks(s.x, s.xCounts) && (forall c :: c in s.o ==> c !in s.x)
  }

  /** The counters are those strict alternation from an empty board gives. */
  predicate Alternating(s: Play) {
    Aged(s.Own(s.turn), s.CountsOf(s.turn), Lifetime - 1) &&
    Aged(s.Own(Other(s.turn)), s.CountsOf(Other(s.turn)), Lifetime)
  }

  /** The same position in the solver's terms (`getCurrentState` in game.js). */
  function SolverState(s: Play): (r: State)
    ensures r == Position(s.turn, s.Own(s.turn), s.Own(Other(s.turn)))
    ensures r.o.Cells? && r.x.Cells? && |r.o.cells| == |s.o| && |r.x.cells| == |s.x|
    ensures WellFormed(s) ==>
      ValidState(r) &&
      (forall i :: 0 <= i < |s.o| ==> PosToBoard(r.o.cells[i]) == s.o[i]) &&
      (forall i :: 0 <= i < |s.x| ==> PosToBoard(r.x.cells[i]) == s.x[i])
  {
    var r := State(Cells(Indices(s.o)), Cells(Indices(s.x)), s.turn);
    assert WellFormed(s) ==> ValidState(r) by {
      if WellFormed(s) {
        IndicesAreValidQueue(s.o);
        IndicesAreValidQueue(s.x);
        forall m | m in r.o.cells ensures m !in r.x.cells {
          var i :| 0 <= i < |r.o.cells| && r.o.cells[i] == m;
          IndicesHold(s.x, s.o[i]);
        }
      }
    }
    r
  }

  /** One of `placeMark`'s ageing loops, for `p`: every counter drops by one and a mark whose counter runs out is gone. */
  function AgingSide(s: Play, p: Player): (r: Play)
    ensures r.turn == s.turn && r.Own(Other(p)) == s.Own(Other(p)) && r.CountsOf(Other(p)) == s.CountsOf(Other(p))
    ensures r.Own(p) == Without(s.Own(p), Expired(s.CountsOf(p))) && r.CountsOf(p) == Decremented(s.CountsOf(p))
  {
    match p
    case O => s.(o := Without(s.o, Expired(s.oCounts)), oCounts := Decremented(s.oCounts))
    case X => s.(x := Without(s.x, Expired(s.xCounts)), xCounts := Decremented(s.xCounts))
  }

  /** `placeMark`'s two ageing loops, O's marks first. */
  function Aging(s: Play): (r: Play)
    ensures r.turn == s.turn
  {
    AgingSide(AgingSide(s, O), X)
  }

  /** `placeMark`'s branch for the mover: its new mark goes last, after evicting the oldest of three, and the turn passes. */
  function Pushing(s: Play, cell: Cell): (r: Play)
    ensures r.turn == Other(s.turn)
  {
    match s.turn
    case O => Play(X, Pushed(s.o, cell), s.x, PushedCounts(s.o, s.oCounts, cell), s.xCounts)
    case X => Play(O, s.o, Pushed(s.x, cell), s.oCounts, PushedCounts(s.x, s.xCounts, cell))
  }

  /**
   * `placeMark` on the free cell `cell`: both sides' marks age, the mover's
   * oldest is evicted when three are left, the mover's new mark goes last
   * with a full counter, and the turn passes.
   */
  function AfterPlacing(s: Play, cell: Cell): (r: Play)
    ensures r.turn == Other(s.turn)
    ensures r.Own(s.turn) == NextOwn(s.Own(s.turn), s.CountsOf(s.turn), cell)
    ensures r.CountsOf(s.turn) == NextOwnCounts(s.Own(s.turn), s.CountsOf(s.turn), cell)
    ensures r.Own(Other(s.turn)) == Without(s.Own(Other(s.turn)), Expired(s.CountsOf(Other(s.turn))))
    ensures r.CountsOf(Other(s.turn)) == Decremented(s.CountsOf(Other(s.turn)))
  {
    Pushing(Aging(s), cell)
  }

  /** Ageing one side keeps both sides well formed and frees no cell it did not hold. */
  lemma AgingKeepsWellFormed(s: Play, p: Player)
    requires WellFormed(s)
    ensures WellFormed(AgingSide(s, p))
    ensures forall c :: c in AgingSide(s, p).Own(p) ==> c in s.Own(p)
  {
    DecrementKeepsMarks(s.Own(p), s.CountsOf(p));
  }

  /** Placing on a free cell keeps both sides well formed. */
  lemma PushingKeepsWellFormed(s: Play, cell: Cell)
    requires WellFormed(s) && OnBoard(cell) && cell !in s.o && cell !in s.x
    ensures WellFormed(Pushing(s, cell))
  {
    if s.turn == O {
      PushKeepsMarks(s.o, s.oCounts, cell);
    } else {
      PushKeepsMarks(s.x, s.xCounts, cell);
    }
  }

  /** Placing on a free cell keeps both sides well formed, and the new mark is the mover's. */
  lemma PlacingKeepsWellFormed(s: Play, cell: Cell)
    requires WellFormed(s) && OnBoard(cell) && cell !in s.o && cell !in s.x
    ensures WellFormed(AfterPlacing(s, cell))
    ensures cell in AfterPlacing(s, cell).Own(s.turn) && cell !in AfterPlacing(s, cell).Own(Other(s.turn))
  {
    var p := s.turn;
    NextOwnKeepsMarks(s.Own(p), s.CountsOf(p), cell);
    DecrementKeepsMarks(s.Own(Other(p)), s.CountsOf(Other(p)));
  }

  /**
   * From a position reached by strict alternation, placing on a free cell
   * keeps the alternation and is the solver's move on the same position:
   * the result is the solver's next position or, when the mover completes a
   * line, the sentinel in which the side now to move has lost.
   */
  lemma AlternatingPlacementIsApplyMove(s: Play, cell: Cell)
    requires WellFormed(s) && Alternating(s) && OnBoard(cell) && cell !in s.o && cell !in s.x
    ensures Alternating(AfterPlacing(s, cell))
    ensures var r := AfterPlacing(s, cell);
      ApplyMove(SolverState(s), BoardToPos(cell.0, cell.1)) ==
        Success(if HasWin(Indices(r.Own(s.turn))) then Sentinel(r.turn) else SolverState(r))
  {
    var p := s.turn;
    PlacementIsApplyMove(p, s.Own(p), s.CountsOf(p), s.Own(Other(p)), s.CountsOf(Other(p)), cell);
    MoverMarksAge(s.Own(p), s.CountsOf(p), cell);
    WaitingMarksSurvive(s.Own(Other(p)), s.CountsOf(Other(p)));
  }

  // ---------------------------------------------------------------------
  // Lines of the board.

  /** The eight lines in the order `checkWinner` in game.js scans them: rows, columns, diagonal, anti-diagonal. */
  function Line(i: nat): (r: (Cell, Cell, Cell))
    requires i < 8
    ensures OnBoard(r.0) && OnBoard(r.1) && OnBoard(r.2)
    ensures WinLines[i] == (BoardToPos(r.0.0, r.0.1), BoardToPos(r.1.0, r.1.1), BoardToPos(r.2.0, r.2.1))
  {
    if i < 3 then ((i, 0), (i, 1), (i, 2))
    else if i < 6 then ((0, i - 3), (1, i - 3), (2, i - 3))
    else if i == 6 then ((0, 0), (1, 1), (2, 2))
    else ((0, 2), (1, 1), (2, 0))
  }

  /** The board's lines are the solver's winning lines, in the same order. */
  lemma LineIsWinLine(l: seq<Cell>, i: nat)
    requires i < 8 && AllOnBoard(l)
    ensures Covers(Indices(l), WinLines[i]) <==> Line(i).0 in l && Line(i).1 in l && Line(i).2 in l
  {
    var (a, b, c) := Line(i);
    IndicesHold(l, a);
    IndicesHold(l, b);
    IndicesHold(l, c);
  }

  /** A side has a complete line on the board exactly when the solver says its queue wins. */
  lemma LinesAreHasWin(l: seq<Cell>)
    requires AllOnBoard(l)
    ensures HasWin(Indices(l)) <==> exists i :: 0 <= i < 8 && Line(i).0 in l && Line(i).1 in l && Line(i).2 in l
  {
    HasWinIsLineCover(Indices(l));
    forall i | 0 <= i < 8 {
      LineIsWinLine(l, i);
    }
  }

  /** Who holds cell `c` when `p` holds the marks `own` and the other side holds `other`. */
  function Owner(p: Player, own: seq<Cell>, other: seq<Cell>, c: Cell): Option<Player> {
    if c in own then Some(p) else if c in other then Some(Other(p)) else None
  }

  /** A 3x3 board showing exactly the marks of `own` (held by `p`) and of `other`. */
  predicate Shows(board: array2<Option<Player>>, p: Player, own: seq<Cell>, other: seq<Cell>)
    reads board
  {
    board.Length0 == BoardSize && board.Length1 == BoardSize &&
    forall r, c {:trigger board[r, c]} :: 0 <= r < BoardSize && 0 <= c < BoardSize ==> board[r, c] == Owner(p, own, other, (r, c))
  }

  /** The same board seen from the other side. */
  lemma ShowsSwap(board: array2<Option<Player>>, p: Player, own: seq<Cell>, other: seq<Cell>)
    requires forall c :: c in own ==> c !in other
    requires Shows(board, p, own, other)
    ensures Shows(board, Other(p), other, own)
  {
    assert forall c :: Owner(p, own, other, c) == Owner(Other(p), other, own, c);
  }

  /** The three cells of line `i`, as `checkWinner` reports them. */
  function LineCells(i: nat): (r: seq<Cell>)
    requires i < 8
    ensures |r| == 3 && r[0] == Line(i).0 && r[1] == Line(i).1 && r[2] == Line(i).2
  {
    [Line(i).0, Line(i).1, Line(i).2]
  }

  /** The mark shown on an on-board cell of a 3x3 board. */
  function At(board: array2<Option<Player>>, c: Cell): Option<Player>
    requires OnBoard(c) && board.Length0 == BoardSize && board.Length1 == BoardSize
    reads board
  {
    board[c.0, c.1]
  }

  /** Every cell of line `i` shows a mark of `p`. */
  predicate Held(board: array2<Option<Player>>, i: nat, p: Player)
    requires i < 8 && board.Length0 == BoardSize && board.Length1 == BoardSize
    reads board
  {
    At(board, Line(i).0) == Some(p) && At(board, Line(i).1) == Some(p) && At(board, Line(i).2) == Some(p)
  }

  /** `checkWinner`'s test of line `i`: its first cell is marked and the other two match it. */
  predicate Complete(board: array2<Option<Player>>, i: nat)
    requires i < 8 && board.Length0 == BoardSize && board.Length1 == BoardSize
    reads board
  {
    At(board, Line(i).0) != None && At(board, Line(i).0) == At(board, Line(i).1) && At(board, Line(i).1) == At(board, Line(i).2)
  }

  /** On a board showing `own` for `p`, a line is held by `p` exactly when all its cells are in `own`. */
  lemma HeldIsOwned(board: array2<Option<Player>>, p: Player, own: seq<Cell>, other: seq<Cell>, i: nat)
    requires i < 8 && Shows(board, p, own, other)
    ensures Held(board, i, p) <==> Line(i).0 in own && Line(i).1 in own && Line(i).2 in own
  {
    var (a, b, c) := Line(i);
    assert board[a.0, a.1] == Owner(p, own, other, a);
    assert board[b.0, b.1] == Owner(p, own, other, b);
    assert board[c.0, c.1] == Owner(p, own, other, c);
  }

  /** A line passes `checkWinner`'s test exactly when one side holds all of it. */
  lemma CompleteIsHeld(board: array2<Option<Player>>, i: nat)
    requires i < 8 && board.Length0 == BoardSize && board.Length1 == BoardSize
    ensures Complete(board, i) <==> Held(board, i, O) || Held(board, i, X)
  {
    match At(board, Line(i).0)
    case None =>
    case Some(p) =>
      assert Held(board, i, p) <==> Complete(board, i);
      assert !Held(board, i, Other(p));
  }

  /**
   * On a board showing `own` for `p` and `other` for the other side, `p`
   * holds a complete line exactly when the solver's win test accepts `own`
   * as a queue of cell indices.
   */
  lemma {:induction false} HeldLinesAreHasWin(board: array2<Option<Player>>, p: Player, own: seq<Cell>, other: seq<Cell>)
    requires Shows(board, p, own, other) && AllOnBoard(own)
    ensures (exists i :: 0 <= i < 8 && Held(board, i, p)) <==> HasWin(Indices(own))
  {
    LinesAreHasWin(own);
    forall i | 0 <= i < 8
      ensures Held(board, i, p) <==> Line(i).0 in own && Line(i).1 in own && Line(i).2 in own
    {
      HeldIsOwned(board, p, own, other, i);
    }
  }

  /**
   * On a board showing the two lists, some line passes `checkWinner`'s test
   * exactly when the solver's win test accepts one of the two queues.
   */
  lemma {:induction false} CompleteLinesAreHasWin(board: array2<Option<Player>>, o: seq<Cell>, x: seq<Cell>)
    requires Shows(board, O, o, x) && AllOnBoard(o) && AllOnBoard(x)
    requires forall c :: c in o ==> c !in x
    ensures (exists i :: 0 <= i < 8 && Complete(board, i)) <==> HasWin(Indices(o)) || HasWin(Indices(x))
  {
    HeldLinesAreHasWin(board, O, o, x);
    ShowsSwap(board, O, o, x);
    HeldLinesAreHasWin(board, X, x, o);
    forall i | 0 <= i < 8
      ensures Complete(board, i) <==> Held(board, i, O) || Held(board, i, X)
    {
      CompleteIsHeld(board, i);
    }
  }

  /** The counters part-way through an ageing loop: those still `pending` are untouched, the others have dropped by one or gone. */
  function PartlyAged(c0: map<Cell, int>, pending: set<Cell>): map<Cell, int> {
    map c | c in c0 && (c in pending || c0[c] - 1 > 0) :: if c in pending then c0[c] else c0[c] - 1
  }

  lemma AgeingStarts(c0: map<Cell, int>)
    ensures PartlyAged(c0, c0.Keys) == c0 && Expired(c0) - c0.Keys == {}
  {
  }

  lemma AgeingEnds(c0: map<Cell, int>)
    ensures PartlyAged(c0, {}) == Decremented(c0) && Expired(c0) - {} == Expired(c0)
  {
  }

  /** One pass for `k` deletes or decrements its counter, and adds `k` to the expired cells exactly when it deletes. */
  lemma AgeingStep(c0: map<Cell, int>, pending: set<Cell>, k: Cell)
    requires k in pending && pending <= c0.Keys
    ensures var m := PartlyAged(c0, pending);
      k in m && m[k] == c0[k] &&
      PartlyAged(c0, pending - {k}) == if c0[k] - 1 <= 0 then m - {k} else m[k := c0[k] - 1]
    ensures k !in Expired(c0) - pending
    ensures Expired(c0) - (pending - {k}) == if c0[k] - 1 <= 0 then (Expired(c0) - pending) + {k} else Expired(c0) - pending
  {
  }

  /**
   * One pass of an ageing loop, for the counter of `k`: it drops by one; at
   * zero or below it is deleted and, when `k` is in the list, its first
   * occurrence is spliced out and its board cell cleared.
   */
  method AgeMark(board: array2<Option<Player>>, positions: seq<Cell>, counts: map<Cell, int>, k: Cell,
                 ghost p: Player, ghost other: seq<Cell>)
    returns (newPositions: seq<Cell>, newCounts: map<Cell, int>)
    requires Shows(board, p, positions, other)
    requires k in counts && Distinct(positions) && AllOnBoard(positions) && forall c :: c in positions ==> c !in other
    modifies board
    ensures counts[k] - 1 <= 0 ==> newCounts == counts - {k} && newPositions == RemoveFirst(positions, k)
    ensures counts[k] - 1 > 0 ==> newCounts == counts[k := counts[k] - 1] && newPositions == positions
    ensures Shows(board, p, newPositions, other)
  {
    newPositions := positions;
    var newCount := counts[k] - 1;
    if newCount <= 0 {
      newCounts := counts - {k};
      var idx := IndexOf(positions, k);
      SpliceRemovesFirst(positions, k);
      RemoveFirstMembers(positions, k);
      if idx != -1 {
        newPositions := positions[..idx] + positions[idx + 1..];
        assert positions[idx] in positions;
        board[k.0, k.1] := None;
        forall r, c | 0 <= r < BoardSize && 0 <= c < BoardSize
          ensures board[r, c] == Owner(p, newPositions, other, (r, c))
        {
          assert (r, c) != k ==> old(board[r, c]) == Owner(p, positions, other, (r, c));
        }
      }
    } else {
      newCounts := counts[k := newCount];
    }
  }


  /**
   * One of `placeMark`'s two ageing loops, for the marks of `p`: every counter
   * drops by one; a mark whose counter reaches zero loses its counter and,
   * when it is in the list, leaves the list and its board cell is cleared.
   */
  method AgeMarks(board: array2<Option<Player>>, l0: seq<Cell>, c0: map<Cell, int>, ghost p: Player, ghost other: seq<Cell>)
    returns (positions: seq<Cell>, counts: map<Cell, int>)
    requires Shows(board, p, l0, other)
    requires Distinct(l0) && AllOnBoard(l0) && forall c :: c in l0 ==> c !in other
    modifies board
    ensures positions == Without(l0, Expired(c0))
    ensures counts == Decremented(c0)
    ensures Shows(board, p, positions, other)
  {
    counts, positions := c0, l0;
    var pending := counts.Keys;
    AgeingStarts(c0);
    WithoutNothing(l0, Expired(c0) - pending);
    while pending != {}
      invariant pending <= c0.Keys
      invariant counts == PartlyAged(c0, pending)
      invariant positions == Without(l0, Expired(c0) - pending)
      invariant Shows(board, p, positions, other)
      decreases |pending|
    {
      var k :| k in pending;
      AgeingStep(c0, pending, k);
      if c0[k] - 1 <= 0 {
        WithoutOneMore(l0, Expired(c0) - pending, k);
      }
      positions, counts := AgeMark(board, positions, counts, k, p, other);
      pending := pending - {k};
    }
    AgeingEnds(c0);
  }


  /**
   * The branch of `placeMark` for the mover `p`: with three marks down the
   * oldest is taken off the list, the board and the counters; then the new
   * mark goes on the board, at the end of the list, with a full counter.
   */
  method Place(board: array2<Option<Player>>, p: Player, own: seq<Cell>, counts: map<Cell, int>,
               ghost other: seq<Cell>, row: int, col: int)
    returns (positions: seq<Cell>, newCounts: map<Cell, int>)
    requires Shows(board, p, own, other)
    requires Distinct(own) && AllOnBoard(own) && forall c :: c in own ==> c !in other
    requires OnBoard((row, col)) && (row, col) !in own && (row, col) !in other
    modifies board
    ensures positions == Pushed(own, (row, col))
    ensures newCounts == PushedCounts(own, counts, (row, col))
    ensures Shows(board, p, positions, other)
  {
    positions, newCounts := own, counts;
    if |positions| >= 3 {
      var oldest := positions[0];
      assert oldest in own;
      positions := positions[1..];
      board[oldest.0, oldest.1] := None;
      newCounts := newCounts - {oldest};
      forall r, c | 0 <= r < BoardSize && 0 <= c < BoardSize
        ensures board[r, c] == Owner(p, positions, other, (r, c))
      {
        if (r, c) != oldest {
          assert old(board[r, c]) == Owner(p, own, other, (r, c));
          assert (r, c) in own <==> (r, c) in positions by {
            assert own == [oldest] + positions;
          }
        } else {
          DistinctTail(own);
        }
      }
    }
    ghost var before := positions;
    board[row, col] := Some(p);
    positions := positions + [(row, col)];
    newCounts := newCounts[(row, col) := Lifetime];
    forall r, c | 0 <= r < BoardSize && 0 <= c < BoardSize
      ensures board[r, c] == Owner(p, positions, other, (r, c))
    {
      if (r, c) != (row, col) {
        assert (r, c) in positions <==> (r, c) in before;
      }
    }
  }

  /** One ageing loop of `placeMark`, for `p`, on the board and the marks together. */
  method AgeSide(board: array2<Option<Player>>, s: Play, p: Player) returns (r: Play)
    requires WellFormed(s) && Shows(board, O, s.o, s.x)
    modifies board
    ensures r == AgingSide(s, p) && WellFormed(r) && Shows(board, O, r.o, r.x)
    ensures (forall c :: c in r.o ==> c in s.o) && (forall c :: c in r.x ==> c in s.x)
  {
    AgingKeepsWellFormed(s, p);
    if p == O {
      var o, oc := AgeMarks(board, s.o, s.oCounts, O, s.x);
      r := s.(o := o, oCounts := oc);
    } else {
      ShowsSwap(board, O, s.o, s.x);
      var x, xc := AgeMarks(board, s.x, s.xCounts, X, s.o);
      ShowsSwap(board, X, x, s.o);
      r := s.(x := x, xCounts := xc);
    }
  }

  /** `placeMark`'s branch for the side to move, on the board and the marks together. */
  method PlaceMover(board: array2<Option<Player>>, s: Play, row: int, col: int) returns (r: Play)
    requires WellFormed(s) && Shows(board, O, s.o, s.x)
    requires OnBoard((row, col)) && (row, col) !in s.o && (row, col) !in s.x
    modifies board
    ensures r == Pushing(s, (row, col)) && WellFormed(r) && Shows(board, O, r.o, r.x)
    ensures board[row, col] == Some(s.turn)
  {
    PushingKeepsWellFormed(s, (row, col));
    if s.turn == O {
      var o, oc := Place(board, O, s.o, s.oCounts, s.x, row, col);
      r := Play(X, o, s.x, oc, s.xCounts);
    } else {
      ShowsSwap(board, O, s.o, s.x);
      var x, xc := Place(board, X, s.x, s.xCounts, s.o, row, col);
      ShowsSwap(board, X, x, s.o);
      r := Play(O, s.o, x, s.oCounts, xc);
    }
    assert board[row, col] == Owner(O, r.o, r.x, (row, col));
  }

  /**
   * The scan of `checkWinner`: the rows, then the columns, then the diagonal
   * and the anti-diagonal. The first line whose first cell is marked and
   * whose other two cells match it gives the winner and the line's cells;
   * with none, there is no winner and no cells.
   */
  method ScanLines(board: array2<Option<Player>>) returns (w: Option<Player>, cells: seq<Cell>)
    requires board.Length0 == BoardSize && board.Length1 == BoardSize
    ensures w.None? <==> forall i :: 0 <= i < 8 ==> !Complete(board, i)
    ensures w.None? ==> cells == []
    ensures w.Some? ==>
      exists i :: 0 <= i < 8 && Complete(board, i) && Held(board, i, w.value) &&
        (forall j :: 0 <= j < i ==> !Complete(board, j)) && cells == LineCells(i)
  {
    for row := 0 to BoardSize
      invariant forall j :: 0 <= j < row ==> !Complete(board, j)
    {
      if board[row, 0] != None {
        if board[row, 0] == board[row, 1] && board[row, 1] == board[row, 2] {
          assert Complete(board, row) && Held(board, row, board[row, 0].value);
          return board[row, 0], [(row, 0), (row, 1), (row, 2)];
        }
      }
      assert !Complete(board, row);
    }
    for col := 0 to BoardSize
      invariant forall j :: 0 <= j < 3 + col ==> !Complete(board, j)
    {
      if board[0, col] != None {
        if board[0, col] == board[1, col] && board[1, col] == board[2, col] {
          assert Complete(board, 3 + col) && Held(board, 3 + col, board[0, col].value);
          return board[0, col], [(0, col), (1, col), (2, col)];
        }
      }
      assert !Complete(board, 3 + col);
    }
    if board[0, 0] != None {
      if board[0, 0] == board[1, 1] && board[1, 1] == board[2, 2] {
        assert Complete(board, 6) && Held(board, 6, board[0, 0].value);
        return board[0, 0], [(0, 0), (1, 1), (2, 2)];
      }
    }
    assert !Complete(board, 6);
    if board[0, 2] != None {
      if board[0, 2] == board[1, 1] && board[1, 1] == board[2, 0] {
        assert Complete(board, 7) && Held(board, 7, board[0, 2].value);
        return board[0, 2], [(0, 2), (1, 1), (2, 0)];
      }
    }
    assert !Complete(board, 7);
    return None, [];
  }

  // ---------------------------------------------------------------------
  // The state object.

  class GameState {
    var board: array2<Option<Player>>
    var currentPlayer: Player
    var oPositions: seq<Cell>
    var xPositions: seq<Cell>
    var oVanishCount: map<Cell, int>
    var xVanishCount: map<Cell, int>
    var gameOver: bool
    var winner: Option<Player>
    var winningCells: seq<Cell>

    /** The side to move, the marks and the counters, as a value. */
    function Snapshot(): Play
      reads this
    {
      Play(currentPlayer, oPositions, xPositions, oVanishCount, xVanishCount)
    }

    /** Both lists are well formed and share no cell. */
    predicate Sides()
      reads this
    {
      WellFormed(Snapshot())
    }

    /** The board shows exactly the marks in the two lists, which are well formed and disjoint. */
    predicate Valid()
      reads this, board
    {
      Sides() && Shows(board, O, oPositions, xPositions)
    }

    /** The counters are those of strict alternation starting from an empty board. */
    predicate Synchronized()
      reads this
    {
      Alternating(Snapshot())
    }

    constructor()
      ensures Valid() && Synchronized() && fresh(board)
      ensures currentPlayer == O && oPositions == [] && xPositions == []
      ensures oVanishCount == map[] && xVanishCount == map[]
      ensures !gameOver && winner == None && winningCells == []
    {
      board := new Option<Player>[BoardSize, BoardSize]((r, c) => None);
      currentPlayer := O;
      oPositions := [];
      xPositions := [];
      oVanishCount := map[];
      xVanishCount := map[];
      gameOver := false;
      winner := None;
      winningCells := [];
    }

    /** Back to the opening: an empty board, no marks or counters, O to move, no result. */
    method Reset()
      modifies this
      ensures Valid() && Synchronized() && fresh(board)
      ensures currentPlayer == O && oPositions == [] && xPositions == []
      ensures oVanishCount == map[] && xVanishCount == map[]
      ensures !gameOver && winner == None && winningCells == []
    {
      board := new Option<Player>[BoardSize, BoardSize]((r, c) => None);
      currentPlayer := O;
      oPositions := [];
      xPositions := [];
      oVanishCount := map[];
      xVanishCount := map[];
      gameOver := false;
      winner := None;
      winningCells := [];
    }

    /** The position in the solver's terms: both lists as cell indices, in order, and the side to move. */
    function CurrentState(): State
      reads this
    {
      SolverState(Snapshot())
    }

    /** One of `placeMark`'s ageing loops, over the marks of `p`. */
    method Age(p: Player)
      requires Valid()
      modifies this, board
      ensures Valid() && board == old(board)
      ensures Snapshot() == AgingSide(old(Snapshot()), p)
      ensures (forall c :: c in oPositions ==> c in old(oPositions)) && (forall c :: c in xPositions ==> c in old(xPositions))
      ensures gameOver == old(gameOver) && winner == old(winner) && winningCells == old(winningCells)
    {
      var r := AgeSide(board, Snapshot(), p);
      oPositions, xPositions, oVanishCount, xVanishCount := r.o, r.x, r.oCounts, r.xCounts;
    }

    /** `placeMark`'s placement on the free cell (row, col), after the ageing. */
    method Put(row: int, col: int)
      requires Valid() && OnBoard((row, col)) && (row, col) !in oPositions && (row, col) !in xPositions
      modifies this, board
      ensures Valid() && board == old(board) && board[row, col] == Some(old(currentPlayer))
      ensures Snapshot() == Pushing(old(Snapshot()), (row, col))
      ensures gameOver == old(gameOver) && winner == old(winner) && winningCells == old(winningCells)
    {
      var r := PlaceMover(board, Snapshot(), row, col);
      currentPlayer, oPositions, xPositions, oVanishCount, xVanishCount := r.turn, r.o, r.x, r.oCounts, r.xCounts;
    }

    /**
     * Places the mover's mark on (row, col). An occupied or off-board column
     * is refused with nothing changed; otherwise every mark ages, the mover's
     * oldest mark is evicted when three remain, the new mark gets the full
     * lifetime, and the turn passes. From a position reached by strict
     * alternation this is the solver's move on the same position.
     */
    method PlaceMark(row: int, col: int) returns (placed: bool)
      requires Valid() && 0 <= row < BoardSize
      modifies this, board
      ensures Valid() && board == old(board)
      ensures placed <==> 0 <= col < BoardSize && old(board[row, col]).None?
      ensures !placed ==> unchanged(this) && unchanged(board)
      ensures placed ==>
        Snapshot() == AfterPlacing(old(Snapshot()), (row, col)) && board[row, col] == Some(old(currentPlayer))
      ensures gameOver == old(gameOver) && winner == old(winner) && winningCells == old(winningCells)
      ensures placed && old(Synchronized()) ==>
        Synchronized() &&
        ApplyMove(old(CurrentState()), BoardToPos(row, col)) ==
          Success(if HasWin(Indices(Snapshot().Own(old(currentPlayer)))) then Sentinel(currentPlayer) else CurrentState())
    {
      if !(0 <= col < BoardSize) || board[row, col] != None {
        return false;
      }
      ghost var s0 := Snapshot();
      assert (row, col) !in oPositions && (row, col) !in xPositions by {
        assert board[row, col] == Owner(O, oPositions, xPositions, (row, col));
      }
      Age(O);
      Age(X);
      Put(row, col);
      placed := true;
      if Alternating(s0) {
        AlternatingPlacementIsApplyMove(s0, (row, col));
      }
    }

    /**
     * `checkWinner`: records in `winningCells` the first complete line in
     * scan order and returns its mark; with none, `winningCells` is left
     * empty and there is no winner.
     */
    method CheckWinner() returns (w: Option<Player>)
      requires board.Length0 == BoardSize && board.Length1 == BoardSize
      modifies this`winningCells
      ensures w.None? <==> forall i :: 0 <= i < 8 ==> !Complete(board, i)
      ensures w.None? ==> winningCells == []
      ensures w.Some? ==>
        exists i :: 0 <= i < 8 && Complete(board, i) && Held(board, i, w.value) &&
          (forall j :: 0 <= j < i ==> !Complete(board, j)) && winningCells == LineCells(i)
    {
      var cells;
      w, cells := ScanLines(board);
      winningCells := cells;
      assert forall i :: 0 <= i < 8 ==>
        Complete(board, i) == old(Complete(board, i)) && Held(board, i, O) == old(Held(board, i, O)) && Held(board, i, X) == old(Held(board, i, X));
    }
  }

  /** Distinct cells of the board give distinct indices. */
  lemma IndicesAreValidQueue(l: seq<Cell>)
    requires |l| <= 3 && Distinct(l) && AllOnBoard(l)
    ensures ValidQueue(Indices(l))
  {
    DistinctPairs(l);
    forall i, j | 0 <= i < j < |l| ensures Indices(l)[i] != Indices(l)[j] {
      BoardToPosInjective(l[i], l[j]);
    }
  }
}
