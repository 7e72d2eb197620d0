# Vanishing tic-tac-toe: the solver and the board, in Dafny

This project models the core of a vanishing tic-tac-toe web game. In this
variant a player holds at most three marks, and placing a fourth removes that
player's oldest mark. Because of that, a game can go on forever.

The solver (solver.js) does three things:
- It builds the graph of every position reachable from the two openings: an
  empty board with O to move, and one with X to move.
- It labels each position WIN, LOSS or DRAW for the player to move. This is a
  retrograde analysis that counts the resolved moves, since the graph has
  cycles.
- It computes how many plies remain under best play, by raising the
  distances monotonically until they reach a fixed point.

Its queries read these tables back and rank the moves of a position: the
quickest win, the slowest loss, or a move that keeps the draw.

The board object (class `GameState` of game.js) keeps a 3x3 board, each
side's marks in placement order, and a counter for every mark. Placing a mark
ages every mark, removes the expired ones, evicts the mover's oldest mark when
three remain, and passes the turn. `checkWinner` scans the eight lines.

Modules, one per file:

| file | module | models |
|---|---|---|
| wrappers.dfy | Wrappers | `Option` for `null`/`undefined`, `Result` for a call that throws |
| rules.dfy | Rules | `hasWin`, `legalMoves`, `applyMove`, `winnerFromTerminal`, and the finite set of well-formed positions |
| state_key.dfy | Keys | `_stateKey` and `_parseStateKey`, with their round trip |
| graphs.dfy | Graphs | the successor and predecessor lists of the arena, and what a sound WIN/LOSS/DRAW labelling is |
| builder.dfy | Builder | `_buildGraph`, the breadth-first search |
| outcomes.dfy | Outcomes | `_solveOutcomes`, the labelling pass |
| distances.dfy | Distances | `_solveDistances`, the distance pass |
| solver.dfy | Solving | the solver class: its constructor, `evaluate`, `distanceToEnd`, `_compareKeys`, `bestMove`, `getBestMoves` |
| policy.dfy | Policy | what the move ranking achieves on the solved tables |
| game.dfy | Game | class `GameState`: `placeMark`, `boardToPos`, `posToBoard`, `getCurrentState`, `checkWinner`, `reset` |

How solver.js is represented:
- **Vertex numbers.** The solver's maps keyed by state text become
  sequences indexed by vertex numbers, with a map from position to number.
  `Keys.KeysAreUnique` and `Keys.KeyRoundTrip` show that keying by text and
  keying by position agree.
- **Vertex order.** The sentinels are numbered 0 and 1, the openings 2 and 3,
  and every other position in order of discovery. solver.js first fills its
  maps in discovery order and adds the sentinels last. Apart from the two
  sentinels, both passes therefore visit the vertices in the same order as
  solver.js.
- **Ghost ranks.** The ghost `rank` of a labelled vertex is the step at which
  its label was decided. WIN and LOSS labels are justified by labels decided
  before them. The same ranks bound the distances, which is why the distance
  loop ends.
- **Live vertices.** A live vertex is neither a sentinel nor a DRAW
  vertex. Only live vertices enter the distance queue. The *candidate* of a
  live vertex is the value the distance equations ask of it under the current
  table.

On a position the search never reached, `bestMove` (solver.js:421-491) does
not fail: it reads an undefined label, so it ranks the moves by the DRAW rule.
`Solving.MoveKey` does the same.

## Model

| member | source | states |
|---|---|---|
| Rules.Other | solver.js:47-67 | the side that moves next is never the side that just moved |
| Rules.Sentinel | solver.js:9-10 | the sentinel of a loser is TERM_O or TERM_X, with no queues and the loser to move |
| Rules.LineFrom | solver.js:17-21 | the scan from line `i` is true exactly when some later winning line has all three cells in the queue |
| Rules.HasWin | solver.js:12-23 | fewer than three marks never win; otherwise the queue wins exactly when it covers one of the eight lines |
| Rules.ThreeDistinctNeedThree | solver.js:13-15 | three different cells cannot all sit in a queue shorter than three |
| Rules.HasWinIsLineCover | solver.js:12-23 | the length guard never changes the answer: a queue wins exactly when it covers a line |
| Rules.FreeFrom | solver.js:28-32 | the scan from cell `p` lists the free cells at or above `p`, ascending |
| Rules.LegalMoves | solver.js:25-34 | the moves are exactly the cells 0..8 that neither queue holds, in strictly ascending order |
| Rules.PushQueue | solver.js:48-51 | the new mark goes last, and the oldest is dropped exactly when the queue already held three |
| Rules.ApplyMove | solver.js:36-45 | a terminal state and an occupied cell are refused, each exactly in its own case |
| Rules.ApplyMoveOutcome | solver.js:47-67 | a played move pushes the mark onto the mover's queue; a line gives the sentinel of the other side, otherwise the other side moves and keeps its queue |
| Rules.EightLines | solver.js:3-7 | `WIN_LINES` holds exactly the eight lines of the board: every entry is a row, a column or a diagonal, and every row, column and diagonal is an entry |
| Rules.WinnerFromTerminal | solver.js:72-79 | there is a winner exactly for a sentinel, and it is the side not to move |
| Rules.LegalMovesSucceed | solver.js:25-45 | on the nine cells, a move is listed by `legalMoves` exactly when `applyMove` accepts it |
| Rules.WinningMoveNamesMover | solver.js:52-54 | a move that ends the game completed a line, and `winnerFromTerminal` names its mover |
| Rules.PushQueueKeepsValid | solver.js:48-51 | pushing a free cell keeps a queue of at most three distinct cells, holding nothing but the old cells and the new one |
| Rules.ApplyMoveKeepsValid | solver.js:36-70 | legal moves keep positions well formed |
| Rules.SmallQueue | solver.js:48-51 | every well-formed queue is one of the finitely many short queues |
| Rules.ValidInUniverse | solver.js:153-185 | every well-formed position lies in one finite set, which bounds the search |
| Keys.DigitChar | solver.js:374 | a digit value is written as a decimal digit character |
| Keys.NatText | solver.js:374 | a natural number is written as a non-empty run of digits |
| Keys.DigitsRoundTrip | solver.js:374 | reading the digits back gives the number |
| Keys.IntText | solver.js:374 | an integer's text starts with a digit or a minus sign and holds neither ',' nor '\|' |
| Keys.IntRoundTrip | solver.js:396 | `Number` applied to an integer's text gives the integer back |
| Keys.FirstIndex | solver.js:395 | the first separator: it is at the returned index and nowhere before it |
| Keys.Split | solver.js:395-397 | splitting yields at least one piece |
| Keys.SplitJoin | solver.js:390-397 | splitting a join of separator-free pieces gives the pieces back |
| Keys.Texts | solver.js:374 | each cell is written by `IntText`, in order |
| Keys.ParseInts | solver.js:396-397 | a successful read gives one number per piece |
| Keys.IntsRoundTrip | solver.js:374-397 | reading the texts of a cell list gives the list back |
| Keys.JoinStartsWithFirst | solver.js:374 | a join begins with the first piece's first character |
| Keys.JoinHasNo | solver.js:374 | a join holds no character that is neither the separator nor in a piece |
| Keys.QueueRoundTrip | solver.js:366-397 | a queue's text has no '\|', and reading it back gives the queue (`null`, empty, or the cells) |
| Keys.StateKey | solver.js:364-391 | the key is exactly three '\|'-separated fields: the O queue's text, the X queue's text and the turn |
| Keys.ParseStateKey | solver.js:393-399 | a key written by `_stateKey` reads back as the position it was written from |
| Keys.KeyRoundTrip | solver.js:364-399 | `_parseStateKey(_stateKey(s))` is `s` for every position |
| Keys.KeysAreUnique | solver.js:364-391 | different positions never share a key |
| Graphs.EdgeHasPred | solver.js:173-174 | every move into `t` is listed among `t`'s predecessors |
| Graphs.PredHasEdge | solver.js:173-174 | every listed predecessor has a move into the vertex |
| Graphs.EdgeOfPred | solver.js:173-174 | a listed predecessor's move into the vertex is found at a returned index |
| Graphs.AddVertex | solver.js:176-178 | a new vertex with no moves keeps the lists well formed |
| Graphs.AddEdge | solver.js:173-174 | recording a move both forwards and backwards keeps the lists well formed |
| Graphs.AddEdgeAt | solver.js:173-174 | after one move from `u` to `v` is appended both ways, every pair of vertices has as many forward entries as backward ones |
| Graphs.CountIn | solver.js:209-212 | the number of listed moves into a set lies between 0 and the number of moves |
| Graphs.CountNone | solver.js:209-212 | a list with no entry in the set counts zero |
| Graphs.CountAdd | solver.js:236-237 | adding a vertex to the set adds its multiplicity among the moves |
| Graphs.CountFull | solver.js:238-240 | when every move counts, every move reaches the set |
| Graphs.CountShort | solver.js:246-251 | when not every move counts, some move leaves the set |
| Builder.ChainExtend | solver.js:167-178 | a run followed by one more step is a run |
| Builder.ChainStaysIn | solver.js:153-185 | a set that holds the openings and is closed under moves holds the end of every run |
| Builder.FoundGrows | solver.js:176-179 | numbering the target of a legal move of a numbered position keeps every numbered position reachable |
| Builder.ReachStep | solver.js:167-178 | one legal move from a reachable position reaches its target |
| Builder.NumberingClosed | solver.js:167-180 | once every move of every numbered live position is recorded, a legal move's target is numbered |
| Builder.NewVertex | solver.js:176-178 | numbering a new position keeps the table and its lists well formed |
| Builder.NewEdge | solver.js:173-174 | recording the `k`-th move of the expanded position keeps the invariant one move further on |
| Builder.EdgeKeepsWellFormed | solver.js:173-174 | an edge recorded both ways keeps the lists well formed |
| Builder.EdgeKeepsComplete | solver.js:173-174 | an edge does not disturb the positions already fully expanded |
| Builder.EdgeKeepsEmpty | solver.js:173-174 | an edge leaves the positions not yet expanded without moves |
| Builder.EdgeExtends | solver.js:173-174 | the edges of the expanded position follow its moves in order |
| Builder.Extend | solver.js:176-178 | appending the target of the `k`-th move to the expanded position's edges keeps them its first `k`+1 moves, in order |
| Builder.Advance | solver.js:160-180 | once all its moves are recorded, the front position is fully expanded |
| Builder.SkipSentinel | solver.js:162-164 | a sentinel in the queue is passed over with nothing recorded |
| Builder.Shrinks | solver.js:153-185 | when the arena grows, fewer positions of the finite universe are left unnumbered, so the search ends |
| Builder.FollowNew | solver.js:167-179 | a move to a new position numbers it, queues it and records the edge |
| Builder.FollowOld | solver.js:167-176 | a move to a numbered position or a sentinel records only the edge |
| Builder.Follow | solver.js:167-180 | one move of the expanded position: the arena grows by at most that target, which is the move's result, and the edge is recorded |
| Builder.Expand | solver.js:160-180 | expanding the front position records every one of its moves and keeps every numbered position reachable |
| Builder.Begin | solver.js:136-147 | before the search, the sentinels and openings are numbered and nothing is expanded |
| Builder.NumberedIffReachable | solver.js:135-194 | at the end, a position is numbered exactly when it is a sentinel or is reachable from an opening by legal moves |
| Builder.OpeningsReachable | solver.js:143-147 | the two openings are reachable |
| Builder.BeginArena | solver.js:136-147 | the first four positions are numbered 0..3 |
| Builder.BeginGraph | solver.js:136-147 | the first four positions have no edges yet |
| Builder.BuildGraph | solver.js:135-194 | sentinels numbered 0 and 1 and openings 2 and 3; every position numbered is well formed; each live position's edges are exactly its legal moves in order, each recorded backwards; the numbered positions are exactly the sentinels and the reachable positions |
| Outcomes.SettledResolves | solver.js:246-251 | turning every unresolved label into DRAW completes a settled labelling into a sound one |
| Outcomes.SolveOutcomes | solver.js:196-252 | the labels are sound: sentinels LOSS, WIN only with a move to an earlier LOSS, LOSS only when every move reaches an earlier WIN, DRAW only with no move to LOSS and either no move at all or a move to DRAW |
| Outcomes.KeptLoweredStep | solver.js:224-242 | deciding an unresolved vertex keeps every earlier label, and lowering a counter raises none |
| Outcomes.KeptLoweredTrans | solver.js:218-244 | kept labels and lowered counters compose over steps |
| Outcomes.DecideLabelled | solver.js:230-241 | deciding a vertex WIN with a move to LOSS, or LOSS with every move to WIN, keeps the labelling justified |
| Outcomes.Undisturbed | solver.js:230-241 | deciding one vertex leaves every other label justified |
| Outcomes.DecideBooks | solver.js:230-241 | a decided vertex joins the back of the queue with the next rank and leaves the set of unresolved vertices |
| Outcomes.SpreadStep | solver.js:223-243 | a LOSS vertex taken from the queue has every predecessor resolved |
| Outcomes.WinsStep | solver.js:218-221 | taking the front vertex off the queue adds it to the set of dequeued WIN vertices exactly when it is WIN |
| Outcomes.CountedDecided | solver.js:230-241 | deciding a vertex keeps the counters' invariant |
| Outcomes.CountedSkip | solver.js:226-228 | a resolved predecessor leaves the counters' invariant as it was |
| Outcomes.CountedDown | solver.js:236-237 | counting down an unresolved predecessor keeps the counters' invariant |
| Outcomes.CountedStep | solver.js:224-243 | handling every move into a WIN vertex is the same as adding it to the counted set |
| Outcomes.RunOut | solver.js:236-240 | a counter that reaches zero means every move of the vertex reaches a WIN vertex |
| Outcomes.Drained | solver.js:218-244 | with the queue empty, an unresolved vertex has no move to LOSS, and it has a move to another unresolved vertex unless it has none |
| Outcomes.StepWin | solver.js:230-233 | an unresolved predecessor of a LOSS vertex is decided WIN |
| Outcomes.StepLoss | solver.js:236-240 | an unresolved predecessor whose last counted move reaches a WIN vertex is decided LOSS |
| Outcomes.StepDown | solver.js:236-237 | otherwise its counter drops by one |
| Outcomes.StepSkip | solver.js:226-228 | a resolved predecessor is only passed over |
| Outcomes.Visit | solver.js:224-243 | one predecessor: the invariant holds one predecessor further on, no decided label changes and no counter rises |
| Outcomes.Learn | solver.js:230-242 | an unresolved predecessor becomes WIN, LOSS or counted down; no decided label changes and no counter rises |
| Outcomes.Relax | solver.js:219-243 | all predecessors of the front vertex are told its label, keeping decided labels and not raising counters |
| Outcomes.RoundStart | solver.js:219-224 | a round starts with none of the predecessors seen |
| Outcomes.RoundEnd | solver.js:224-243 | after a round, the front vertex's predecessors are handled |
| Outcomes.StepHead | solver.js:218-244 | taking the front vertex moves the processed ranks on by one |
| Outcomes.Propagate | solver.js:197-244 | once the queue is empty, the labels are settled: the sentinels lose, each WIN and LOSS label is justified by earlier labels, and an unresolved vertex has no move to LOSS and a move to another unresolved vertex unless it has none. The loop invariant states that no decided label changes and no counter rises |
| Outcomes.Start | solver.js:197-216 | with only the sentinels decided (LOSS) and queued, and every counter at the number of moves, the invariant holds |
| Distances.Vals | solver.js:280-289 | no more values are gathered than there are moves |
| Distances.MinOf | solver.js:293 | `Math.min`: an element no greater than any other |
| Distances.MaxOf | solver.js:311 | `Math.max`: an element no smaller than any other |
| Distances.CandidateOf | solver.js:276-315 | a candidate, when there is one, is at least 1 |
| Distances.Candidate | solver.js:276-315 | the scan of the successors computes the candidate: 1 + the least LOSS distance for WIN, 1 + the greatest WIN distance for LOSS, none for DRAW or when nothing is gathered |
| Distances.ValsFrom | solver.js:280-289 | each gathered value is the distance of a successor with the wanted label |
| Distances.ValsHas | solver.js:280-289 | each successor with the wanted label and a distance is gathered |
| Distances.ValsRaise | solver.js:339-342 | raising one distance raises the gathered values entry by entry, and changes none if that vertex is not gathered |
| Distances.MinMono | solver.js:293 | the least of pointwise larger values is no smaller |
| Distances.MaxMono | solver.js:311 | the greatest of pointwise larger values is no smaller |
| Distances.CandidateRaise | solver.js:339-357 | raising one distance never lowers or removes a candidate, and only moves the candidates of its predecessors with the other label |
| Distances.CandidateBound | solver.js:330-337 | every handled vertex has a candidate, and it is within its rank |
| Distances.RisenStep | solver.js:339-342 | raising one present distance keeps every distance there and no smaller |
| Distances.SlackDrops | solver.js:341-342 | a raise within the rank shrinks the room left to grow |
| Distances.Raise | solver.js:339-357 | raising a live vertex that is below its candidate up to that candidate keeps the table shaped and every vertex at or below its candidate; only that vertex's predecessors may stop being at their candidate, and the room left to grow shrinks |
| Distances.Hold | solver.js:335-341 | a front vertex already at its candidate is settled |
| Distances.Pop | solver.js:331-332 | the front of the queue is a live vertex, and the rest of the queue holds only live vertices |
| Distances.Unpend | solver.js:345-357 | a vertex that is neither the current predecessor nor later in the list is not pending any more |
| Distances.Enqueue | solver.js:344-357 | after the predecessors are queued, every live vertex not in the queue is at its candidate, and the queue holds only live vertices, never a sentinel or a DRAW vertex |
| Distances.SolveDistances | solver.js:254-362 | sentinels at 0, no distance exactly for DRAW, each distance within the rank, every other vertex at its candidate. The loop invariant states that no distance is lost or lowered |
| Solving.CompareKeys | solver.js:493-499 | negative, positive or zero exactly as the first key sorts before, after or equal to the second |
| Solving.Ties | solver.js:561-567 | exactly the moves with the given key |
| Solving.TiesSorted | solver.js:561-567 | the ties of ascending moves are ascending |
| Solving.NoTies | solver.js:561-564 | a key no move has collects nothing |
| Solving.FirstLeast | solver.js:440-490 | the scan returns a least key, and every earlier key is strictly greater |
| Solving.AllLeast | solver.js:517-570 | the scan returns the least key and exactly the moves with that key, in order |
| Solving.KeysIn | solver.js:443-482 | one key per move, each the move's key read from the tables |
| Solving.LeastIsBest | solver.js:440-490 | a least key belongs to a best move, and the best moves are exactly those with that key |
| Solving.AscendingIndex | solver.js:25-34 | in an ascending list, a smaller move sits earlier |
| Solving.FirstLeastIsFirstBest | solver.js:440-490 | the first least key belongs to the lowest best move |
| Solving.Solver.Evaluate | solver.js:401-407 | a label exactly for the sentinels and the positions reachable from an opening, always WIN, DRAW or LOSS; the sentinels are LOSS and the openings are labelled |
| Solving.Solver.DistanceToEnd | solver.js:409-415 | an entry exactly for the sentinels and the positions reachable from an opening, with no distance exactly for DRAW; the sentinels are at 0 |
| Solving.MoveKey | solver.js:443-482 | a move into a sentinel has key (0, 1); any other priority-0 key means: from a WIN, a move into a LOSS with a distance, at one more ply; from a LOSS, a move into a WIN with a distance, at minus one more ply; otherwise a move into a DRAW, at 0 plies. Every other key has priority 1 |
| Solving.Solver.BestMove | solver.js:421-491 | no move exactly for a terminal position or one without moves; otherwise a best move, and no lower move is best |
| Solving.Solver.GetBestMoves | solver.js:501-571 | empty exactly for a terminal position or one without moves; otherwise exactly the best moves, ascending |
| Solving.Solver.constructor | solver.js:123-133 | the tables are a solved arena, and the numbered positions are exactly the sentinels and the positions reachable from an opening |
| Policy.EdgeFacts | solver.js:443-458 | each move of a numbered live position follows its edge, and the target's entries are well shaped |
| Policy.Localize | solver.js:433-458 | a solved arena gives a numbered live position its own entries and good edges |
| Policy.WinningEdge | solver.js:461-467 | from WIN, the least key reaches LOSS, and the vertex's distance is one more than the target's |
| Policy.LosingEdge | solver.js:468-474 | from LOSS, the least key reaches WIN, and the vertex's distance is one more than the target's |
| Policy.DrawingEdge | solver.js:475-481 | from DRAW, the least key reaches DRAW |
| Policy.KeyFitsEntry | solver.js:444-482 | the key of a move fits the target's label and distance |
| Policy.MoveKeyFits | solver.js:443-482 | the key of each move fits the edge it follows |
| Policy.Target | solver.js:444-458 | the move's result is the target of its edge, and the tables' entries for it are the target's |
| Policy.BestIsLeast | solver.js:484-487 | a best move's key is least among the keys of the edges |
| Policy.WinningMove | solver.js:461-467 | from a WIN position, a best move reaches a LOSS position one ply nearer the end |
| Policy.WinningStep | solver.js:461-467 | the least-key edge out of a live WIN vertex enters a LOSS vertex one ply nearer |
| Policy.LosingMove | solver.js:468-474 | from a LOSS position, a best move reaches a WIN position one ply nearer the end |
| Policy.LosingStep | solver.js:468-474 | the least-key edge out of a live LOSS vertex enters a WIN vertex one ply nearer |
| Policy.DrawingMove | solver.js:475-481 | from a DRAW position, a best move reaches a DRAW position |
| Policy.DrawingStep | solver.js:475-481 | the least-key edge out of a DRAW vertex enters a DRAW vertex |
| Game.BoardToPos | game.js:101-103 | a cell of the board gets an index 0..8 whose quotient and remainder by 3 are its row and column |
| Game.PosToBoard | game.js:105-107 | an index 0..8 gives a cell of the board, and any non-negative index converts back to itself |
| Game.BoardToPosInjective | game.js:101-103 | two cells share an index exactly when they are equal |
| Game.PosRoundTrips | game.js:101-107 | cell to index to cell, and index to cell to index, are identities on the board |
| Game.IndexOf | game.js:43 | `findIndex`: -1 exactly when absent, otherwise the first position of the cell |
| Game.Without | game.js:37-68 | exactly the marks not dropped; no longer than before; no repeats created |
| Game.Expired | game.js:39-40 | the marks whose counter reaches zero or below on the next decrement |
| Game.Decremented | game.js:38-51 | the surviving counters, each one lower and still positive |
| Game.Pushed | game.js:72-80 | the new mark goes last, at most three remain, and no other cell appears |
| Game.PushedCounts | game.js:74-81 | the new mark gets 6, and every other counter is unchanged |
| Game.NextOwn | game.js:37-96 | the mover's marks after the move: the new mark last, otherwise only surviving old marks |
| Game.NextOwnCounts | game.js:37-96 | the new mark's counter is 6 |
| Game.PushKeepsMarks | game.js:70-96 | placing on a free cell keeps at most three distinct marks, each with a counter |
| Game.NextOwnKeepsMarks | game.js:32-99 | ageing then placing keeps the mover's marks and counters well formed |
| Game.DecrementKeepsMarks | game.js:37-68 | ageing keeps a side's marks and counters well formed |
| Game.RemoveFirstMembers | game.js:43-45 | removing the first occurrence from a list without repeats removes that cell and nothing else |
| Game.SpliceRemovesFirst | game.js:43-45 | `splice(findIndex(...), 1)` removes the first occurrence, and changes nothing when there is none |
| Game.WithoutOneMore | game.js:40-48 | dropping one more expired mark splices out its one occurrence |
| Game.WithoutAbsent | game.js:44 | dropping a cell the list lacks changes nothing |
| Game.WithoutNothing | game.js:37-68 | a list none of whose marks expire comes back whole |
| Game.Indices | game.js:112-117 | one index per mark, in order, each converting back to its cell |
| Game.IndicesHold | game.js:112-117 | a cell's index is in the queue exactly when the cell is in the list |
| Game.Position | game.js:109-120 | the solver position puts each side's indices on its own side, with the given side to move |
| Game.WaitingMarksSurvive | game.js:37-68 | with alternating counters, no mark of the side that waits expires |
| Game.MoverSurvivors | game.js:37-68 | with alternating counters, only the third mark of the mover expires, and it is the oldest |
| Game.MoverMarksFollowPushQueue | game.js:32-99 | with alternating counters, expiry and eviction together do to the mover's indices what `PushQueue` does |
| Game.MoverMarksAge | game.js:37-96 | after the move, the mover's counters are those of the side that waits |
| Game.PlacementIsApplyMove | game.js:32-99 | from alternating counters, placing a free cell is `applyMove` on the same position |
| Game.SolverState | game.js:109-120 | `getCurrentState`: each side's marks as indices in order, with the side to move; well formed for a well-formed board, and each index converts back to its mark |
| Game.AgingSide | game.js:37-68 | one ageing loop drops the expired marks of that side and lowers its counters, touching nothing else |
| Game.AfterPlacing | game.js:32-99 | after `placeMark`, the turn passes, the mover has its aged marks with the new one, and the other side has its aged marks |
| Game.AgingKeepsWellFormed | game.js:37-68 | ageing keeps both sides well formed and adds no cell |
| Game.PushingKeepsWellFormed | game.js:70-96 | placing on a free cell keeps both sides well formed |
| Game.PlacingKeepsWellFormed | game.js:32-99 | the whole of `placeMark` keeps both sides well formed, and the new mark is the mover's alone |
| Game.AlternatingPlacementIsApplyMove | game.js:32-99 | from alternating counters, `placeMark` keeps them alternating and is `applyMove` on `getCurrentState` |
| Game.LineIsWinLine | game.js:125-162 | each of the eight lines scanned by `checkWinner` is the solver's winning line of the same number |
| Game.LinesAreHasWin | game.js:125-162 | a side holds a full line exactly when the solver's `hasWin` accepts its queue |
| Game.ShowsSwap | game.js:122-165 | the board seen from the other side is the same board |
| Game.LineCells | game.js:130-159 | the three cells reported for a line, in order |
| Game.HeldIsOwned | game.js:127-129 | a line shows `p` in every cell exactly when all three cells are `p`'s marks |
| Game.CompleteIsHeld | game.js:127-129 | a line passes the test exactly when one side holds all of it |
| Game.HeldLinesAreHasWin | game.js:122-165 | `p` holds a full line on the board exactly when `hasWin` accepts `p`'s queue |
| Game.CompleteLinesAreHasWin | game.js:122-165 | some line passes `checkWinner`'s test exactly when `hasWin` accepts one of the two queues |
| Game.AgeingStarts | game.js:38 | before the loop, no counter has been touched |
| Game.AgeingEnds | game.js:38-52 | after the loop, every counter is lowered or gone |
| Game.AgeingStep | game.js:39-51 | one pass deletes or lowers its counter, and expires its cell exactly when it deletes |
| Game.RemoveFirst | game.js:43-46 | `findIndex` and `splice` remove one element exactly when the cell is in the list, and otherwise leave the list alone; nothing new appears |
| Game.AgeMark | game.js:39-51 | one pass: at zero or below the counter is deleted, the first occurrence is spliced out and the cell cleared; otherwise the counter drops by one |
| Game.AgeMarks | game.js:37-68 | an ageing loop leaves exactly the unexpired marks in order and lowered counters, with the board showing them, whatever the order of the entries |
| Game.Survivors | game.js:37-78 | after ageing and eviction the mover keeps at most two of at most three marks, each one of its own marks that has not expired |
| Game.Place | game.js:70-96 | with three marks down the oldest leaves the list, the board and the counters; the new mark goes last with 6 |
| Game.AgeSide | game.js:37-68 | an ageing loop, on the board and the marks together |
| Game.PlaceMover | game.js:70-96 | the mover's branch, on the board and the marks together; the cell now shows the mover |
| Game.Line | game.js:122-165 | line `i` of `checkWinner`'s scan lies on the board and is entry `i` of `WIN_LINES` |
| Game.ScanLines | game.js:122-165 | no winner exactly when no line passes; otherwise the first line in scan order that passes, its cells and its holder |
| Game.GameState.constructor | game.js:20-30 | an empty board, no marks or counters, O to move, no result |
| Game.GameState.Reset | game.js:167-177 | back to the opening: an empty board, no marks or counters, O to move, no result |
| Game.GameState.Age | game.js:37-68 | one ageing loop on the object's fields |
| Game.GameState.Put | game.js:70-96 | the placement on the object's fields; the cell now shows the mover |
| Game.GameState.PlaceMark | game.js:32-99 | refused exactly for an occupied or off-board column, with nothing changed; otherwise ageing, eviction, placement and a passed turn, and from alternating counters `applyMove` on the same position |
| Game.GameState.CheckWinner | game.js:122-165 | as `ScanLines`, with the cells stored in `winningCells` |
| Game.IndicesAreValidQueue | game.js:112-117 | at most three distinct cells of the board give a well-formed solver queue |

## Left out

- Game.GameState.PlaceMark: requires `0 <= row < 3`. With any other row, game.js reads `this.board[row]` as undefined and throws a TypeError; that throw is not modelled. A column off the board is modelled: game.js reads undefined, which is not null, and refuses.
- Solving.Solver.BestMove and Solving.Solver.GetBestMoves: require `s.o.Cells? ==> s.x.Cells?`. For a state whose O queue is a list and whose X queue is null, solver.js throws inside `legalMoves`/`applyMove`; that throw is not modelled.
- Keys.ParseStateKey: returns `None` on a malformed key. solver.js instead builds a state holding `Number("")`, `0` or `NaN`, or an undefined turn. Only keys that `_stateKey` writes are modelled faithfully, and for those the round trip is proved.
- Rules.ApplyMove: the `Player` type has only O and X, so the "turn must be 'O' or 'X'" error cannot arise.
- Solving.Solver.Evaluate and Solving.Solver.DistanceToEnd: return `None` where solver.js throws "State not found".
- Builder.BuildGraph: the cap of 100000 dequeued positions (solver.js:149-158) is left out. The model's search runs to completion, and it is proved to end because the set of well-formed positions is finite. If the cap were ever reached, solver.js would stop with a partial graph; the model does not capture that early stop. The console logging and the try/catch that logs and rethrows (solver.js:181-184) are left out.
- Game.AgeMarks: the counter map is visited in an arbitrary order, not in insertion order. Each pass touches only its own counter, its own mark and its own board cell, and the marks are distinct. So the order does not matter, and the contract holds for every order.
- Distances.SolveDistances: starts its queue in vertex order. This matches the insertion order of solver.js's maps except that the sentinels come first, and they are never queued.
- Game.Expired: the `${r},${c}` string keys of the counter maps are modelled directly as `(row, column)` pairs. The string round trip is not modelled; it is the identity on board cells.
- Game.GameState.CheckWinner: writes `winningCells` once instead of clearing it first and then setting it. The final state is the same, since nothing is read in between.
- `gameOver` and `winner` are only initialised and reset here. game.js sets them in the controller class `VanishingTicTacToeGame`, which is outside this model.
- Arguments that are not integers (non-numeric rows or columns, fractional cell indices) are not modelled. Cells and moves are integers.
- `Deque` and `DefaultDict` (solver.js:82-109) are modelled by sequences, and the graph stores vertex numbers instead of state objects.
- `outcomeText` (solver.js:417-419) is a display helper and is not modelled.
- `GameRenderer` and `VanishingTicTacToeGame` (game.js:180-590), app.js and server.py handle drawing, input, networking and persistence. They are not part of this model.
