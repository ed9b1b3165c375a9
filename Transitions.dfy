/** The state machine of a match, on snapshots: what each Match method does to
    the rule-relevant fields, as a function from the state before to the state after. */
module Transitions {
  import opened Constants
  import opened Wrappers
  import opened Positions
  import opened Moves
  import opened Utils
  import opened Grids
  import opened MatchStates
  import opened Rules

  // ---------------------------------------------------------------------------
  // Feedback shown to the player

  const KeepCapturing: string := "You must keep capturing while possible!"
  const KeepJumping: string := "You must keep jumping over while possible!"
  const ChooseSpots: string := "Choose the spots where you want to place the new pieces!"
  const NoPiecesGiven: string := "Since you have no free slots in your drop zone, you were not given any extra pieces"

  /** The announcement made when the player to move captures the last opposing piece. */
  function WinMessage(playerTurn: int): string {
    (if playerTurn == 1 then "White" else "Black") + " wins the game!"
  }

  // ---------------------------------------------------------------------------
  // The start of a match

  /** The piece count a player starts with: the configured one, 16 when none was saved. */
  function StartingCount(numPieces: Option<int>): int {
    if numPieces.Some? then numPieces.value else DefaultNumPieces
  }

  /** A new match: player 1 to move, nothing owed, no forced jump, the initial
      layout, and the configured piece counts. */
  function InitialState(gameMode: int, numPieces1: Option<int>, numPieces2: Option<int>): MatchState {
    MatchState(gameMode, Easy, InitialGrid(numPieces1, numPieces2), 1, [], 0, [], [], None, false,
               [StartingCount(numPieces1), StartingCount(numPieces2)], "")
  }

  // ---------------------------------------------------------------------------
  // The elementary transitions

  /** The other player is to move. */
  function AfterChangeTurn(s: MatchState): MatchState {
    s.(playerTurn := NextPlayer(s.playerTurn))
  }

  /** Records the destinations offered for the piece at `start`. */
  function AfterUpdateValidDestinies(s: MatchState, start: Position): MatchState {
    s.(lastValidDestinies := GetValidDestinies(s, start))
  }

  /** After a jump landing on `landing`: when the piece can jump again the
      player must go on jumping with it, otherwise the turn passes. */
  function AfterSequentialJump(s: MatchState, landing: Position): MatchState {
    var forced := GetJumpMoveDestinies(s, landing);
    if |forced| > 0 then
      s.(forcedJumps := forced, lastJumpPosition := Some(landing), currentFeedback := KeepJumping)
    else
      AfterChangeTurn(s.(forcedJumps := forced))
  }

  /** Whether a player has no pieces left. */
  predicate GameOver(s: MatchState) {
    s.numPieces[0] == 0 || s.numPieces[1] == 0
  }

  /** After a capture landing on `landing`: the opponent loses a piece; the
      match ends when that was their last one; otherwise the player must go on
      capturing with the same piece while it can, and the turn passes when it cannot. */
  function AfterCapture(s: MatchState, landing: Position): MatchState
    requires ValidTurn(s)
  {
    var opponent := NextPlayer(s.playerTurn);
    var s1 := s.(numPieces := s.numPieces[opponent - 1 := s.numPieces[opponent - 1] - 1]);
    if GameOver(s1) then
      s1.(isOver := true, currentFeedback := WinMessage(s.playerTurn))
    else if |GetCaptureMoveDestinies(s1, landing)| > 0 then
      s1.(currentFeedback := KeepCapturing)
    else
      AfterChangeTurn(s1)
  }

  /** After a piece reached row 0 or 7: the piece leaves the board, its owner
      becomes the player to move and is owed up to two new pieces for the free
      cells of their drop zone; with no free cell the turn passes at once. */
  function AfterEndOfBoardArrival(s: MatchState, landing: Position): MatchState
    requires CellAt(s.board, landing) == WhiteCell || CellAt(s.board, landing) == BlackCell
  {
    AfterPiecesAwarded(AfterPieceRemoval(s, landing))
  }

  function AfterPieceRemoval(s: MatchState, landing: Position): MatchState
    requires CellAt(s.board, landing) == WhiteCell || CellAt(s.board, landing) == BlackCell
  {
    var owner := CellAt(s.board, landing) as int;
    s.(playerTurn := owner, board := WithCell(s.board, landing, EmptyCell),
       numPieces := s.numPieces[owner - 1 := s.numPieces[owner - 1] - 1])
  }

  function AfterPiecesAwarded(s: MatchState): MatchState
  {
    var slots := FreeSpawnSpots(s.board, s.playerTurn);
    var s1 := s.(freeSlots := slots, unplacedPieces := Min(|slots|, 2));
    if s1.unplacedPieces == 0 then AfterChangeTurn(s1.(currentFeedback := NoPiecesGiven))
    else s1.(currentFeedback := ChooseSpots)
  }

  /** Places one owed piece of the player to move on a free drop-zone cell;
      any other cell is ignored. When no piece is owed any more the turn passes. */
  function AfterSpawnPiece(s: MatchState, spot: Position): MatchState
    requires ValidTurn(s)
  {
    if spot !in s.freeSlots then s
    else
      var s1 := s.(board := WithCell(s.board, spot, s.playerTurn as byte),
                   numPieces := s.numPieces[s.playerTurn - 1 := s.numPieces[s.playerTurn - 1] + 1],
                   unplacedPieces := s.unplacedPieces - 1,
                   freeSlots := RemoveFirst(s.freeSlots, spot));
      if s1.unplacedPieces == 0 then s1.(currentFeedback := "", playerTurn := NextPlayer(s.playerTurn))
      else s1
  }

  // ---------------------------------------------------------------------------
  // Executing a move

  /** A move is carried out when its destination was offered, and always when
      the computer (player 2 of a single-player match) plays it. */
  predicate Admitted(s: MatchState, m: Move) {
    m.end in s.lastValidDestinies || (s.playerTurn == 2 && s.gameMode == SinglePlayer)
  }

  /** The state after an admitted move and the handler of the kind it turned
      out to be, before the end-of-board check. */
  function Handled(s: MatchState, m: Move): MatchState
    requires ValidTurn(s)
  {
    var outcome := Applied(s.board, m);
    var s1 := s.(currentFeedback := "", forcedJumps := [], board := outcome.grid);
    match outcome.kind
    case Jump => AfterSequentialJump(s1, m.end)
    case Capture => AfterCapture(s1, m.end)
    case Normal => AfterChangeTurn(s1)
    case Invalid => s1
  }

  /** Whether the piece that arrives on row 0 or 7 belongs to a player, as the
      end-of-board handler needs (it indexes the piece counters by the cell's value). */
  predicate ArrivalHasOwner(s: MatchState, m: Move)
    requires ValidTurn(s)
  {
    Admitted(s, m) && !Handled(s, m).isOver && m.end.EndOfBoard() ==>
      CellAt(Handled(s, m).board, m.end) == WhiteCell || CellAt(Handled(s, m).board, m.end) == BlackCell
  }

  /** Executes a move: feedback and forced jumps are cleared first; a move that
      is not admitted changes nothing else; an admitted one is applied and
      handled by its kind, and a piece that ends on row 0 or 7 while the match
      goes on is promoted. */
  function AfterExecuteMove(s: MatchState, m: Move): MatchState
    requires ValidTurn(s) && ArrivalHasOwner(s, m)
  {
    if !Admitted(s, m) then s.(currentFeedback := "", forcedJumps := [])
    else
      var h := Handled(s, m);
      if !h.isOver && m.end.EndOfBoard() then AfterEndOfBoardArrival(h, m.end) else h
  }

  // ---------------------------------------------------------------------------
  // Properties of the transitions

  /** Changing the turn twice gives the turn back. */
  lemma ChangeTurnInvolution(s: MatchState)
    requires ValidTurn(s)
    ensures ValidTurn(AfterChangeTurn(s)) && AfterChangeTurn(s).playerTurn != s.playerTurn
    ensures AfterChangeTurn(AfterChangeTurn(s)) == s
  {
    NextPlayerInvolution(s.playerTurn);
  }

  /** A move that is not admitted only clears the feedback and the forced jumps. */
  lemma ExecuteMoveRejected(s: MatchState, m: Move)
    requires ValidTurn(s) && ArrivalHasOwner(s, m)
    requires m.end !in s.lastValidDestinies && !(s.playerTurn == 2 && s.gameMode == SinglePlayer)
    ensures AfterExecuteMove(s, m).board == s.board
    ensures AfterExecuteMove(s, m).numPieces == s.numPieces
    ensures AfterExecuteMove(s, m).playerTurn == s.playerTurn
    ensures AfterExecuteMove(s, m).currentFeedback == "" && AfterExecuteMove(s, m).forcedJumps == []
  {
  }

  /** After a jump the player keeps the turn exactly when the landed piece can
      jump again, and then must jump with that piece to one of its jump destinations. */
  lemma ExecuteJump(s: MatchState, m: Move)
    requires ValidTurn(s) && ArrivalHasOwner(s, m)
    requires Admitted(s, m) && Applied(s.board, m).kind == Jump && !m.end.EndOfBoard()
    ensures var r := AfterExecuteMove(s, m);
      var further := GetJumpMoveDestinies(s.(board := Applied(s.board, m).grid), m.end);
      r.board == Applied(s.board, m).grid && r.numPieces == s.numPieces && r.forcedJumps == further &&
      (further != [] ==> r.lastJumpPosition == Some(m.end) && r.playerTurn == s.playerTurn && r.currentFeedback == KeepJumping) &&
      (further == [] ==> r.playerTurn == NextPlayer(s.playerTurn) && r.currentFeedback == "")
  {
    var g := Applied(s.board, m).grid;
    DestiniesFrame(s.(currentFeedback := "", forcedJumps := [], board := g), s.(board := g), m.end);
  }

  /** A capture that takes the opponent's last piece ends the match: the
      capturing player stays to move, the win is announced and no promotion follows. */
  lemma ExecuteCaptureEnds(s: MatchState, m: Move)
    requires ValidTurn(s) && ArrivalHasOwner(s, m)
    requires Admitted(s, m) && Applied(s.board, m).kind == Capture
    requires s.numPieces[NextPlayer(s.playerTurn) - 1] == 1
    ensures var r := AfterExecuteMove(s, m);
      var opponent := NextPlayer(s.playerTurn);
      r.isOver && r.playerTurn == s.playerTurn && r.numPieces == s.numPieces[opponent - 1 := 0] &&
      r.board == Applied(s.board, m).grid && r.currentFeedback == WinMessage(s.playerTurn)
  {
    var g := Applied(s.board, m).grid;
    var opponent := NextPlayer(s.playerTurn);
    var s1 := s.(currentFeedback := "", forcedJumps := [], board := g);
    var s2 := s1.(numPieces := s.numPieces[opponent - 1 := 0]);
    assert Handled(s, m) == AfterCapture(s1, m.end) == s2.(isOver := true, currentFeedback := WinMessage(s.playerTurn));
  }

  /** A capture that leaves both players with pieces, away from rows 0 and 7,
      takes exactly one piece from the opponent's counter; the player keeps the
      turn exactly when the landed piece can capture again. */
  lemma ExecuteCaptureContinues(s: MatchState, m: Move)
    requires ValidTurn(s) && ArrivalHasOwner(s, m)
    requires Admitted(s, m) && Applied(s.board, m).kind == Capture && !m.end.EndOfBoard()
    requires s.numPieces[NextPlayer(s.playerTurn) - 1] != 1 && s.numPieces[s.playerTurn - 1] != 0
    ensures var r := AfterExecuteMove(s, m);
      var opponent := NextPlayer(s.playerTurn);
      var further := GetCaptureMoveDestinies(s.(board := Applied(s.board, m).grid), m.end);
      r.isOver == s.isOver && r.board == Applied(s.board, m).grid &&
      r.numPieces == s.numPieces[opponent - 1 := s.numPieces[opponent - 1] - 1] &&
      (further != [] ==> r.playerTurn == s.playerTurn && r.currentFeedback == KeepCapturing) &&
      (further == [] ==> r.playerTurn == NextPlayer(s.playerTurn) && r.currentFeedback == "")
  {
    var g := Applied(s.board, m).grid;
    var opponent := NextPlayer(s.playerTurn);
    var s1 := s.(currentFeedback := "", forcedJumps := [], board := g);
    var s2 := s1.(numPieces := s.numPieces[opponent - 1 := s.numPieces[opponent - 1] - 1]);
    assert !GameOver(s2);
    assert AfterExecuteMove(s, m) == AfterCapture(s1, m.end);
    DestiniesFrame(s2, s.(board := g), m.end);
  }

  /** A plain move always hands the turn to the other player. */
  lemma ExecuteNormal(s: MatchState, m: Move)
    requires ValidTurn(s) && ArrivalHasOwner(s, m)
    requires Admitted(s, m) && Applied(s.board, m).kind == Normal && !m.end.EndOfBoard()
    ensures AfterExecuteMove(s, m).playerTurn == NextPlayer(s.playerTurn)
    ensures AfterExecuteMove(s, m).board == Applied(s.board, m).grid
    ensures AfterExecuteMove(s, m).numPieces == s.numPieces
  {
  }

  /** Promotion removes the arrived piece from the board and one piece from its owner's counter. */
  lemma EndOfBoardArrivalRemovesPiece(s: MatchState, landing: Position)
    requires landing.IsWithinBounderies()
    requires CellAt(s.board, landing) == WhiteCell || CellAt(s.board, landing) == BlackCell
    ensures var r := AfterEndOfBoardArrival(s, landing);
      var owner := CellAt(s.board, landing) as int;
      CellAt(r.board, landing) == EmptyCell &&
      (forall q :: q != landing ==> CellAt(r.board, q) == CellAt(s.board, q)) &&
      r.numPieces[owner - 1] == s.numPieces[owner - 1] - 1 &&
      r.numPieces[2 - owner] == s.numPieces[2 - owner]
  {
  }

  /** Promotion owes the owner min(free drop-zone cells, 2) pieces and lists
      those cells, and leaves the turn with the owner unless nothing is owed. */
  lemma EndOfBoardArrivalOwes(s: MatchState, landing: Position)
    requires CellAt(s.board, landing) == WhiteCell || CellAt(s.board, landing) == BlackCell
    ensures var r := AfterEndOfBoardArrival(s, landing);
      var owner := CellAt(s.board, landing) as int;
      (forall q :: q in r.freeSlots <==>
         1 <= q.x <= 6 && (if owner == 1 then q.y == 0 || q.y == 1 else q.y == 6 || q.y == 7) && EmptyAt(r.board, q)) &&
      r.unplacedPieces == Min(|r.freeSlots|, 2) && 0 <= r.unplacedPieces <= 2 &&
      (r.unplacedPieces == 0 <==> r.freeSlots == []) &&
      (r.unplacedPieces == 0 ==> r.playerTurn == NextPlayer(owner) && r.currentFeedback == NoPiecesGiven) &&
      (r.unplacedPieces > 0 ==> r.playerTurn == owner && r.currentFeedback == ChooseSpots)
  {
    var owner := CellAt(s.board, landing) as int;
    FreeSpawnSpotsSpec(WithCell(s.board, landing, EmptyCell), owner);
  }

  /** Spawning on a free slot puts a piece of the player to move there, adds one
      to their counter, consumes the slot and one owed piece, and passes the
      turn exactly when no piece is owed any more; any other spot changes nothing. */
  lemma SpawnPieceSpec(s: MatchState, spot: Position)
    requires ValidTurn(s)
    ensures spot !in s.freeSlots ==> AfterSpawnPiece(s, spot) == s
    ensures spot in s.freeSlots ==>
      var r := AfterSpawnPiece(s, spot);
      CellAt(r.board, spot) == CellAt(WithCell(s.board, spot, s.playerTurn as byte), spot) &&
      r.numPieces[s.playerTurn - 1] == s.numPieces[s.playerTurn - 1] + 1 &&
      r.numPieces[2 - s.playerTurn] == s.numPieces[2 - s.playerTurn] &&
      r.unplacedPieces == s.unplacedPieces - 1 &&
      multiset(r.freeSlots) == multiset(s.freeSlots) - multiset{spot} &&
      (r.unplacedPieces == 0 <==> r.playerTurn == NextPlayer(s.playerTurn)) &&
      (r.unplacedPieces != 0 <==> r.playerTurn == s.playerTurn)
  {
  }

  // ---------------------------------------------------------------------------
  // Invariants kept by every transition

  /** Every transition leaves player 1 or player 2 to move. */
  lemma ExecuteMoveKeepsTurnValid(s: MatchState, m: Move)
    requires ValidTurn(s) && ArrivalHasOwner(s, m)
    ensures ValidTurn(AfterExecuteMove(s, m))
  {
    if Admitted(s, m) {
      HandledKeeps(s, m);
      var h := Handled(s, m);
      if !h.isOver && m.end.EndOfBoard() {
        ArrivalKeepsTurnValid(h, m.end);
      }
    }
  }

  lemma ArrivalKeepsTurnValid(s: MatchState, landing: Position)
    requires CellAt(s.board, landing) == WhiteCell || CellAt(s.board, landing) == BlackCell
    ensures ValidTurn(AfterEndOfBoardArrival(s, landing))
  {
  }

  lemma SpawnPieceKeepsTurnValid(s: MatchState, spot: Position)
    requires ValidTurn(s)
    ensures ValidTurn(AfterSpawnPiece(s, spot))
  {
  }

  /** The owed pieces never exceed the free slots left to put them on. */
  predicate OwedFit(s: MatchState) {
    0 <= s.unplacedPieces <= |s.freeSlots|
  }

  lemma ExecuteMoveKeepsOwedFit(s: MatchState, m: Move)
    requires ValidTurn(s) && ArrivalHasOwner(s, m) && OwedFit(s)
    ensures OwedFit(AfterExecuteMove(s, m))
  {
    if Admitted(s, m) {
      HandledKeeps(s, m);
    }
  }

  lemma SpawnPieceKeepsOwedFit(s: MatchState, spot: Position)
    requires ValidTurn(s) && OwedFit(s) && s.unplacedPieces > 0
    ensures OwedFit(AfterSpawnPiece(s, spot))
  {
  }

  /** The handlers of the three kinds of move change neither the owed pieces,
      the free slots nor the offered destinations, and leave a valid turn. */
  lemma HandledKeeps(s: MatchState, m: Move)
    requires ValidTurn(s)
    ensures var h := Handled(s, m);
      h.board == Applied(s.board, m).grid && h.unplacedPieces == s.unplacedPieces &&
      h.freeSlots == s.freeSlots && h.lastValidDestinies == s.lastValidDestinies &&
      h.gameMode == s.gameMode && h.difficulty == s.difficulty && ValidTurn(h)
  {
    var outcome := Applied(s.board, m);
    var s1 := s.(currentFeedback := "", forcedJumps := [], board := outcome.grid);
    match outcome.kind
    case Jump => assert Handled(s, m) == AfterSequentialJump(s1, m.end);
    case Capture => assert Handled(s, m) == AfterCapture(s1, m.end);
    case Normal => assert Handled(s, m) == AfterChangeTurn(s1);
    case Invalid =>
  }

  // ---------------------------------------------------------------------------
  // Piece accounting

  /** The counters agree with the pieces on the board. */
  predicate Consistent(s: MatchState) {
    s.numPieces[0] == |CellsHolding(s.board, WhiteCell)| && s.numPieces[1] == |CellsHolding(s.board, BlackCell)|
  }

  /** A count the settings offer: 16, 12, 10 or 6, or none saved. */
  predicate OfferedCount(numPieces: Option<int>) {
    numPieces.None? || numPieces.value in {16, 12, 10, 6}
  }

  /** A new match starts with its counters in agreement with the board exactly
      when each configured count is the number of pieces its layout places,
      which every count the settings offer is. */
  lemma InitialStateConsistent(gameMode: int, numPieces1: Option<int>, numPieces2: Option<int>)
    ensures Consistent(InitialState(gameMode, numPieces1, numPieces2))
        <==> StartingCount(numPieces1) == LayoutSize(numPieces1) && StartingCount(numPieces2) == LayoutSize(numPieces2)
    ensures OfferedCount(numPieces1) && OfferedCount(numPieces2) ==> Consistent(InitialState(gameMode, numPieces1, numPieces2))
  {
    InitialCounts(numPieces1, numPieces2);
  }

  /** A legally labelled move that reaches row 0 or 7 brings a piece of the player to move there. */
  lemma LegalMoveHasOwner(s: MatchState, m: Move)
    requires ValidTurn(s) && LabelledLegally(s, m)
    ensures ArrivalHasOwner(s, m)
  {
    LegalMoveFacts(s, m);
    AppliedEffect(s.board, m);
    HandledKeeps(s, m);
  }

  /** Executing a legally labelled move keeps the counters in agreement with the
      board: a capture removes exactly the opposing piece it counts, and a
      promotion removes exactly the piece it takes off its owner's counter. */
  lemma ExecuteMoveKeepsConsistent(s: MatchState, m: Move)
    requires ValidTurn(s) && LabelledLegally(s, m) && Consistent(s)
    ensures ArrivalHasOwner(s, m) && Consistent(AfterExecuteMove(s, m))
  {
    LegalMoveHasOwner(s, m);
    if Admitted(s, m) {
      HandledKeepsConsistent(s, m);
      var h := Handled(s, m);
      if !h.isOver && m.end.EndOfBoard() {
        LegalMoveFacts(s, m);
        HandledKeeps(s, m);
        ArrivalKeepsConsistent(h, m.end);
      }
    }
  }

  lemma HandledKeepsConsistent(s: MatchState, m: Move)
    requires ValidTurn(s) && LabelledLegally(s, m) && Consistent(s)
    ensures Consistent(Handled(s, m))
  {
    LegalMoveFacts(s, m);
    AppliedCount(s.board, m, WhiteCell);
    AppliedCount(s.board, m, BlackCell);
    HandledCounts(s, m);
  }

  /** Only a capture changes a counter before the end-of-board check: the opponent's, by one. */
  lemma HandledCounts(s: MatchState, m: Move)
    requires ValidTurn(s)
    ensures Handled(s, m).board == Applied(s.board, m).grid
    ensures Handled(s, m).numPieces ==
      if Applied(s.board, m).kind == Capture then
        s.numPieces[NextPlayer(s.playerTurn) - 1 := s.numPieces[NextPlayer(s.playerTurn) - 1] - 1]
      else s.numPieces
  {
    HandledKeeps(s, m);
    var outcome := Applied(s.board, m);
    var s1 := s.(currentFeedback := "", forcedJumps := [], board := outcome.grid);
    match outcome.kind
    case Jump => assert Handled(s, m) == AfterSequentialJump(s1, m.end);
    case Capture => assert Handled(s, m) == AfterCapture(s1, m.end);
    case Normal => assert Handled(s, m) == AfterChangeTurn(s1);
    case Invalid =>
  }

  lemma ArrivalKeepsConsistent(s: MatchState, landing: Position)
    requires landing.IsWithinBounderies() && Consistent(s)
    requires CellAt(s.board, landing) == WhiteCell || CellAt(s.board, landing) == BlackCell
    ensures Consistent(AfterEndOfBoardArrival(s, landing))
  {
    WriteCount(s.board, landing, EmptyCell, WhiteCell);
    WriteCount(s.board, landing, EmptyCell, BlackCell);
  }

  /** Spawning on an empty free slot keeps the counters in agreement with the board. */
  lemma SpawnPieceKeepsConsistent(s: MatchState, spot: Position)
    requires ValidTurn(s) && Consistent(s)
    requires spot in s.freeSlots ==> EmptyAt(s.board, spot)
    ensures Consistent(AfterSpawnPiece(s, spot))
  {
    if spot in s.freeSlots {
      WriteCount(s.board, spot, s.playerTurn as byte, WhiteCell);
      WriteCount(s.board, spot, s.playerTurn as byte, BlackCell);
    }
  }
}
