/** The match object: the fields the game screens read, updated in place by its methods. */
module Matches {
  import opened Constants
  import opened Wrappers
  import opened Positions
  import opened Moves
  import opened Utils
  import opened Grids
  import opened Boards
  import opened MatchStates
  import opened Rules
  import opened Transitions

  class Match {
    var gameMode: int
    var difficulty: int
    const board: Board
    var playerTurn: int
    /** The destinations offered for the last selected piece; a move is admitted against it. */
    var lastValidDestinies: seq<Position>
    /** How many new pieces the player to move still has to place. */
    var unplacedPieces: int
    /** The drop-zone cells where owed pieces may be placed. */
    var freeSlots: seq<Position>
    /** The destinations the piece at lastJumpPosition must jump to next. */
    var forcedJumps: seq<Position>
    var lastJumpPosition: Option<Position>
    var isOver: bool
    /** numPieces[0] counts the pieces of player 1, numPieces[1] those of player 2. */
    const numPieces: array<int>
    var currentFeedback: string

    ghost predicate Valid()
      reads this, board, board.cells
    {
      board.Valid() && numPieces.Length == 2
    }

    /** The rule-relevant fields as a value. */
    ghost function View(): MatchState
      reads this, board, numPieces
      requires numPieces.Length == 2
    {
      MatchState(gameMode, difficulty, board.Grid(), playerTurn, lastValidDestinies, unplacedPieces,
                 freeSlots, forcedJumps, lastJumpPosition, isOver, [numPieces[0], numPieces[1]], currentFeedback)
    }

    /** The rule-relevant fields as a value, read from the fields; the rule
        functions are evaluated on it. */
    method Snapshot() returns (s: MatchState)
      requires Valid()
      ensures s == View()
    {
      var grid := board.Snapshot();
      s := MatchState(gameMode, difficulty, grid, playerTurn, lastValidDestinies, unplacedPieces,
                      freeSlots, forcedJumps, lastJumpPosition, isOver, [numPieces[0], numPieces[1]], currentFeedback);
    }

    /** A new match; `numPieces1` and `numPieces2` are the configured piece
        counts, None when the setting was never saved. */
    constructor(gameMode: int, numPieces1: Option<int>, numPieces2: Option<int>)
      ensures Valid() && fresh(board) && fresh(board.cells) && fresh(numPieces)
      ensures View() == InitialState(gameMode, numPieces1, numPieces2)
      ensures OfferedCount(numPieces1) && OfferedCount(numPieces2) ==> Consistent(View())
    {
      this.gameMode := gameMode;
      difficulty := Easy;
      playerTurn := 1;
      unplacedPieces := 0;
      isOver := false;
      numPieces := new int[2][StartingCount(numPieces1), StartingCount(numPieces2)];
      forcedJumps := [];
      freeSlots := [];
      board := new Board(numPieces1, numPieces2);
      lastValidDestinies := [];
      lastJumpPosition := None;
      currentFeedback := "";
      InitialStateConsistent(gameMode, numPieces1, numPieces2);
    }

    /** A copy with its own board, its own counters and its own lists. */
    constructor Copy(other: Match)
      requires other.Valid()
      ensures Valid() && fresh(board) && fresh(board.cells) && fresh(numPieces)
      ensures View() == other.View()
    {
      var boardCopy := other.board.Clone();
      gameMode := other.gameMode;
      difficulty := other.difficulty;
      board := boardCopy;
      playerTurn := other.playerTurn;
      lastValidDestinies := other.lastValidDestinies;
      unplacedPieces := other.unplacedPieces;
      freeSlots := other.freeSlots;
      forcedJumps := other.forcedJumps;
      lastJumpPosition := other.lastJumpPosition;
      isOver := other.isOver;
      numPieces := new int[2][other.numPieces[0], other.numPieces[1]];
      currentFeedback := other.currentFeedback;
    }

    /** A deep copy: changing it leaves this match as it is. */
    method Clone() returns (cloned: Match)
      requires Valid()
      ensures fresh(cloned) && fresh(cloned.board) && fresh(cloned.board.cells) && fresh(cloned.numPieces)
      ensures cloned.Valid() && cloned.View() == View()
    {
      cloned := new Match.Copy(this);
    }

    method UpdateValidDestinies(startPosition: Position)
      requires Valid()
      modifies this
      ensures Valid()
      ensures View() == AfterUpdateValidDestinies(old(View()), startPosition)
    {
      var s := Snapshot();
      lastValidDestinies := GetValidDestinies(s, startPosition);
    }

    method ExecuteMove(move: Move)
      requires Valid() && ValidTurn(View()) && ArrivalHasOwner(View(), move)
      modifies this, board, board.cells, numPieces
      ensures Valid()
      ensures View() == AfterExecuteMove(old(View()), move)
    {
      ghost var s := View();
      currentFeedback := "";
      forcedJumps := [];
      if move.end !in lastValidDestinies && !(playerTurn == 2 && gameMode == SinglePlayer) {
        return;
      }
      var moveType := board.ApplyMove(move);
      match moveType {
        case Jump => EnforceSequentialJump(move.end);
        case Capture => HandleCapture(move.end);
        case Normal => ChangeTurn();
        case Invalid =>
      }
      assert View() == Handled(s, move);
      if !isOver && move.end.EndOfBoard() {
        HandleEndOfBoardArrival(move.end);
      }
    }

    method EnforceSequentialJump(lastJumpPosition: Position)
      requires Valid()
      modifies this
      ensures Valid()
      ensures View() == AfterSequentialJump(old(View()), lastJumpPosition)
    {
      var s := Snapshot();
      forcedJumps := GetJumpMoveDestinies(s, lastJumpPosition);
      if |forcedJumps| > 0 {
        this.lastJumpPosition := Some(lastJumpPosition);
        currentFeedback := KeepJumping;
      } else {
        ChangeTurn();
      }
    }

    method HandleCapture(lastCapturePosition: Position)
      requires Valid() && ValidTurn(View())
      modifies this, numPieces
      ensures Valid()
      ensures View() == AfterCapture(old(View()), lastCapturePosition)
    {
      ghost var s := View();
      var opponentPlayer := NextPlayer(playerTurn);
      numPieces[opponentPlayer - 1] := numPieces[opponentPlayer - 1] - 1;
      ghost var s1 := s.(numPieces := s.numPieces[opponentPlayer - 1 := s.numPieces[opponentPlayer - 1] - 1]);
      assert View() == s1;
      var over := IsGameOver();
      if over {
        isOver := true;
        currentFeedback := WinMessage(playerTurn);
        return;
      }
      var now := Snapshot();
      if |GetCaptureMoveDestinies(now, lastCapturePosition)| > 0 {
        currentFeedback := KeepCapturing;
      } else {
        ChangeTurn();
      }
    }

    /** Whether a player has no pieces left. */
    method IsGameOver() returns (over: bool)
      requires Valid()
      ensures over == GameOver(View())
    {
      over := numPieces[0] == 0 || numPieces[1] == 0;
    }

    method HandleEndOfBoardArrival(endPosition: Position)
      requires Valid()
      requires CellAt(View().board, endPosition) == WhiteCell || CellAt(View().board, endPosition) == BlackCell
      modifies this, board, board.cells, numPieces
      ensures Valid()
      ensures View() == AfterEndOfBoardArrival(old(View()), endPosition)
    {
      RemoveArrivedPiece(endPosition);
      AwardPieces();
    }

    method RemoveArrivedPiece(endPosition: Position)
      requires Valid()
      requires CellAt(View().board, endPosition) == WhiteCell || CellAt(View().board, endPosition) == BlackCell
      modifies this, board, board.cells, numPieces
      ensures Valid()
      ensures View() == AfterPieceRemoval(old(View()), endPosition)
    {
      playerTurn := board.GetCellValue(endPosition) as int;
      board.SetCellValue(endPosition, EmptyCell);
      numPieces[playerTurn - 1] := numPieces[playerTurn - 1] - 1;
    }

    method AwardPieces()
      requires Valid()
      modifies this
      ensures Valid()
      ensures View() == AfterPiecesAwarded(old(View()))
    {
      freeSlots := board.GetFreeSpawnSpots(playerTurn);
      unplacedPieces := Min(|freeSlots|, 2);
      if unplacedPieces == 0 {
        currentFeedback := NoPiecesGiven;
        ChangeTurn();
      } else {
        currentFeedback := ChooseSpots;
      }
    }

    method SpawnPiece(spawnPosition: Position)
      requires Valid() && ValidTurn(View())
      modifies this, board, board.cells, numPieces
      ensures Valid()
      ensures View() == AfterSpawnPiece(old(View()), spawnPosition)
    {
      if spawnPosition in freeSlots {
        board.SetCellValue(spawnPosition, playerTurn as byte);
        numPieces[playerTurn - 1] := numPieces[playerTurn - 1] + 1;
        unplacedPieces := unplacedPieces - 1;
        freeSlots := RemoveFirst(freeSlots, spawnPosition);
        if unplacedPieces == 0 {
          currentFeedback := "";
          playerTurn := NextPlayer(playerTurn);
        }
      }
    }

    method ChangeTurn()
      requires Valid()
      modifies this
      ensures Valid()
      ensures View() == AfterChangeTurn(old(View()))
    {
      playerTurn := NextPlayer(playerTurn);
    }

    method SetDifficulty(difficulty: int)
      requires Valid()
      modifies this
      ensures Valid()
      ensures View() == old(View()).(difficulty := difficulty)
    {
      this.difficulty := difficulty;
    }
  }
}
