/** A snapshot of every rule-relevant field of a match, as a value. */
module MatchStates {
  import opened Wrappers
  import opened Positions
  import opened Grids

  /** The two piece counters; entry i belongs to player i + 1. */
  type Counts = c: seq<int> | |c| == 2 witness [0, 0]

  datatype MatchState = MatchState(
    gameMode: int,
    difficulty: int,
    board: Grid,
    playerTurn: int,
    lastValidDestinies: seq<Position>,
    unplacedPieces: int,
    freeSlots: seq<Position>,
    forcedJumps: seq<Position>,
    lastJumpPosition: Option<Position>,
    isOver: bool,
    numPieces: Counts,
    currentFeedback: string)

  /** The player to move is player 1 or player 2. */
  predicate ValidTurn(s: MatchState) {
    s.playerTurn == 1 || s.playerTurn == 2
  }
}
