/** A chain of moves played by one piece in one turn. */
module MoveSequences {
  import opened Moves

  class MoveSequence {
    var moves: seq<Move>

    /** An empty chain. */
    constructor()
      ensures moves == []
    {
      moves := [];
    }

    /** Appends a move at the end of the chain. */
    method AddMove(move: Move)
      modifies this
      ensures moves == old(moves) + [move]
    {
      moves := moves + [move];
    }

    /** A new chain holding copies of the moves, in order. */
    method Clone() returns (clone: MoveSequence)
      ensures fresh(clone)
      ensures clone.moves == moves
    {
      clone := new MoveSequence();
      for i := 0 to |moves|
        invariant fresh(clone)
        invariant clone.moves == moves[..i]
      {
        clone.AddMove(moves[i].Clone());
      }
    }
  }
}
