/** A single displacement of a piece. */
module Moves {
  import opened Wrappers
  import opened Positions

  /** How a move turned out once applied to a board. */
  datatype MoveType = Normal | Jump | Capture | Invalid

  /** A move from `start` to `end`. The kind plays the role of the source's
      `type` field: it is set by whoever builds the move (the rules engine
      labels generated moves) and is otherwise left at its default, Normal. */
  datatype Move = Move(start: Position, end: Position, kind: MoveType) {

    /** The cell halfway between start and end, absent when an offset is odd.
        Dafny's remainder of an odd number is 1 where C#'s may be -1: both are
        non-zero, so the test agrees; the halving is exact on even offsets. */
    function Midpoint(): (r: Option<Position>)
      ensures r.Some? <==> (start.x + end.x) % 2 == 0 && (start.y + end.y) % 2 == 0
      ensures r.Some? ==> 2 * r.value.x == start.x + end.x && 2 * r.value.y == start.y + end.y
    {
      var offsetX := start.x - end.x;
      var offsetY := start.y - end.y;
      if offsetX % 2 != 0 || offsetY % 2 != 0 then
        None
      else
        Some(Position(start.x - offsetX / 2, start.y - offsetY / 2))
    }

    /** A copy of this move. */
    function Clone(): (r: Move)
      ensures r.start == start && r.end == end && r.kind == kind
    {
      Move(start, end, kind)
    }
  }

  /** A move built by the two-argument constructor: its kind is the default. */
  function NewMove(start: Position, end: Position): (m: Move)
    ensures m.start == start && m.end == end && m.kind == Normal
  {
    Move(start, end, Normal)
  }

  /** A move that changes the row by one has no midpoint. */
  lemma OneRowMoveHasNoMidpoint(m: Move)
    requires m.start.y - m.end.y == 1 || m.end.y - m.start.y == 1
    ensures m.Midpoint() == None
  {
  }

  /** A two-step move between board cells has its midpoint on the board. */
  lemma TwoStepMidpointInBounds(m: Move)
    requires m.end.x - m.start.x in {-2, 0, 2} && m.end.y - m.start.y in {-2, 0, 2}
    requires m.start.IsWithinBounderies() && m.end.IsWithinBounderies()
    ensures m.Midpoint().Some? && m.Midpoint().value.IsWithinBounderies()
    ensures m.start != m.end ==> m.Midpoint().value != m.start && m.Midpoint().value != m.end
  {
  }
}
