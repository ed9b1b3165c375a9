/** Board coordinates. */
module Positions {
  import opened Constants

  /** An (x, y) coordinate; x is the column, y the row. Equal by coordinates. */
  datatype Position = Position(x: int, y: int) {

    /** True when the position lies on the 8x8 board. */
    predicate IsWithinBounderies() {
      x >= 0 && x < BoardLength && y >= 0 && y < BoardLength
    }

    /** True when the position lies on the first or the last row. */
    predicate EndOfBoard() {
      y == 0 || y == BoardLength - 1
    }

    /** Coordinate-wise equality. */
    predicate Equals(other: Position) {
      x == other.x && y == other.y
    }

    function GetHashCode(): int {
      x * y + x + y
    }
  }

  /** Coordinate-wise equality is the equality of the datatype. */
  lemma EqualsIsIdentity(p: Position, q: Position)
    ensures p.Equals(q) <==> p == q
  {
  }

  /** Equals is an equivalence relation. */
  lemma EqualsIsEquivalence(p: Position, q: Position, r: Position)
    ensures p.Equals(p)
    ensures p.Equals(q) ==> q.Equals(p)
    ensures p.Equals(q) && q.Equals(r) ==> p.Equals(r)
  {
  }

  /** Equal positions have equal hash codes. */
  lemma HashCodeRespectsEquals(p: Position, q: Position)
    requires p.Equals(q)
    ensures p.GetHashCode() == q.GetHashCode()
  {
  }

  /** The hash code does not separate mirrored coordinates. */
  lemma HashCodeIsSymmetric(p: Position)
    ensures p.GetHashCode() == Position(p.y, p.x).GetHashCode()
  {
  }

  /** Being at an end of the board depends on the row only. */
  lemma EndOfBoardIgnoresColumn(p: Position, column: int)
    ensures p.EndOfBoard() <==> Position(column, p.y).EndOfBoard()
    ensures p.EndOfBoard() <==> p.y == 0 || p.y == 7
  {
  }
}
