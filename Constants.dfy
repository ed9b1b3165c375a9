/** Values shared by the rules engine: board size, cell codes, game modes,
    difficulty identifiers and the integer range of the search scores. */
module Constants {
  /** Number of cells in a board line. */
  const BoardLength: int := 8

  /** Cell codes stored in the board grid. */
  const EmptyCell: int := 0
  const WhiteCell: int := 1  // pieces of player 1
  const BlackCell: int := 2  // pieces of player 2

  /** Game modes. */
  const SinglePlayer: int := 0
  const MultiPlayer: int := 1

  /** Difficulty identifiers. */
  const Easy: int := 0
  const Medium: int := 1
  const MediumPlus: int := 2
  const Hard: int := 3

  /** Number of pieces per player when no configuration is set. */
  const DefaultNumPieces: int := 16

  /** The 32-bit bounds the search uses as minus and plus infinity. */
  const IntMin: int := -0x8000_0000
  const IntMax: int := 0x7FFF_FFFF

  /** The cells of the board grid are bytes. */
  type byte = x: int | 0 <= x < 256
}
