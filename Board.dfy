/** The board object: an 8x8 byte array updated in place. */
module Boards {
  import opened Constants
  import opened Wrappers
  import opened Positions
  import opened Moves
  import opened Grids

  class Board {
    const cells: array2<byte>
    /** The cell values as a value, kept equal to the array. */
    ghost var contents: Grid

    /** The cell array has the board's dimensions. */
    ghost predicate Shaped()
      reads this
    {
      cells.Length0 == BoardLength && cells.Length1 == BoardLength
    }

    /** The cell array has the board's dimensions and holds `contents`. */
    ghost predicate Valid()
      reads this, cells
    {
      Shaped() && forall x, y :: 0 <= x < 8 && 0 <= y < 8 ==> cells[x, y] == contents[x][y]
    }

    /** The current cell values. */
    ghost function Grid(): Grid
      reads this
    {
      contents
    }

    /** The current cell values, read from the array. */
    method Snapshot() returns (g: Grid)
      requires Valid()
      ensures g == Grid()
    {
      var c := cells;
      g := seq(8, x requires 0 <= x < 8 reads c => seq(8, y requires 0 <= y < 8 reads c => c[x, y]));
      GridExtensionality(g, Grid());
    }

    /** The initial layout; `numPieces1` and `numPieces2` are the configured piece
        counts of the two players, None when the setting was never saved. */
    constructor(numPieces1: Option<int>, numPieces2: Option<int>)
      ensures Valid() && fresh(cells)
      ensures Grid() == InitialGrid(numPieces1, numPieces2)
      ensures |CellsHolding(Grid(), WhiteCell)| == LayoutSize(numPieces1)
      ensures |CellsHolding(Grid(), BlackCell)| == LayoutSize(numPieces2)
    {
      cells := new byte[8, 8]((_, _) => 0);
      new;
      Initialize(numPieces1, numPieces2);
    }

    /** Lays out the pieces of both players on an empty board. */
    method Initialize(numPieces1: Option<int>, numPieces2: Option<int>)
      requires Shaped()
      requires forall x, y :: 0 <= x < 8 && 0 <= y < 8 ==> cells[x, y] == EmptyCell
      modifies this, cells
      ensures Valid()
      ensures Grid() == InitialGrid(numPieces1, numPieces2)
      ensures |CellsHolding(Grid(), WhiteCell)| == LayoutSize(numPieces1)
      ensures |CellsHolding(Grid(), BlackCell)| == LayoutSize(numPieces2)
    {
      FillDropZones(numPieces1, numPieces2);
      if FillsThirdRow(numPieces1) {
        FillThirdRow(2, WhiteCell);
      }
      if FillsThirdRow(numPieces2) {
        FillThirdRow(5, BlackCell);
      }
      contents := InitialGrid(numPieces1, numPieces2);
      forall x, y | 0 <= x < 8 && 0 <= y < 8
        ensures cells[x, y] == contents[x][y]
      {
        assert contents[x][y] == InitialCell(numPieces1, numPieces2, x, y);
      }
      InitialCounts(numPieces1, numPieces2);
    }

    /** Puts `value` in columns 1, 2, 5 and 6 of `row`. */
    method FillThirdRow(row: int, value: byte)
      requires Shaped() && 0 <= row < 8
      modifies cells
      ensures forall x, y :: 0 <= x < 8 && 0 <= y < 8 ==>
        cells[x, y] == if y == row && (x == 1 || x == 2 || x == 5 || x == 6) then value else old(cells[x, y])
    {
      cells[1, row] := value;
      cells[2, row] := value;
      cells[5, row] := value;
      cells[6, row] := value;
    }

    /** Fills the two drop-zone rows of each player in columns 1 to 6; a back row
        is filled only for the larger piece counts. */
    method FillDropZones(numPieces1: Option<int>, numPieces2: Option<int>)
      requires Shaped()
      requires forall x, y :: 0 <= x < 8 && 0 <= y < 8 ==> cells[x, y] == EmptyCell
      modifies cells
      ensures forall x, y :: 0 <= x < 8 && 0 <= y < 8 ==>
        cells[x, y] == if 1 <= x <= 6 then DropZoneCell(numPieces1, numPieces2, y) else EmptyCell
    {
      for i := 1 to 7
        invariant forall x, y :: 0 <= x < 8 && 0 <= y < 8 ==>
          cells[x, y] == if 1 <= x < i then DropZoneCell(numPieces1, numPieces2, y) else EmptyCell
      {
        if FillsBackRow(numPieces1) {
          cells[i, 0] := WhiteCell;
        }
        cells[i, 1] := WhiteCell;
        cells[i, 6] := BlackCell;
        if FillsBackRow(numPieces2) {
          cells[i, 7] := BlackCell;
        }
      }
    }

    /** The value of a cell; 0 for a position off the board. */
    function GetCellValue(position: Position): (value: byte)
      reads this, cells
      requires Valid()
      ensures value == CellAt(Grid(), position)
      ensures !position.IsWithinBounderies() ==> value == 0
    {
      if position.IsWithinBounderies() then cells[position.x, position.y] else 0
    }

    /** Overwrites a cell; a position off the board is ignored. */
    method SetCellValue(position: Position, value: byte)
      requires Valid()
      modifies this, cells
      ensures Valid()
      ensures Grid() == WithCell(old(Grid()), position, value)
    {
      if position.IsWithinBounderies() {
        cells[position.x, position.y] := value;
      }
      contents := WithCell(contents, position, value);
      forall x, y | 0 <= x < 8 && 0 <= y < 8
        ensures cells[x, y] == contents[x][y]
      {
        assert contents[x][y] == CellAt(contents, Position(x, y));
      }
    }

    /** Whether a cell holds no piece; false for a position off the board. */
    function IsCellEmpty(position: Position): (empty: bool)
      reads this, cells
      requires Valid()
      ensures empty == EmptyAt(Grid(), position)
      ensures empty ==> position.IsWithinBounderies()
    {
      position.IsWithinBounderies() && cells[position.x, position.y] == EmptyCell
    }

    /** The positions holding `pieceType`, column by column. */
    method GetPiecesPositions(pieceType: int) returns (positions: seq<Position>)
      requires Valid()
      ensures positions == PiecesOf(Grid(), pieceType)
    {
      ghost var g := Grid();
      positions := [];
      for x := 0 to BoardLength
        invariant positions == PiecesUpTo(g, pieceType, 8 * x)
      {
        for y := 0 to BoardLength
          invariant positions == PiecesUpTo(g, pieceType, 8 * x + y)
        {
          var position := Position(x, y);
          assert ScanCell(8 * x + y) == position;
          var value := GetCellValue(position);
          assert PiecesUpTo(g, pieceType, 8 * x + y + 1) ==
            PiecesUpTo(g, pieceType, 8 * x + y) + (if value == pieceType then [position] else []);
          if value == pieceType {
            positions := positions + [position];
          }
        }
      }
    }

    /** The empty cells of the player's drop zone, column by column. */
    method GetFreeSpawnSpots(player: int) returns (freeSpots: seq<Position>)
      requires Valid()
      ensures freeSpots == FreeSpawnSpots(Grid(), player)
    {
      freeSpots := [];
      var yValues := if player == 1 then [0, 1] else [6, 7];
      for x := 1 to 7
        invariant freeSpots == SpotsBefore(Grid(), yValues, x)
      {
        for j := 0 to |yValues|
          invariant freeSpots == SpotsBefore(Grid(), yValues, x) + ColumnSpots(Grid(), x, yValues[..j])
        {
          assert yValues[..j + 1][..j] == yValues[..j];
          var spot := Position(x, yValues[j]);
          if IsCellEmpty(spot) {
            freeSpots := freeSpots + [spot];
          }
        }
        assert yValues[..|yValues|] == yValues;
      }
    }

    /** How many cells of `column` hold `pieceType`; the column must be on the board. */
    method CountPiecesInColumn(pieceType: int, column: int) returns (count: int)
      requires Valid()
      requires 0 <= column < BoardLength
      ensures count == ColumnCount(Grid(), pieceType, column)
    {
      count := 0;
      for y := 0 to BoardLength
        invariant count == CountUpTo(Grid(), pieceType, column, y)
      {
        if cells[column, y] as int == pieceType {
          count := count + 1;
        }
      }
    }

    /** Plays a move without checking it and reports what kind of move it was. */
    method ApplyMove(move: Move) returns (moveType: MoveType)
      requires Valid()
      modifies this, cells
      ensures Valid()
      ensures Grid() == Applied(old(Grid()), move).grid
      ensures moveType == Applied(old(Grid()), move).kind
    {
      var destinyValue := GetCellValue(move.start);
      SetCellValue(move.start, EmptyCell);
      SetCellValue(move.end, destinyValue);
      var midpoint := move.Midpoint();
      if midpoint.Some? {
        if GetCellValue(midpoint.value) != destinyValue {
          moveType := Capture;
          SetCellValue(midpoint.value, EmptyCell);
        } else {
          moveType := Jump;
        }
      } else {
        moveType := Normal;
      }
    }

    /** Plays the moves of a sequence in order without checking them. */
    method ApplyMoveSequence(moves: seq<Move>)
      requires Valid()
      modifies this, cells
      ensures Valid()
      ensures Grid() == AppliedSequence(old(Grid()), moves)
    {
      ghost var start := Grid();
      for i := 0 to |moves|
        invariant Valid()
        invariant Grid() == AppliedSequence(start, moves[..i])
      {
        var move := moves[i];
        ghost var before := Grid();
        var destinyValue := GetCellValue(move.start);
        SetCellValue(move.start, EmptyCell);
        SetCellValue(move.end, destinyValue);
        var midpoint := move.Midpoint();
        if midpoint.Some? && GetCellValue(midpoint.value) != destinyValue {
          SetCellValue(midpoint.value, EmptyCell);
        }
        assert Grid() == Applied(before, move).grid;
        AppliedSequenceSnoc(start, moves[..i], move);
        assert moves[..i + 1] == moves[..i] + [move];
      }
      assert moves[..|moves|] == moves;
    }

    /** A copy with its own cell array. */
    method Clone() returns (cloned: Board)
      requires Valid()
      ensures fresh(cloned) && fresh(cloned.cells)
      ensures cloned.Valid() && cloned.Grid() == Grid()
    {
      cloned := new Board.Copy(this);
    }

    /** A board whose cells are a copy of those of `other`. */
    constructor Copy(other: Board)
      requires other.Valid()
      ensures Valid() && fresh(cells)
      ensures Grid() == other.Grid()
    {
      var source := other.cells;
      cells := new byte[8, 8]((x, y) reads source => if 0 <= x < 8 && 0 <= y < 8 then source[x, y] else 0);
      contents := other.contents;
    }
  }
}
