/** The board as a value: the specification the Board class is proved against. */
module Grids {
  import opened Constants
  import opened Wrappers
  import opened Positions
  import opened Moves

  /** The 8x8 cells, indexed g[x][y] like the board's cells[x, y]. */
  type Grid = g: seq<seq<byte>> | |g| == 8 && forall x :: 0 <= x < 8 ==> |g[x]| == 8
    witness seq(8, _ => seq(8, _ => 0))

  /** The value of a cell; reading outside the board yields 0. */
  function CellAt(g: Grid, p: Position): byte {
    if p.IsWithinBounderies() then g[p.x][p.y] else 0
  }

  /** True when the cell is on the board and holds no piece. */
  predicate EmptyAt(g: Grid, p: Position)
    ensures EmptyAt(g, p) ==> CellAt(g, p) == EmptyCell
  {
    p.IsWithinBounderies() && g[p.x][p.y] == EmptyCell
  }

  /** The grid with one cell overwritten; writing outside the board changes nothing. */
  function WithCell(g: Grid, p: Position, v: byte): (r: Grid)
    ensures forall q {:trigger CellAt(r, q)} ::
      CellAt(r, q) == if q == p && p.IsWithinBounderies() then v else CellAt(g, q)
  {
    if p.IsWithinBounderies() then
      var column: seq<byte> := g[p.x][p.y := v];
      g[p.x := column]
    else
      g
  }

  /** Two grids that agree on every cell of the board are equal. */
  lemma GridExtensionality(g: Grid, h: Grid)
    requires forall q: Position :: q.IsWithinBounderies() ==> CellAt(g, q) == CellAt(h, q)
    ensures g == h
  {
    forall x | 0 <= x < 8
      ensures g[x] == h[x]
    {
      forall y | 0 <= y < 8
        ensures g[x][y] == h[x][y]
      {
        assert CellAt(g, Position(x, y)) == CellAt(h, Position(x, y));
      }
    }
  }

  // ---------------------------------------------------------------------------
  // Applying moves

  /** The grid after a move together with the kind the move turned out to be. */
  datatype Outcome = Outcome(grid: Grid, kind: MoveType)

  /** Applies a move without checking it: the start cell's value is moved to the
      end cell; when the move has a midpoint whose value (read after the move)
      differs from the moved value, the midpoint is emptied and the move is a
      capture, otherwise a jump; a move without a midpoint is normal. */
  function Applied(g: Grid, m: Move): (o: Outcome)
    ensures o.kind != Invalid
    ensures o.kind == Normal <==> m.Midpoint().None?
  {
    var v := CellAt(g, m.start);
    var moved := WithCell(WithCell(g, m.start, EmptyCell), m.end, v);
    match m.Midpoint()
    case None => Outcome(moved, Normal)
    case Some(mid) =>
      if CellAt(moved, mid) != v then Outcome(WithCell(moved, mid, EmptyCell), Capture)
      else Outcome(moved, Jump)
  }

  /** On board cells, a move empties its start, puts the start's value on its end,
      removes the piece in between exactly when it is of another value, and
      leaves every other cell as it was. */
  lemma AppliedEffect(g: Grid, m: Move)
    requires m.start.IsWithinBounderies() && m.end.IsWithinBounderies() && m.start != m.end
    ensures CellAt(Applied(g, m).grid, m.start) == EmptyCell
    ensures CellAt(Applied(g, m).grid, m.end) == CellAt(g, m.start)
    ensures m.Midpoint().Some? && m.Midpoint().value != m.start && m.Midpoint().value != m.end ==>
      (Applied(g, m).kind == Capture <==> CellAt(g, m.Midpoint().value) != CellAt(g, m.start))
    ensures Applied(g, m).kind == Capture ==> CellAt(Applied(g, m).grid, m.Midpoint().value) == EmptyCell
    ensures forall q :: q != m.start && q != m.end && (m.Midpoint().Some? ==> q != m.Midpoint().value) ==>
      CellAt(Applied(g, m).grid, q) == CellAt(g, q)
    ensures Applied(g, m).kind != Capture ==>
      forall q :: q != m.start && q != m.end ==> CellAt(Applied(g, m).grid, q) == CellAt(g, q)
  {
  }

  /** Applies the moves in order, each with the effect of Applied. */
  function AppliedSequence(g: Grid, moves: seq<Move>): Grid
    decreases |moves|
  {
    if |moves| == 0 then g else AppliedSequence(Applied(g, moves[0]).grid, moves[1..])
  }

  /** Applying a sequence extended by one move applies that move last. */
  lemma {:induction false} AppliedSequenceSnoc(g: Grid, moves: seq<Move>, m: Move)
    ensures AppliedSequence(g, moves + [m]) == Applied(AppliedSequence(g, moves), m).grid
    decreases |moves|
  {
    if |moves| == 0 {
      assert [m][1..] == [];
    } else {
      assert (moves + [m])[1..] == moves[1..] + [m];
      AppliedSequenceSnoc(Applied(g, moves[0]).grid, moves[1..], m);
    }
  }

  // ---------------------------------------------------------------------------
  // Scanning the board

  /** The scan rank of a cell: columns left to right, each column top to bottom. */
  function ScanIndex(p: Position): int {
    8 * p.x + p.y
  }

  /** The cell of a scan rank. */
  function ScanCell(k: int): (p: Position)
    requires 0 <= k < 64
    ensures p.IsWithinBounderies() && ScanIndex(p) == k
  {
    Position(k / 8, k % 8)
  }

  /** Distinct board cells have distinct scan ranks. */
  lemma ScanIndexInjective(p: Position, q: Position)
    requires p.IsWithinBounderies() && q.IsWithinBounderies() && ScanIndex(p) == ScanIndex(q)
    ensures p == q
  {
  }

  /** True when no element occurs twice. */
  predicate NoDuplicates<T(==)>(xs: seq<T>) {
    forall i, j :: 0 <= i < j < |xs| ==> xs[i] != xs[j]
  }

  /** The cells among the first k in scan order that hold `pieceType`. */
  function PiecesUpTo(g: Grid, pieceType: int, k: int): seq<Position>
    requires 0 <= k <= 64
  {
    if k == 0 then []
    else
      var p := ScanCell(k - 1);
      PiecesUpTo(g, pieceType, k - 1) + (if CellAt(g, p) == pieceType then [p] else [])
  }

  /** The cells holding `pieceType`, in scan order. */
  function PiecesOf(g: Grid, pieceType: int): seq<Position> {
    PiecesUpTo(g, pieceType, 64)
  }

  lemma {:induction false} PiecesUpToSpec(g: Grid, pieceType: int, k: int)
    requires 0 <= k <= 64
    ensures forall p :: p in PiecesUpTo(g, pieceType, k) <==>
      p.IsWithinBounderies() && ScanIndex(p) < k && CellAt(g, p) == pieceType
    ensures forall i, j :: 0 <= i < j < |PiecesUpTo(g, pieceType, k)| ==>
      ScanIndex(PiecesUpTo(g, pieceType, k)[i]) < ScanIndex(PiecesUpTo(g, pieceType, k)[j])
    ensures |PiecesUpTo(g, pieceType, k)| <= k
    decreases k
  {
    if k > 0 {
      PiecesUpToSpec(g, pieceType, k - 1);
      var p := ScanCell(k - 1);
      forall q: Position | q.IsWithinBounderies() && ScanIndex(q) == k - 1
        ensures q == p
      {
        ScanIndexInjective(q, p);
      }
    }
  }

  /** The pieces of a type are exactly the board cells holding it, listed
      column by column, each once. */
  lemma PiecesOfSpec(g: Grid, pieceType: int)
    ensures forall p :: p in PiecesOf(g, pieceType) <==> p.IsWithinBounderies() && CellAt(g, p) == pieceType
    ensures forall i, j :: 0 <= i < j < |PiecesOf(g, pieceType)| ==>
      ScanIndex(PiecesOf(g, pieceType)[i]) < ScanIndex(PiecesOf(g, pieceType)[j])
    ensures NoDuplicates(PiecesOf(g, pieceType))
    ensures |PiecesOf(g, pieceType)| <= 64
  {
    PiecesUpToSpec(g, pieceType, 64);
  }

  // ---------------------------------------------------------------------------
  // Drop zones

  /** The rows of a player's drop zone. */
  function SpawnRows(player: int): (ys: seq<int>)
    ensures |ys| == 2 && ys[0] < ys[1]
  {
    if player == 1 then [0, 1] else [6, 7]
  }

  /** The empty cells of column x at the given rows, in the rows' order. */
  function ColumnSpots(g: Grid, x: int, ys: seq<int>): seq<Position>
    decreases |ys|
  {
    if |ys| == 0 then []
    else
      var y := ys[|ys| - 1];
      ColumnSpots(g, x, ys[..|ys| - 1]) + (if EmptyAt(g, Position(x, y)) then [Position(x, y)] else [])
  }

  /** The empty drop-zone cells of the columns 1 to x - 1, column by column. */
  function SpotsBefore(g: Grid, ys: seq<int>, x: int): seq<Position>
    requires 1 <= x <= 7
  {
    if x == 1 then [] else SpotsBefore(g, ys, x - 1) + ColumnSpots(g, x - 1, ys)
  }

  /** The empty cells of the player's drop zone: columns 1 to 6 of its two rows. */
  function FreeSpawnSpots(g: Grid, player: int): seq<Position> {
    SpotsBefore(g, SpawnRows(player), 7)
  }

  lemma {:induction false} ColumnSpotsSpec(g: Grid, x: int, ys: seq<int>)
    requires forall i, j :: 0 <= i < j < |ys| ==> ys[i] < ys[j]
    ensures forall p :: p in ColumnSpots(g, x, ys) <==> p.x == x && p.y in ys && EmptyAt(g, p)
    ensures forall i, j :: 0 <= i < j < |ColumnSpots(g, x, ys)| ==>
      ColumnSpots(g, x, ys)[i].y < ColumnSpots(g, x, ys)[j].y
    ensures |ColumnSpots(g, x, ys)| <= |ys|
    decreases |ys|
  {
    if |ys| > 0 {
      ColumnSpotsSpec(g, x, ys[..|ys| - 1]);
      assert ys == ys[..|ys| - 1] + [ys[|ys| - 1]];
    }
  }

  /** Concatenating disjoint lists without repetitions gives a list without repetitions. */
  lemma ConcatNoDuplicates<T>(a: seq<T>, b: seq<T>)
    requires NoDuplicates(a) && NoDuplicates(b)
    requires forall u :: u in a ==> u !in b
    ensures NoDuplicates(a + b)
  {
    forall i, j | 0 <= i < j < |a + b|
      ensures (a + b)[i] != (a + b)[j]
    {
      if i < |a| <= j {
        assert a[i] in a && b[j - |a|] in b;
      }
    }
  }

  lemma {:induction false} SpotsBeforeSpec(g: Grid, ys: seq<int>, x: int)
    requires 1 <= x <= 7
    requires forall i, j :: 0 <= i < j < |ys| ==> ys[i] < ys[j]
    ensures forall p :: p in SpotsBefore(g, ys, x) <==> 1 <= p.x < x && p.y in ys && EmptyAt(g, p)
    ensures NoDuplicates(SpotsBefore(g, ys, x))
    ensures |SpotsBefore(g, ys, x)| <= (x - 1) * |ys|
    decreases x
  {
    if x > 1 {
      SpotsBeforeSpec(g, ys, x - 1);
      ColumnSpotsSpec(g, x - 1, ys);
      var a := SpotsBefore(g, ys, x - 1);
      var b := ColumnSpots(g, x - 1, ys);
      assert NoDuplicates(b) by {
        forall i, j | 0 <= i < j < |b|
          ensures b[i] != b[j]
        {
          assert b[i].y < b[j].y;
        }
      }
      ConcatNoDuplicates(a, b);
      assert (x - 1) * |ys| == (x - 2) * |ys| + |ys|;
    }
  }

  /** The free spots of a drop zone are exactly its empty cells, each listed once. */
  lemma FreeSpawnSpotsSpec(g: Grid, player: int)
    ensures forall p :: p in FreeSpawnSpots(g, player) <==>
      1 <= p.x <= 6 && (if player == 1 then p.y == 0 || p.y == 1 else p.y == 6 || p.y == 7) && EmptyAt(g, p)
    ensures NoDuplicates(FreeSpawnSpots(g, player))
    ensures |FreeSpawnSpots(g, player)| <= 12
  {
    SpotsBeforeSpec(g, SpawnRows(player), 7);
  }

  // ---------------------------------------------------------------------------
  // Piece sets

  /** The board cells holding `pieceType`. */
  function CellsHolding(g: Grid, pieceType: int): set<Position> {
    set x, y | 0 <= x < 8 && 0 <= y < 8 && g[x][y] == pieceType :: Position(x, y)
  }

  lemma CellsHoldingSpec(g: Grid, pieceType: int)
    ensures forall p :: p in CellsHolding(g, pieceType) <==> p.IsWithinBounderies() && CellAt(g, p) == pieceType
  {
    forall p: Position | p.IsWithinBounderies() && CellAt(g, p) == pieceType
      ensures p in CellsHolding(g, pieceType)
    {
      assert p == Position(p.x, p.y);
    }
  }

  /** Writing one board cell adds it to the set of its new value and removes it
      from the sets of every other value. */
  lemma CellsHoldingAfterWrite(g: Grid, p: Position, v: byte, pieceType: int)
    requires p.IsWithinBounderies()
    ensures CellsHolding(WithCell(g, p, v), pieceType) ==
      if v == pieceType then CellsHolding(g, pieceType) + {p} else CellsHolding(g, pieceType) - {p}
  {
    CellsHoldingSpec(g, pieceType);
    CellsHoldingSpec(WithCell(g, p, v), pieceType);
  }

  /** Writing one board cell changes the number of cells holding a value by at most one. */
  lemma WriteCount(g: Grid, p: Position, v: byte, pieceType: int)
    requires p.IsWithinBounderies()
    ensures |CellsHolding(WithCell(g, p, v), pieceType)| ==
      |CellsHolding(g, pieceType)| + (if v == pieceType then 1 else 0) - (if CellAt(g, p) == pieceType then 1 else 0)
  {
    CellsHoldingAfterWrite(g, p, v, pieceType);
    CellsHoldingSpec(g, pieceType);
  }

  /** A move from a board cell to a different, empty board cell keeps the number
      of pieces of every kind, except that a capture removes the piece it jumps over. */
  lemma AppliedCount(g: Grid, m: Move, pieceType: int)
    requires m.start.IsWithinBounderies() && m.end.IsWithinBounderies() && m.start != m.end
    requires EmptyAt(g, m.end) && pieceType != EmptyCell
    ensures Applied(g, m).kind == Capture ==> m.Midpoint().value.IsWithinBounderies()
    ensures |CellsHolding(Applied(g, m).grid, pieceType)| ==
      |CellsHolding(g, pieceType)| -
      (if Applied(g, m).kind == Capture && CellAt(g, m.Midpoint().value) == pieceType then 1 else 0)
  {
    var v := CellAt(g, m.start);
    var g1 := WithCell(g, m.start, EmptyCell);
    var g2 := WithCell(g1, m.end, v);
    WriteCount(g, m.start, EmptyCell, pieceType);
    WriteCount(g1, m.end, v, pieceType);
    if m.Midpoint().Some? {
      var mid := m.Midpoint().value;
      assert mid != m.start && mid != m.end;
      if CellAt(g2, mid) != v {
        WriteCount(g2, mid, EmptyCell, pieceType);
      }
    }
  }

  // ---------------------------------------------------------------------------
  // Column counts

  /** How many of the first k cells of a column hold `pieceType`. */
  function CountUpTo(g: Grid, pieceType: int, column: int, k: int): int
    requires 0 <= column < 8 && 0 <= k <= 8
  {
    if k == 0 then 0
    else CountUpTo(g, pieceType, column, k - 1) + (if g[column][k - 1] == pieceType then 1 else 0)
  }

  /** How many cells of a column hold `pieceType`. */
  function ColumnCount(g: Grid, pieceType: int, column: int): int
    requires 0 <= column < 8
  {
    CountUpTo(g, pieceType, column, 8)
  }

  lemma {:induction false} CountUpToIsMultiplicity(g: Grid, pieceType: int, column: int, k: int)
    requires 0 <= column < 8 && 0 <= k <= 8
    ensures CountUpTo(g, pieceType, column, k) == multiset(ColumnValues(g, column)[..k])[pieceType]
    decreases k
  {
    if k > 0 {
      CountUpToIsMultiplicity(g, pieceType, column, k - 1);
      var col := ColumnValues(g, column);
      assert col[..k] == col[..k - 1] + [col[k - 1]];
    }
  }

  /** The values of a column, top to bottom, as integers. */
  function ColumnValues(g: Grid, column: int): (col: seq<int>)
    requires 0 <= column < 8
    ensures |col| == 8 && forall y :: 0 <= y < 8 ==> col[y] == CellAt(g, Position(column, y))
  {
    seq(8, y requires 0 <= y < 8 => g[column][y] as int)
  }

  /** A column count is the multiplicity of the value in the column, so at most 8. */
  lemma ColumnCountSpec(g: Grid, pieceType: int, column: int)
    requires 0 <= column < 8
    ensures ColumnCount(g, pieceType, column) == multiset(ColumnValues(g, column))[pieceType]
    ensures 0 <= ColumnCount(g, pieceType, column) <= 8
  {
    CountUpToIsMultiplicity(g, pieceType, column, 8);
    assert ColumnValues(g, column)[..8] == ColumnValues(g, column);
  }

  // ---------------------------------------------------------------------------
  // Initial layout

  /** Whether a configured piece count fills the back row of the drop zone. */
  predicate FillsBackRow(numPieces: Option<int>) {
    numPieces.None? || numPieces.value > 10
  }

  /** Whether a configured piece count fills the four cells of the third row. */
  predicate FillsThirdRow(numPieces: Option<int>) {
    numPieces.None? || numPieces.value == 10 || numPieces.value == 16
  }

  /** The value the first loop of the layout gives to row y of columns 1 to 6. */
  function DropZoneCell(numPieces1: Option<int>, numPieces2: Option<int>, y: int): byte {
    if y == 1 || (y == 0 && FillsBackRow(numPieces1)) then WhiteCell
    else if y == 6 || (y == 7 && FillsBackRow(numPieces2)) then BlackCell
    else EmptyCell
  }

  /** The value of a cell at the start of a match (absent counts mean the default). */
  function InitialCell(numPieces1: Option<int>, numPieces2: Option<int>, x: int, y: int): byte {
    if 1 <= x <= 6 && (y == 1 || (y == 0 && FillsBackRow(numPieces1))) then WhiteCell
    else if 1 <= x <= 6 && (y == 6 || (y == 7 && FillsBackRow(numPieces2))) then BlackCell
    else if (x == 1 || x == 2 || x == 5 || x == 6) && y == 2 && FillsThirdRow(numPieces1) then WhiteCell
    else if (x == 1 || x == 2 || x == 5 || x == 6) && y == 5 && FillsThirdRow(numPieces2) then BlackCell
    else EmptyCell
  }

  /** The grid at the start of a match. */
  function InitialGrid(numPieces1: Option<int>, numPieces2: Option<int>): Grid {
    seq(8, x requires 0 <= x < 8 => seq(8, y requires 0 <= y < 8 => InitialCell(numPieces1, numPieces2, x, y)))
  }

  /** Columns 1 to 6 of row `y`, the cells the layout fills in a drop-zone row. */
  function DropZoneRow(y: int): set<Position> {
    {Position(1, y), Position(2, y), Position(3, y), Position(4, y), Position(5, y), Position(6, y)}
  }

  /** Columns 1, 2, 5 and 6 of row `y`, the cells the layout fills in a third row. */
  function ThirdRowCells(y: int): set<Position> {
    {Position(1, y), Position(2, y), Position(5, y), Position(6, y)}
  }

  /** The cells one side occupies at the start: its front drop-zone row, its back
      row and its third row when the configured count selects them. */
  function Layout(numPieces: Option<int>, front: int, back: int, third: int): set<Position> {
    DropZoneRow(front)
      + (if FillsBackRow(numPieces) then DropZoneRow(back) else {})
      + (if FillsThirdRow(numPieces) then ThirdRowCells(third) else {})
  }

  /** The number of pieces a configured count lays out. */
  function LayoutSize(numPieces: Option<int>): int {
    6 + (if FillsBackRow(numPieces) then 6 else 0) + (if FillsThirdRow(numPieces) then 4 else 0)
  }

  /** The three rows of a side are disjoint, so the layout has LayoutSize cells. */
  lemma LayoutHasSize(numPieces: Option<int>, front: int, back: int, third: int)
    requires front != back && front != third && back != third
    ensures |Layout(numPieces, front, back, third)| == LayoutSize(numPieces)
  {
    var f, b, t := DropZoneRow(front), DropZoneRow(back), ThirdRowCells(third);
    assert |f| == 6 && |b| == 6 && |t| == 4;
    var bs := if FillsBackRow(numPieces) then b else {};
    var ts := if FillsThirdRow(numPieces) then t else {};
    assert f * bs == {} by {
      forall p | p in f ensures p !in bs { assert p.y == front; }
    }
    assert |f + bs| == |f| + |bs|;
    assert (f + bs) * ts == {} by {
      forall p | p in f + bs ensures p !in ts { assert p.y == front || p.y == back; }
    }
  }

  /** A cell starts with a piece of player 1 exactly when it is in that player's layout. */
  lemma InitialWhiteCell(numPieces1: Option<int>, numPieces2: Option<int>, x: int, y: int)
    requires 0 <= x < 8 && 0 <= y < 8
    ensures InitialCell(numPieces1, numPieces2, x, y) == WhiteCell <==> Position(x, y) in Layout(numPieces1, 1, 0, 2)
  {
  }

  /** A cell starts with a piece of player 2 exactly when it is in that player's layout. */
  lemma InitialBlackCell(numPieces1: Option<int>, numPieces2: Option<int>, x: int, y: int)
    requires 0 <= x < 8 && 0 <= y < 8
    ensures InitialCell(numPieces1, numPieces2, x, y) == BlackCell <==> Position(x, y) in Layout(numPieces2, 6, 7, 5)
  {
  }

  /** Player 1's pieces at the start are rows 1, 0 and 2 of its layout. */
  lemma InitialWhiteCells(numPieces1: Option<int>, numPieces2: Option<int>)
    ensures CellsHolding(InitialGrid(numPieces1, numPieces2), WhiteCell) == Layout(numPieces1, 1, 0, 2)
  {
    var g := InitialGrid(numPieces1, numPieces2);
    var layout := Layout(numPieces1, 1, 0, 2);
    CellsHoldingSpec(g, WhiteCell);
    forall p: Position
      ensures p in CellsHolding(g, WhiteCell) <==> p in layout
    {
      if p.IsWithinBounderies() {
        assert CellAt(g, p) == InitialCell(numPieces1, numPieces2, p.x, p.y);
        InitialWhiteCell(numPieces1, numPieces2, p.x, p.y);
      } else {
        assert p !in layout;
      }
    }
  }

  /** Player 2's pieces at the start are rows 6, 7 and 5 of its layout. */
  lemma InitialBlackCells(numPieces1: Option<int>, numPieces2: Option<int>)
    ensures CellsHolding(InitialGrid(numPieces1, numPieces2), BlackCell) == Layout(numPieces2, 6, 7, 5)
  {
    var g := InitialGrid(numPieces1, numPieces2);
    var layout := Layout(numPieces2, 6, 7, 5);
    CellsHoldingSpec(g, BlackCell);
    forall p: Position
      ensures p in CellsHolding(g, BlackCell) <==> p in layout
    {
      if p.IsWithinBounderies() {
        assert CellAt(g, p) == InitialCell(numPieces1, numPieces2, p.x, p.y);
        InitialBlackCell(numPieces1, numPieces2, p.x, p.y);
      } else {
        assert p !in layout;
      }
    }
  }

  /** Each side starts with LayoutSize pieces of its configured count: 16 when
      unset or 16, 12 for 12, 10 for 10 and 6 for 6. */
  lemma InitialCounts(numPieces1: Option<int>, numPieces2: Option<int>)
    ensures |CellsHolding(InitialGrid(numPieces1, numPieces2), WhiteCell)| == LayoutSize(numPieces1)
    ensures |CellsHolding(InitialGrid(numPieces1, numPieces2), BlackCell)| == LayoutSize(numPieces2)
    ensures LayoutSize(None) == 16 && LayoutSize(Some(16)) == 16 && LayoutSize(Some(12)) == 12
    ensures LayoutSize(Some(10)) == 10 && LayoutSize(Some(6)) == 6
  {
    InitialWhiteCells(numPieces1, numPieces2);
    InitialBlackCells(numPieces1, numPieces2);
    LayoutHasSize(numPieces1, 1, 0, 2);
    LayoutHasSize(numPieces2, 6, 7, 5);
  }

  /** The layout is mirrored: a cell holds a piece of player 1 exactly when the
      cell in the mirrored row holds a piece of player 2 once the counts swap. */
  lemma InitialMirror(numPieces1: Option<int>, numPieces2: Option<int>, x: int, y: int)
    requires 0 <= y < 8
    ensures InitialCell(numPieces1, numPieces2, x, y) == WhiteCell
        <==> InitialCell(numPieces2, numPieces1, x, 7 - y) == BlackCell
  {
    if y < 4 {
      assert InitialCell(numPieces2, numPieces1, x, 7 - y) != WhiteCell;
    } else {
      assert InitialCell(numPieces1, numPieces2, x, y) != WhiteCell;
      assert InitialCell(numPieces2, numPieces1, x, 7 - y) != BlackCell;
    }
  }
}
