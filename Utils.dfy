/** Helpers shared by the rules engine and the AI: turn alternation, cell
    identifiers, configuration mappings and move-list construction. */
module Utils {
  import opened Constants
  import opened Positions
  import opened Moves

  /** C#'s integer remainder, which truncates toward zero, for a positive divisor. */
  function CsRemainder(a: int, b: int): (r: int)
    requires b > 0
    ensures a >= 0 ==> 0 <= r < b
    ensures a < 0 ==> -b < r <= 0
  {
    if a >= 0 then a % b else -((-a) % b)
  }

  /** C#'s integer division, which truncates toward zero, for a positive divisor. */
  function CsQuotient(a: int, b: int): (q: int)
    requires b > 0
    ensures q * b + CsRemainder(a, b) == a
  {
    if a >= 0 then a / b else -((-a) / b)
  }

  /** The player who moves after `player`, C#'s `player % 2 + 1` (the
      remainder written out as in CsRemainder): 1 and 2 alternate. */
  function NextPlayer(player: int): (next: int)
    ensures next - 1 == CsRemainder(player, 2)
    ensures player == 1 ==> next == 2
    ensures player == 2 ==> next == 1
    ensures (player == 1 || player == 2) ==> next != player && (next == 1 || next == 2)
  {
    (if player >= 0 then player % 2 else -((-player) % 2)) + 1
  }

  /** Alternation is an involution on the two players. */
  lemma NextPlayerInvolution(player: int)
    requires player == 1 || player == 2
    ensures NextPlayer(NextPlayer(player)) == player
  {
  }

  /** The row-major identifier of a cell. */
  function PositionToId(p: Position): int {
    p.y * BoardLength + p.x
  }

  /** The cell of a row-major identifier, with C#'s truncating division. */
  function IdToPosition(id: int): Position {
    Position(CsRemainder(id, BoardLength), CsQuotient(id, BoardLength))
  }

  /** Cells of the board have identifiers 0 to 63, one each. */
  lemma PositionToIdRange(p: Position, q: Position)
    requires p.IsWithinBounderies() && q.IsWithinBounderies()
    ensures 0 <= PositionToId(p) < 64
    ensures PositionToId(p) == PositionToId(q) ==> p == q
  {
  }

  /** Converting a cell to its identifier and back gives the cell. */
  lemma IdRoundTrip(p: Position)
    requires p.IsWithinBounderies()
    ensures IdToPosition(PositionToId(p)) == p
  {
  }

  /** Converting any identifier to a position and back gives the identifier. */
  lemma PositionRoundTrip(id: int)
    ensures PositionToId(IdToPosition(id)) == id
  {
  }

  /** Identifiers 0 to 63 name cells of the board. */
  lemma IdToPositionInBounds(id: int)
    requires 0 <= id < 64
    ensures IdToPosition(id).IsWithinBounderies()
  {
  }

  /** The number of pieces selected by a settings option. */
  function MapOptValueToNumPieces(optValue: int): (numPieces: int)
    ensures numPieces in {16, 12, 10, 6}
    ensures optValue !in {0, 1, 2, 3} ==> numPieces == DefaultNumPieces
  {
    match optValue
    case 0 => 16
    case 1 => 12
    case 2 => 10
    case 3 => 6
    case _ => 16
  }

  /** The settings option that selects a number of pieces. */
  function MapNumPiecesToOptValue(numPieces: int): (optValue: int)
    ensures 0 <= optValue <= 3
    ensures numPieces !in {16, 12, 10, 6} ==> optValue == 0
  {
    match numPieces
    case 16 => 0
    case 12 => 1
    case 10 => 2
    case 6 => 3
    case _ => 0
  }

  /** Option and piece count mappings are inverse on their meaningful values. */
  lemma OptionMappingsRoundTrip(optValue: int, numPieces: int)
    ensures 0 <= optValue <= 3 ==> MapNumPiecesToOptValue(MapOptValueToNumPieces(optValue)) == optValue
    ensures numPieces in {16, 12, 10, 6} ==> MapOptValueToNumPieces(MapNumPiecesToOptValue(numPieces)) == numPieces
  {
  }

  /** The display name of a difficulty. */
  function DifficultyName(difficulty: int): (name: string)
    ensures difficulty == Easy ==> name == "Easy"
    ensures difficulty == Medium ==> name == "Medium"
    ensures difficulty == MediumPlus ==> name == "Medium+"
    ensures difficulty == Hard ==> name == "Hard"
    ensures difficulty !in {Easy, Medium, MediumPlus, Hard} ==> name == "Unassigned"
  {
    match difficulty
    case 0 => "Easy"
    case 1 => "Medium"
    case 2 => "Medium+"
    case 3 => "Hard"
    case _ => "Unassigned"
  }

  /** Distinct difficulties have distinct names. */
  lemma DifficultyNamesDistinct(d: int, e: int)
    requires d in {Easy, Medium, MediumPlus, Hard} && e in {Easy, Medium, MediumPlus, Hard}
    requires d != e
    ensures DifficultyName(d) != DifficultyName(e)
  {
  }

  /** The moves from `start` to each destination in order, all labelled `kind`. */
  function MovesList(start: Position, destinies: seq<Position>, kind: MoveType): (moves: seq<Move>)
    ensures |moves| == |destinies|
  {
    if |destinies| == 0 then []
    else MovesList(start, destinies[..|destinies| - 1], kind) + [Move(start, destinies[|destinies| - 1], kind)]
  }

  /** The i-th move of MovesList goes from `start` to the i-th destination. */
  lemma {:induction false} MovesListAt(start: Position, destinies: seq<Position>, kind: MoveType, i: int)
    requires 0 <= i < |destinies|
    ensures MovesList(start, destinies, kind)[i] == Move(start, destinies[i], kind)
    decreases |destinies|
  {
    if i < |destinies| - 1 {
      MovesListAt(start, destinies[..|destinies| - 1], kind, i);
    }
  }

  /** The moves of MovesList are exactly those from `start` to a listed destination with the given kind. */
  lemma MovesListMembership(start: Position, destinies: seq<Position>, kind: MoveType)
    ensures forall m :: m in MovesList(start, destinies, kind) <==>
      (m.start == start && m.end in destinies && m.kind == kind)
  {
    var moves := MovesList(start, destinies, kind);
    forall i | 0 <= i < |destinies|
      ensures moves[i] == Move(start, destinies[i], kind)
    {
      MovesListAt(start, destinies, kind, i);
    }
    forall m: Move | m.start == start && m.end in destinies && m.kind == kind
      ensures m in moves
    {
      var i :| 0 <= i < |destinies| && destinies[i] == m.end;
      assert moves[i] == m;
    }
  }

  /** Builds the labelled moves from `start` to each destination. */
  method ToMovesList(start: Position, destinies: seq<Position>, kind: MoveType) returns (movesList: seq<Move>)
    ensures movesList == MovesList(start, destinies, kind)
  {
    movesList := [];
    for i := 0 to |destinies|
      invariant movesList == MovesList(start, destinies[..i], kind)
    {
      assert destinies[..i + 1][..i] == destinies[..i];
      movesList := movesList + [Move(start, destinies[i], kind)];
    }
    assert destinies[..|destinies|] == destinies;
  }

  /** The list without its first occurrence of `p`, as List.Remove leaves it. */
  function RemoveFirst(xs: seq<Position>, p: Position): (r: seq<Position>)
    ensures p in xs ==> |r| == |xs| - 1 && multiset(r) == multiset(xs) - multiset{p}
    ensures p !in xs ==> r == xs
  {
    if |xs| == 0 then []
    else if xs[0] == p then (assert xs == [xs[0]] + xs[1..]; xs[1..])
    else (assert xs == [xs[0]] + xs[1..]; [xs[0]] + RemoveFirst(xs[1..], p))
  }

  /** The smaller of two integers. */
  function Min(a: int, b: int): (m: int)
    ensures m <= a && m <= b && (m == a || m == b)
  {
    if a < b then a else b
  }

  /** The larger of two integers. */
  function Max(a: int, b: int): (m: int)
    ensures m >= a && m >= b && (m == a || m == b)
  {
    if a > b then a else b
  }
}
