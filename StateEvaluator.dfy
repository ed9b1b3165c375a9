/** The scores the computer player gives to match states: the two heuristics
    that evaluate a state, and the strategic bonus of the MediumPlus difficulty. */
module StateEvaluator {
  import opened Constants
  import opened Positions
  import opened Utils
  import opened Grids
  import opened MatchStates
  import opened Boards
  import opened Matches

  /** One draw of the random factor of the easy heuristic: 0 to 9. */
  type Draw = r: int | 0 <= r < 10

  /** The largest magnitude an evaluation can reach: 64 pieces worth 67 each. */
  const EvaluationBound: int := 64 * 67

  // ---------------------------------------------------------------------------
  // The medium heuristic

  /** What a piece is worth: 50, plus how far it stands from row 0 when
      `fromRowZero` and from row 7 otherwise, plus 10 on an edge column. */
  function PieceValue(p: Position, fromRowZero: bool): int {
    50 + (if fromRowZero then p.y else 7 - p.y) + (if p.x == 0 || p.x == 7 then 10 else 0)
  }

  /** The worth of the pieces of a list, in list order. */
  function ValueSum(ps: seq<Position>, fromRowZero: bool): int {
    if |ps| == 0 then 0 else ValueSum(ps[..|ps| - 1], fromRowZero) + PieceValue(ps[|ps| - 1], fromRowZero)
  }

  /** The pieces of player 2 count for the score and those of player 1 against
      it, whoever `player` is: `player` only decides from which row each side's
      advance is measured. */
  function MediumScore(g: Grid, player: int): int {
    ValueSum(PiecesOf(g, BlackCell), player == 1) - ValueSum(PiecesOf(g, WhiteCell), player == 2)
  }

  /** A piece on the board is worth 50 to 67. */
  lemma PieceValueRange(p: Position, fromRowZero: bool)
    requires p.IsWithinBounderies()
    ensures 50 <= PieceValue(p, fromRowZero) <= 67
    ensures p.x == 0 || p.x == 7 ==> PieceValue(p, fromRowZero) >= 60
  {
  }

  lemma {:induction false} ValueSumRange(ps: seq<Position>, fromRowZero: bool)
    requires forall p :: p in ps ==> p.IsWithinBounderies()
    ensures 50 * |ps| <= ValueSum(ps, fromRowZero) <= 67 * |ps|
    decreases |ps|
  {
    if |ps| > 0 {
      var last := ps[|ps| - 1];
      ValueSumRange(ps[..|ps| - 1], fromRowZero);
      PieceValueRange(last, fromRowZero);
    }
  }

  /** Each piece of player 2 adds 50 to 67 and each piece of player 1 takes
      away 50 to 67, so a side with no pieces left makes the sign of the score. */
  lemma MediumScoreRange(g: Grid, player: int)
    ensures 50 * |PiecesOf(g, BlackCell)| - 67 * |PiecesOf(g, WhiteCell)| <= MediumScore(g, player)
    ensures MediumScore(g, player) <= 67 * |PiecesOf(g, BlackCell)| - 50 * |PiecesOf(g, WhiteCell)|
    ensures -EvaluationBound <= MediumScore(g, player) <= EvaluationBound
  {
    PiecesOfSpec(g, BlackCell);
    PiecesOfSpec(g, WhiteCell);
    ValueSumRange(PiecesOf(g, BlackCell), player == 1);
    ValueSumRange(PiecesOf(g, WhiteCell), player == 2);
  }

  // ---------------------------------------------------------------------------
  // The easy heuristic

  /** The difference in pieces, player 2 minus player 1, weighted by 30 plus the draw. */
  function EasyScore(g: Grid, r: Draw): int {
    (|PiecesOf(g, BlackCell)| - |PiecesOf(g, WhiteCell)|) * (30 + r)
  }

  /** Multiplying by a factor of 30 to 39 keeps the sign and scales by 30 to 39. */
  lemma WeightedDifference(diff: int, factor: int)
    requires 30 <= factor <= 39
    ensures diff >= 0 ==> 30 * diff <= diff * factor <= 39 * diff
    ensures diff < 0 ==> 39 * diff <= diff * factor <= 30 * diff
    ensures (diff * factor > 0 <==> diff > 0) && (diff * factor == 0 <==> diff == 0)
  {
    if factor == 30 {
    } else if factor == 31 {
    } else if factor == 32 {
    } else if factor == 33 {
    } else if factor == 34 {
    } else if factor == 35 {
    } else if factor == 36 {
    } else if factor == 37 {
    } else if factor == 38 {
    } else {
      assert factor == 39;
    }
  }

  /** The easy score has the sign of the piece difference and is 30 to 39 times it. */
  lemma EasyScoreRange(g: Grid, r: Draw)
    ensures var diff := |PiecesOf(g, BlackCell)| - |PiecesOf(g, WhiteCell)|;
      (EasyScore(g, r) > 0 <==> diff > 0) && (EasyScore(g, r) == 0 <==> diff == 0) &&
      (diff >= 0 ==> 30 * diff <= EasyScore(g, r) <= 39 * diff) &&
      (diff < 0 ==> 39 * diff <= EasyScore(g, r) <= 30 * diff)
    ensures -EvaluationBound <= EasyScore(g, r) <= EvaluationBound
  {
    PiecesOfSpec(g, BlackCell);
    PiecesOfSpec(g, WhiteCell);
    WeightedDifference(|PiecesOf(g, BlackCell)| - |PiecesOf(g, WhiteCell)|, 30 + r);
  }

  // ---------------------------------------------------------------------------
  // Choice of heuristic

  /** The score of a state: the medium heuristic for the Medium and MediumPlus
      difficulties, the easy one for every other difficulty. */
  function Evaluation(s: MatchState, player: int, r: Draw): int {
    if s.difficulty == Medium || s.difficulty == MediumPlus then MediumScore(s.board, player)
    else EasyScore(s.board, r)
  }

  lemma EvaluationRange(s: MatchState, player: int, r: Draw)
    ensures -EvaluationBound <= Evaluation(s, player, r) <= EvaluationBound
  {
    MediumScoreRange(s.board, player);
    EasyScoreRange(s.board, r);
  }

  // ---------------------------------------------------------------------------
  // The MediumPlus bonus

  /** The rows of a player's side, counted from the row they start on. */
  function FirstLine(player: int): int { if player == 1 then 0 else BoardLength - 1 }
  function SecondLine(player: int): int { if player == 1 then 1 else BoardLength - 2 }
  function ThirdLine(player: int): int { if player == 1 then 2 else BoardLength - 3 }
  /** The row a player's pieces advance towards. */
  function LastLine(player: int): int { if player == 1 then BoardLength - 1 else 0 }

  /** 60 for each edge column where the player has at least as many pieces as the opponent. */
  function EdgeBonus(g: Grid, player: int): int {
    var opponent := NextPlayer(player);
    (if ColumnCount(g, player, 0) >= ColumnCount(g, opponent, 0) then 60 else 0) +
    (if ColumnCount(g, player, 7) >= ColumnCount(g, opponent, 7) then 60 else 0)
  }

  /** 50 for each flank guarded by the player's pieces at (1 or 6, second line)
      and (2 or 5, first line), plus 1 on the left flank when the player has more
      pieces on column 0 than on column 7, and on the right flank otherwise. */
  function FlankBonus(g: Grid, player: int): int {
    var moreOnLeft := ColumnCount(g, player, 0) - ColumnCount(g, player, 7) > 0;
    (if CellAt(g, Position(1, SecondLine(player))) == player && CellAt(g, Position(2, FirstLine(player))) == player
     then 50 + (if moreOnLeft then 1 else 0) else 0) +
    (if CellAt(g, Position(6, SecondLine(player))) == player && CellAt(g, Position(5, FirstLine(player))) == player
     then 50 + (if moreOnLeft then 0 else 1) else 0)
  }

  /** 50 for each of the player's pieces among the first x cells of their last line. */
  function LastLineBonus(g: Grid, player: int, x: int): int
    requires 0 <= x <= 8
  {
    if x == 0 then 0
    else LastLineBonus(g, player, x - 1) + (if CellAt(g, Position(x - 1, LastLine(player))) == player then 50 else 0)
  }

  /** The defence points of column x: when an opponent piece stands on the
      player's third line, 1 for each of the player's pieces on the first line
      at x - 1, x and x + 1, and 1 more when the piece at x is backed by one on
      the second line. */
  function DefenceAt(g: Grid, player: int, x: int): int {
    var opponent := NextPlayer(player);
    var first := FirstLine(player);
    if CellAt(g, Position(x, ThirdLine(player))) != opponent then 0
    else
      (if CellAt(g, Position(x, first)) == player
       then 1 + (if CellAt(g, Position(x, SecondLine(player))) == player then 1 else 0) else 0) +
      (if CellAt(g, Position(x - 1, first)) == player then 1 else 0) +
      (if CellAt(g, Position(x + 1, first)) == player then 1 else 0)
  }

  /** The defence points of columns 1 to x - 1. */
  function DefenceBonus(g: Grid, player: int, x: int): int
    requires 1 <= x <= 7
  {
    if x == 1 then 0 else DefenceBonus(g, player, x - 1) + DefenceAt(g, player, x - 1)
  }

  /** The bonus of a state for `player`: nothing below MediumPlus, otherwise
      the edge, flank, last-line and defence points. */
  function Bonus(s: MatchState, player: int): int {
    if s.difficulty != MediumPlus then 0
    else EdgeBonus(s.board, player) + FlankBonus(s.board, player) +
         LastLineBonus(s.board, player, 8) + DefenceBonus(s.board, player, 7)
  }

  /** The cells on the last line holding the player's pieces, among the first x. */
  function LastLinePieces(g: Grid, player: int, x: int): set<int> {
    set i | 0 <= i < x && CellAt(g, Position(i, LastLine(player))) == player
  }

  /** The last-line bonus is 50 per piece of the player on that line. */
  lemma {:induction false} LastLineBonusCounts(g: Grid, player: int, x: int)
    requires 0 <= x <= 8
    ensures LastLineBonus(g, player, x) == 50 * |LastLinePieces(g, player, x)|
    ensures 0 <= LastLineBonus(g, player, x) <= 50 * x
    decreases x
  {
    if x > 0 {
      LastLineBonusCounts(g, player, x - 1);
      var before := LastLinePieces(g, player, x - 1);
      if CellAt(g, Position(x - 1, LastLine(player))) == player {
        assert LastLinePieces(g, player, x) == before + {x - 1};
      } else {
        assert LastLinePieces(g, player, x) == before;
      }
    } else {
      assert LastLinePieces(g, player, x) == {};
    }
  }

  lemma {:induction false} DefenceBonusRange(g: Grid, player: int, x: int)
    requires 1 <= x <= 7
    ensures 0 <= DefenceBonus(g, player, x) <= 4 * (x - 1)
    decreases x
  {
    if x > 1 {
      DefenceBonusRange(g, player, x - 1);
    }
  }

  /** The bonus only ever adds fixed increments: at most 120 for the edges, 101
      for the flanks (only one of them gets the extra point), 400 for the last
      line and 24 for the defence. */
  lemma BonusRange(s: MatchState, player: int)
    ensures 0 <= Bonus(s, player) <= 645
    ensures s.difficulty != MediumPlus ==> Bonus(s, player) == 0
  {
    LastLineBonusCounts(s.board, player, 8);
    DefenceBonusRange(s.board, player, 7);
  }

  /** Every cell the defence points of a column 1 to 6 read is on the board. */
  lemma DefenceReadsOnBoard(player: int, x: int)
    requires 1 <= x < BoardLength - 1
    ensures Position(x, ThirdLine(player)).IsWithinBounderies()
    ensures Position(x, FirstLine(player)).IsWithinBounderies() && Position(x, SecondLine(player)).IsWithinBounderies()
    ensures Position(x - 1, FirstLine(player)).IsWithinBounderies() && Position(x + 1, FirstLine(player)).IsWithinBounderies()
  {
  }

  // ---------------------------------------------------------------------------
  // The evaluator, on a match

  /** The score of the match for `player` under its difficulty; `r` is the
      random draw the easy heuristic uses. */
  method EvaluateState(game: Match, player: int, r: Draw) returns (score: int)
    requires game.Valid()
    ensures game.View().difficulty == Medium || game.View().difficulty == MediumPlus ==>
      score == MediumScore(game.View().board, player)
    ensures game.View().difficulty != Medium && game.View().difficulty != MediumPlus ==>
      score == EasyScore(game.View().board, r)
    ensures score == Evaluation(game.View(), player, r)
  {
    if game.difficulty == Medium {
      score := MediumHeuristic(game, player);
    } else if game.difficulty == MediumPlus {
      score := MediumHeuristic(game, player);
    } else {
      score := EasyHeuristic(game, player, r);
    }
  }

  /** Adds up the worth of the pieces of player 2 and takes away that of the
      pieces of player 1. */
  method MediumHeuristic(game: Match, player: int) returns (evaluation: int)
    requires game.Valid()
    ensures evaluation == MediumScore(game.View().board, player)
  {
    var playerPieces := game.board.GetPiecesPositions(2);
    var opponentPieces := game.board.GetPiecesPositions(1);
    evaluation := 0;
    for i := 0 to |playerPieces|
      invariant evaluation == ValueSum(playerPieces[..i], player == 1)
    {
      var pos := playerPieces[i];
      var pieceVal := 50;
      var piecePos := if player == 1 then pos.y else 7 - pos.y;
      var piecePosSide := if pos.x == 0 || pos.x == 7 then 10 else 0;
      evaluation := evaluation + pieceVal + piecePos + piecePosSide;
      assert playerPieces[..i + 1][..i] == playerPieces[..i];
    }
    assert playerPieces[..|playerPieces|] == playerPieces;
    ghost var gained := evaluation;
    for i := 0 to |opponentPieces|
      invariant evaluation == gained - ValueSum(opponentPieces[..i], player == 2)
    {
      var pos := opponentPieces[i];
      var pieceVal := 50;
      var piecePos := if player == 2 then pos.y else 7 - pos.y;
      var piecePosSide := if pos.x == 0 || pos.x == 7 then 10 else 0;
      evaluation := evaluation - (pieceVal + piecePos + piecePosSide);
      assert opponentPieces[..i + 1][..i] == opponentPieces[..i];
    }
    assert opponentPieces[..|opponentPieces|] == opponentPieces;
  }

  /** The piece difference weighted by 30 plus the random draw `r`. */
  method EasyHeuristic(game: Match, player: int, r: Draw) returns (score: int)
    requires game.Valid()
    ensures score == EasyScore(game.View().board, r)
  {
    var playerPieces := game.board.GetPiecesPositions(2);
    var opponentPieces := game.board.GetPiecesPositions(1);
    score := (|playerPieces| - |opponentPieces|) * (30 + r);
  }

  /** The MediumPlus bonus of the match for `player`. */
  method BonusEvaluation(game: Match, player: int) returns (bonus: int)
    requires game.Valid()
    ensures bonus == Bonus(game.View(), player)
    ensures 0 <= bonus <= 645
  {
    BonusRange(game.View(), player);
    if game.difficulty != MediumPlus {
      return 0;
    }
    var opponent := NextPlayer(player);
    var firstLine := if player == 1 then 0 else BoardLength - 1;
    var lastLine := if player == 1 then BoardLength - 1 else 0;
    var secondLine := if player == 1 then 1 else BoardLength - 2;
    var thirdLine := if player == 1 then 2 else BoardLength - 3;
    bonus := EdgeAndFlankPoints(game, player, opponent, firstLine, secondLine);
    bonus := AddLastLinePoints(game, player, lastLine, bonus);
    bonus := AddDefencePoints(game, player, opponent, firstLine, secondLine, thirdLine, bonus);
  }

  /** The first part of the bonus: the edge columns and the two flanks. */
  method EdgeAndFlankPoints(game: Match, player: int, opponent: int, firstLine: int, secondLine: int)
    returns (bonus: int)
    requires game.Valid() && opponent == NextPlayer(player)
    requires firstLine == FirstLine(player) && secondLine == SecondLine(player)
    ensures bonus == EdgeBonus(game.board.Grid(), player) + FlankBonus(game.board.Grid(), player)
  {
    var firstColumn := 0;
    var lastColumn := BoardLength - 1;
    bonus := 0;
    var ownFirst := game.board.CountPiecesInColumn(player, firstColumn);
    var opponentFirst := game.board.CountPiecesInColumn(opponent, firstColumn);
    if ownFirst >= opponentFirst {
      bonus := bonus + 60;
    }
    var ownLast := game.board.CountPiecesInColumn(player, lastColumn);
    var opponentLast := game.board.CountPiecesInColumn(opponent, lastColumn);
    if ownLast >= opponentLast {
      bonus := bonus + 60;
    }
    var morePiecesOnLeftThanRight := ownFirst - ownLast > 0;
    if game.board.GetCellValue(Position(1, secondLine)) as int == player &&
       game.board.GetCellValue(Position(2, firstLine)) as int == player {
      bonus := bonus + 50 + (if morePiecesOnLeftThanRight then 1 else 0);
    }
    if game.board.GetCellValue(Position(6, secondLine)) as int == player &&
       game.board.GetCellValue(Position(5, firstLine)) as int == player {
      bonus := bonus + 50 + (if morePiecesOnLeftThanRight then 0 else 1);
    }
  }

  /** The loop rewarding the player's pieces on their last line. */
  method AddLastLinePoints(game: Match, player: int, lastLine: int, bonus: int) returns (extended: int)
    requires game.Valid() && lastLine == LastLine(player)
    ensures extended == bonus + LastLineBonus(game.board.Grid(), player, 8)
  {
    extended := bonus;
    for x := 0 to BoardLength
      invariant extended == bonus + LastLineBonus(game.board.Grid(), player, x)
    {
      if game.board.GetCellValue(Position(x, lastLine)) as int == player {
        extended := extended + 50;
      }
    }
  }

  /** The defence loop over the columns 1 to 6. */
  method AddDefencePoints(game: Match, player: int, opponent: int, firstLine: int, secondLine: int,
                          thirdLine: int, bonus: int) returns (extended: int)
    requires game.Valid() && opponent == NextPlayer(player)
    requires firstLine == FirstLine(player) && secondLine == SecondLine(player) && thirdLine == ThirdLine(player)
    ensures extended == bonus + DefenceBonus(game.board.Grid(), player, 7)
  {
    extended := bonus;
    for x := 1 to BoardLength - 1
      invariant extended == bonus + DefenceBonus(game.board.Grid(), player, x)
    {
      ghost var before := extended;
      if game.board.GetCellValue(Position(x, thirdLine)) as int == opponent {
        if game.board.GetCellValue(Position(x, firstLine)) as int == player {
          extended := extended + 1;
          if game.board.GetCellValue(Position(x, secondLine)) as int == player {
            extended := extended + 1;
          }
        }
        if game.board.GetCellValue(Position(x - 1, firstLine)) as int == player {
          extended := extended + 1;
        }
        if game.board.GetCellValue(Position(x + 1, firstLine)) as int == player {
          extended := extended + 1;
        }
      }
      assert extended == before + DefenceAt(game.board.Grid(), player, x);
    }
  }
}
