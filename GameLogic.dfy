/** The move generator run on match objects: the capture check, the list of
    valid moves, and the expansion of jumps and captures into sequences on
    cloned matches. */
module GameLogic {
  import opened Constants
  import opened Positions
  import opened Moves
  import opened Utils
  import opened Grids
  import opened MatchStates
  import opened Rules
  import opened Transitions
  import opened MoveSequences
  import opened Matches
  import opened Chains

  /** The moves held by each sequence object of a list. */
  ghost function MovesOf(list: seq<MoveSequence>): seq<seq<Move>>
    reads set i | 0 <= i < |list| :: list[i]
  {
    seq(|list|, i reads list requires 0 <= i < |list| => list[i].moves)
  }

  lemma MovesOfConcat(a: seq<MoveSequence>, b: seq<MoveSequence>)
    ensures MovesOf(a + b) == MovesOf(a) + MovesOf(b)
  {
  }

  /** Whether some piece of the player to move can capture, scanning the cells
      column by column and stopping at the first one that can. */
  method IsCaptureAvailable(s: MatchState) returns (available: bool)
    ensures available == CaptureAvailable(s)
  {
    ghost var k := 0;
    for x := 0 to BoardLength
      invariant k == 8 * x && !CaptureBefore(s, k)
    {
      for y := 0 to BoardLength
        invariant k == 8 * x + y && !CaptureBefore(s, k)
      {
        var position := Position(x, y);
        ScanCellOf(x, y, k);
        if |GetCaptureMoveDestinies(s, position)| > 0 {
          CaptureAvailableSpec(s);
          return true;
        }
        k := k + 1;
      }
    }
    return false;
  }

  /** The labelled moves of the player to move, cell by cell: the captures of
      each cell, then its jumps and plain moves when no capture is available. */
  method GetValidMoves(s: MatchState) returns (validMoves: seq<Move>)
    ensures validMoves == ValidMoves(s)
  {
    validMoves := [];
    ghost var captureAvailable := CaptureAvailable(s);
    ghost var cells: seq<seq<Move>> := [];
    for x := 0 to BoardLength
      invariant |cells| == 8 * x && validMoves == Flatten(cells) && CellsMatch(s, captureAvailable, cells)
    {
      validMoves, cells := AddColumnMoves(s, x, captureAvailable, validMoves, cells);
    }
    FlattenMatches(s, captureAvailable, cells);
  }

  /** The inner loop of GetValidMoves, over the cells of column `x`; `cells`
      holds the moves of each cell scanned so far, one entry per cell. */
  method AddColumnMoves(s: MatchState, x: int, ghost captureAvailable: bool, validMoves: seq<Move>,
                        ghost cells: seq<seq<Move>>)
    returns (extended: seq<Move>, ghost extendedCells: seq<seq<Move>>)
    requires 0 <= x < 8 && captureAvailable == CaptureAvailable(s)
    requires |cells| == 8 * x && validMoves == Flatten(cells) && CellsMatch(s, captureAvailable, cells)
    ensures |extendedCells| == 8 * x + 8 && extended == Flatten(extendedCells)
    ensures CellsMatch(s, captureAvailable, extendedCells)
  {
    extended := validMoves;
    extendedCells := cells;
    for y := 0 to BoardLength
      invariant |extendedCells| == 8 * x + y && extended == Flatten(extendedCells)
      invariant CellsMatch(s, captureAvailable, extendedCells)
    {
      ScanCellOf(x, y, |extendedCells|);
      var cellMoves := CellMoves(s, Position(x, y));
      FlattenSnoc(extendedCells, cellMoves);
      extended := extended + cellMoves;
      extendedCells := extendedCells + [cellMoves];
    }
  }

  /** The body of the inner loop: the captures of `position`, then its jumps
      and plain moves when no piece of the player to move can capture. */
  method CellMoves(s: MatchState, position: Position) returns (cellMoves: seq<Move>)
    ensures cellMoves == MovesAt(s, position, CaptureAvailable(s))
  {
    cellMoves := ToMovesList(position, GetCaptureMoveDestinies(s, position), Capture);
    ghost var captures := cellMoves;
    var available := IsCaptureAvailable(s);
    if !available {
      var jumps := ToMovesList(position, GetJumpMoveDestinies(s, position), Jump);
      cellMoves := cellMoves + jumps;
      var ordinary := ToMovesList(position, GetOrdinaryMoveDestinies(s, position), Normal);
      cellMoves := cellMoves + ordinary;
      AppendAssociates(captures, jumps, ordinary);
    }
  }

  /** The concatenation of the move lists of the scanned cells, in scan order. */
  ghost function Flatten(cells: seq<seq<Move>>): seq<Move> {
    if |cells| == 0 then [] else Flatten(cells[..|cells| - 1]) + cells[|cells| - 1]
  }

  lemma FlattenSnoc(cells: seq<seq<Move>>, last: seq<Move>)
    ensures Flatten(cells + [last]) == Flatten(cells) + last
  {
    assert (cells + [last])[..|cells|] == cells;
  }

  /** Entry j of `cells` holds the moves of the cell of scan rank j. */
  ghost predicate CellsMatch(s: MatchState, captureAvailable: bool, cells: seq<seq<Move>>) {
    |cells| <= 64 &&
    forall j {:trigger MovesAt(s, ScanCell(j), captureAvailable)} :: 0 <= j < |cells| ==>
      cells[j] == MovesAt(s, ScanCell(j), captureAvailable)
  }

  /** The moves of the first |cells| cells, gathered one entry per cell, are
      those of the scan. */
  lemma {:induction false} FlattenMatches(s: MatchState, captureAvailable: bool, cells: seq<seq<Move>>)
    requires CellsMatch(s, captureAvailable, cells)
    ensures Flatten(cells) == ValidMovesUpTo(s, |cells|, captureAvailable)
  {
    if |cells| > 0 {
      var n := |cells| - 1;
      var prefix := cells[..n];
      forall j | 0 <= j < n
        ensures prefix[j] == MovesAt(s, ScanCell(j), captureAvailable)
      {
        assert prefix[j] == cells[j];
      }
      FlattenMatches(s, captureAvailable, prefix);
      assert cells[n] == MovesAt(s, ScanCell(n), captureAvailable);
    }
  }

  lemma AppendAssociates<T>(a: seq<T>, b: seq<T>, c: seq<T>)
    ensures a + b + c == a + (b + c)
  {
  }

  lemma ScanCellOf(x: int, y: int, k: int)
    requires 0 <= x < 8 && 0 <= y < 8 && k == 8 * x + y
    ensures ScanCell(k) == Position(x, y)
  {
  }

  /** Appends `move` to `expandingSequence`, executes it on `game`, and when
      the piece can go on, expands each continuation from its own copies of the
      sequence and the match; returns the finished sequences. */
  method ExpandMoveSequences(expandingSequence: MoveSequence, move: Move, game: Match)
    returns (expanded: seq<MoveSequence>)
    requires game.Valid() && Expandable(game.View(), move)
    modifies expandingSequence, game, game.board, game.board.cells, game.numPieces
    ensures forall o :: o in expanded ==> o == expandingSequence || fresh(o)
    ensures MovesOf(expanded) == Expand(old(game.View()), old(expandingSequence.moves), move)
    decreases Rank(game.View(), move.start, move.kind), 0
  {
    ghost var s := game.View();
    ghost var prefix := expandingSequence.moves;
    ContinuationFacts(s, move);
    expandingSequence.AddMove(move);
    game.ExecuteMove(move);
    var now := game.Snapshot();
    var nextDestinies := if move.kind == Capture then GetCaptureMoveDestinies(now, move.end)
                         else GetJumpMoveDestinies(now, move.end);
    ExpandUnfold(s, prefix, move, now, nextDestinies);
    if |nextDestinies| == 0 {
      expanded := [expandingSequence];
      return;
    }
    var nextMoves := ToMovesList(move.end, nextDestinies, if move.kind == Capture then Capture else Jump);
    expanded := ExpandEach(expandingSequence, nextMoves, game, move.end, nextDestinies, move.kind);
  }

  /** The loop over the continuations, each expanded from its own copies of
      the sequence and of the match, so that `expandingSequence` and `game`
      stay as they are. */
  method ExpandEach(expandingSequence: MoveSequence, nextMoves: seq<Move>, game: Match,
                    ghost from: Position, ghost ds: seq<Position>, ghost kind: MoveType)
    returns (expanded: seq<MoveSequence>)
    requires game.Valid() && nextMoves == MovesList(from, ds, kind)
    requires forall d {:trigger Expandable(game.View(), Move(from, d, kind))} :: d in ds ==> Expandable(game.View(), Move(from, d, kind))
    ensures forall o :: o in expanded ==> fresh(o)
    ensures MovesOf(expanded) == ExpandAll(game.View(), expandingSequence.moves, from, ds, kind)
    decreases Rank(game.View(), from, kind), 2
  {
    ghost var now := game.View();
    ghost var prefix := expandingSequence.moves;
    expanded := [];
    for i := 0 to |nextMoves|
      invariant forall o :: o in expanded ==> fresh(o)
      invariant MovesOf(expanded) == ExpandAll(now, prefix, from, ds[..i], kind)
    {
      ExpandAllStep(now, prefix, from, ds, i, kind);
      var produced := ExpandContinuation(expandingSequence, nextMoves[i], game);
      ghost var before := expanded;
      expanded := expanded + produced;
      ExpandAllAppend(now, prefix, from, ds, i, kind, before, produced);
    }
    assert ds[..|nextMoves|] == ds;
  }

  /** One pass of the loop over the continuations: the move is tried on a
      throw-away copy of the match, then expanded from a copy of the sequence
      and a copy of the match. */
  method ExpandContinuation(expandingSequence: MoveSequence, nextMove: Move, game: Match)
    returns (produced: seq<MoveSequence>)
    requires game.Valid() && Expandable(game.View(), nextMove)
    ensures forall o :: o in produced ==> fresh(o)
    ensures MovesOf(produced) == Expand(game.View(), expandingSequence.moves, nextMove)
    decreases Rank(game.View(), nextMove.start, nextMove.kind), 1
  {
    ghost var s := game.View();
    ghost var prefix := expandingSequence.moves;
    TryOnCopy(game, nextMove);
    var moveSeqTemp := expandingSequence.Clone();
    var cloned := game.Clone();
    produced := ExpandMoveSequences(moveSeqTemp, nextMove, cloned);
    assert game.View() == s && expandingSequence.moves == prefix;
  }

  /** Executes `move` on a copy of `game` and drops the copy. */
  method TryOnCopy(game: Match, move: Move)
    requires game.Valid() && Expandable(game.View(), move)
  {
    ContinuationFacts(game.View(), move);
    var dummyMatch := game.Clone();
    dummyMatch.ExecuteMove(move);
  }

  /** Expand after its first move: the sequence ends there when the piece
      cannot go on, and otherwise branches into every continuation. */
  lemma ExpandUnfold(s: MatchState, prefix: seq<Move>, m: Move, now: MatchState, next: seq<Position>)
    requires Expandable(s, m) && ArrivalHasOwner(s, m)
    requires now == AfterExecuteMove(s, m) && next == Continuations(now, m)
    ensures m.kind == Capture || m.kind == Jump
    ensures ValidTurn(now) && forall d {:trigger Expandable(now, Move(m.end, d, m.kind))} :: d in next ==> Expandable(now, Move(m.end, d, m.kind))
    ensures |next| > 0 ==> Rank(now, m.end, m.kind) < Rank(s, m.start, m.kind)
    ensures Expand(s, prefix, m) ==
      if |next| == 0 then [prefix + [m]] else ExpandAll(now, prefix + [m], m.end, next, m.kind)
  {
    ContinuationFacts(s, m);
    LegalMoveFacts(s, m);
  }

  /** The i-th continuation is expandable and is the i-th of the move list. */
  lemma ExpandAllStep(s: MatchState, prefix: seq<Move>, from: Position, ds: seq<Position>, i: int, kind: MoveType)
    requires 0 <= i < |ds| && forall d {:trigger Expandable(s, Move(from, d, kind))} :: d in ds ==> Expandable(s, Move(from, d, kind))
    ensures Expandable(s, Move(from, ds[i], kind)) && MovesList(from, ds, kind)[i] == Move(from, ds[i], kind)
  {
    MovesListAt(from, ds, kind, i);
  }

  /** ExpandAll over one more destination. */
  lemma ExpandAllAppend(s: MatchState, prefix: seq<Move>, from: Position, ds: seq<Position>, i: int, kind: MoveType,
                        before: seq<MoveSequence>, produced: seq<MoveSequence>)
    requires 0 <= i < |ds| && forall d {:trigger Expandable(s, Move(from, d, kind))} :: d in ds ==> Expandable(s, Move(from, d, kind))
    requires MovesOf(before) == ExpandAll(s, prefix, from, ds[..i], kind)
    requires MovesOf(produced) == Expand(s, prefix, Move(from, ds[i], kind))
    ensures MovesOf(before + produced) == ExpandAll(s, prefix, from, ds[..i + 1], kind)
  {
    ExpandAllSnoc(s, prefix, from, ds, i, kind);
    MovesOfConcat(before, produced);
  }

  lemma ExpandAllSnoc(s: MatchState, prefix: seq<Move>, from: Position, ds: seq<Position>, i: int, kind: MoveType)
    requires 0 <= i < |ds| && forall d {:trigger Expandable(s, Move(from, d, kind))} :: d in ds ==> Expandable(s, Move(from, d, kind))
    ensures ExpandAll(s, prefix, from, ds[..i + 1], kind) ==
      ExpandAll(s, prefix, from, ds[..i], kind) + Expand(s, prefix, Move(from, ds[i], kind))
  {
    assert ds[..i + 1][..i] == ds[..i];
  }

  /** Every sequence the player to move can play, grouped by first move in
      the order of the valid moves. */
  method GenerateAllSequences(game: Match) returns (allSequences: seq<MoveSequence>)
    requires game.Valid() && ValidTurn(game.View())
    ensures MovesOf(allSequences) == AllSequences(game.View())
  {
    var s := game.Snapshot();
    var validMoves := GetValidMoves(s);
    ValidMovesSpec(s);
    allSequences := [];
    for i := 0 to |validMoves|
      invariant forall o :: o in allSequences ==> fresh(o)
      invariant MovesOf(allSequences) == SequencesFrom(s, validMoves[..i])
    {
      var produced := SequencesOfMove(game, validMoves[i]);
      ghost var before := allSequences;
      allSequences := allSequences + produced;
      SequencesFromAppend(s, validMoves, i, before, produced);
    }
    assert validMoves[..|validMoves|] == validMoves;
  }

  /** One pass of the loop of GenerateAllSequences: the move is tried on a copy
      of the board; a jump or a capture is expanded on a copy of the match, a
      plain move is a sequence of its own. */
  method SequencesOfMove(game: Match, possibleMove: Move) returns (produced: seq<MoveSequence>)
    requires game.Valid() && ValidTurn(game.View()) && LabelledLegally(game.View(), possibleMove)
    ensures forall o :: o in produced ==> fresh(o)
    ensures MovesOf(produced) == SequencesOf(game.View(), possibleMove)
  {
    ghost var s := game.View();
    LegalMoveFacts(s, possibleMove);
    var dummyMatch := game.Clone();
    var kind := dummyMatch.board.ApplyMove(possibleMove);
    assert kind == Applied(s.board, possibleMove).kind;
    match kind {
      case Jump | Capture =>
        produced := ExpandFirstMove(game, possibleMove);
      case Normal =>
        var basic := new MoveSequence();
        basic.AddMove(possibleMove);
        produced := [basic];
        assert MovesOf(produced)[0] == basic.moves == [possibleMove];
      case Invalid =>
        // a legally labelled move is never rejected by the board
        assert false;
    }
    assert game.View() == s;
  }

  /** A jump or a capture expanded from an empty sequence on a copy of the match. */
  method ExpandFirstMove(game: Match, possibleMove: Move) returns (produced: seq<MoveSequence>)
    requires game.Valid() && Expandable(game.View(), possibleMove)
    ensures forall o :: o in produced ==> fresh(o)
    ensures MovesOf(produced) == Expand(game.View(), [], possibleMove)
  {
    var cloned := game.Clone();
    var start := new MoveSequence();
    produced := ExpandMoveSequences(start, possibleMove, cloned);
  }

  /** SequencesFrom over one more valid move. */
  lemma SequencesFromAppend(s: MatchState, moves: seq<Move>, i: int,
                            before: seq<MoveSequence>, produced: seq<MoveSequence>)
    requires ValidTurn(s) && 0 <= i < |moves| && forall m :: m in moves ==> LabelledLegally(s, m)
    requires MovesOf(before) == SequencesFrom(s, moves[..i])
    requires MovesOf(produced) == SequencesOf(s, moves[i])
    ensures MovesOf(before + produced) == SequencesFrom(s, moves[..i + 1])
  {
    assert moves[..i + 1][..i] == moves[..i];
    MovesOfConcat(before, produced);
  }
}
