/** The sequences of moves the player to move can play in one turn, as values:
    a plain move alone, or a jump or capture followed by every way the same
    piece can go on jumping or capturing. */
module Chains {
  import opened Positions
  import opened Moves
  import opened Utils
  import opened Grids
  import opened MatchStates
  import opened Rules
  import opened Transitions

  // ---------------------------------------------------------------------------
  // Continuing a chain

  /** Where the piece that played `m` can go on to in state `s`: further
      captures after a capture, further jumps otherwise. */
  function Continuations(s: MatchState, m: Move): seq<Position> {
    if m.kind == Capture then GetCaptureMoveDestinies(s, m.end) else GetJumpMoveDestinies(s, m.end)
  }

  /** A move that can start or continue a chain: a legal jump or capture of the player to move. */
  predicate Expandable(s: MatchState, m: Move) {
    ValidTurn(s) && LabelledLegally(s, m) && m.kind != Normal
  }

  /** What each continuation uses up: for captures the opponent's pieces on the
      board, for jumps the rows left before the far side of the board. */
  function Rank(s: MatchState, p: Position, kind: MoveType): nat {
    if kind == Capture then |CellsHolding(s.board, NextPlayer(s.playerTurn))|
    else if s.playerTurn == 1 then (if p.y < 8 then 8 - p.y else 0)
    else if p.y >= 0 then p.y else 0
  }

  /** Nothing continues from a cell that does not hold a piece of the player to move. */
  lemma NoContinuationFromOtherCell(s: MatchState, m: Move)
    requires CellAt(s.board, m.end) != s.playerTurn
    ensures Continuations(s, m) == []
  {
    CaptureDestiniesSpec(s, m.end);
    JumpDestiniesSpec(s, m.end);
    NoMemberMeansEmpty(Continuations(s, m));
  }

  lemma NoMemberMeansEmpty<T>(xs: seq<T>)
    requires forall x :: x !in xs
    ensures xs == []
  {
    if xs != [] {
      HeadIsMember(xs);
    }
  }

  lemma HeadIsMember<T>(xs: seq<T>)
    requires xs != []
    ensures xs[0] in xs
  {
  }

  /** Executing a chain move leaves a valid turn, and every continuation is
      again a chain move, of a smaller rank: a capture has taken an opposing
      piece, a jump has advanced two rows. */
  lemma ContinuationFacts(s: MatchState, m: Move)
    requires Expandable(s, m)
    ensures ArrivalHasOwner(s, m)
    ensures var s1 := AfterExecuteMove(s, m);
      ValidTurn(s1) &&
      (Continuations(s1, m) != [] ==> Rank(s1, m.end, m.kind) < Rank(s, m.start, m.kind)) &&
      forall d {:trigger Expandable(s1, Move(m.end, d, m.kind))} :: d in Continuations(s1, m) ==> Expandable(s1, Move(m.end, d, m.kind))
  {
    LegalMoveHasOwner(s, m);
    ExecuteMoveKeepsTurnValid(s, m);
    LegalMoveFacts(s, m);
    AppliedEffect(s.board, m);
    var s1 := AfterExecuteMove(s, m);
    if !Admitted(s, m) {
      NoContinuationFromOtherCell(s1, m);
    } else {
      var h := Handled(s, m);
      HandledKeeps(s, m);
      if !h.isOver && m.end.EndOfBoard() {
        EndOfBoardArrivalRemovesPiece(h, m.end);
        NoContinuationFromOtherCell(s1, m);
      } else if CellAt(h.board, m.end) != h.playerTurn {
        NoContinuationFromOtherCell(s1, m);
      } else {
        HandledShrinks(s, m);
      }
    }
  }

  /** When the moved piece still belongs to the player to move after the
      handler, a capture has removed one opposing piece and a jump has moved
      two rows ahead. */
  lemma HandledShrinks(s: MatchState, m: Move)
    requires Expandable(s, m) && CellAt(Handled(s, m).board, m.end) == Handled(s, m).playerTurn
    ensures Rank(Handled(s, m), m.end, m.kind) < Rank(s, m.start, m.kind)
  {
    LegalMoveFacts(s, m);
    AppliedEffect(s.board, m);
    HandledKeeps(s, m);
    if m.kind == Capture {
      AppliedCount(s.board, m, NextPlayer(s.playerTurn));
    } else {
      JumpDestiniesSpec(s, m.start);
    }
  }

  // ---------------------------------------------------------------------------
  // Expanding a chain

  /** The sequences that start with `prefix`, go on with `m` and then follow
      every continuation in turn, each until the piece cannot go on. */
  function Expand(s: MatchState, prefix: seq<Move>, m: Move): seq<seq<Move>>
    requires Expandable(s, m)
    decreases Rank(s, m.start, m.kind), 0, 0
  {
    ContinuationFacts(s, m);
    var s1 := AfterExecuteMove(s, m);
    var next := Continuations(s1, m);
    if |next| == 0 then [prefix + [m]]
    else ExpandAll(s1, prefix + [m], m.end, next, m.kind)
  }

  /** The expansions of the moves from `from` to each of `ds`, in order. */
  function ExpandAll(s: MatchState, prefix: seq<Move>, from: Position, ds: seq<Position>, kind: MoveType): seq<seq<Move>>
    requires forall d {:trigger Expandable(s, Move(from, d, kind))} :: d in ds ==> Expandable(s, Move(from, d, kind))
    decreases Rank(s, from, kind), 1, |ds|
  {
    if |ds| == 0 then []
    else ExpandAll(s, prefix, from, ds[..|ds| - 1], kind) + Expand(s, prefix, Move(from, ds[|ds| - 1], kind))
  }

  /** Consecutive legs connect and every leg has the given kind. */
  predicate IsChain(moves: seq<Move>, kind: MoveType) {
    (forall i :: 0 <= i < |moves| ==> moves[i].kind == kind) &&
    (forall i :: 0 < i < |moves| ==> moves[i].start == moves[i - 1].end)
  }

  lemma ChainCons(m: Move, rest: seq<Move>, kind: MoveType)
    requires IsChain(rest, kind) && m.kind == kind && (|rest| > 0 ==> rest[0].start == m.end)
    ensures IsChain([m] + rest, kind)
  {
    var c := [m] + rest;
    forall i | 0 < i < |c|
      ensures c[i].start == c[i - 1].end
    {
      assert c[i] == rest[i - 1];
    }
  }

  /** Each of `qs` is `prefix`, then `m`, then a chain of moves of m's kind. */
  predicate ExtendsWith(qs: seq<seq<Move>>, prefix: seq<Move>, m: Move) {
    forall q: seq<Move> :: q in qs ==>
      |q| > |prefix| && q[..|prefix|] == prefix && q[|prefix|] == m && IsChain(q[|prefix|..], m.kind)
  }

  /** Each of `qs` is `prefix`, then a chain of `kind` whose first move goes
      from `from` to one of `ds`. */
  predicate ExtendsFrom(qs: seq<seq<Move>>, prefix: seq<Move>, from: Position, ds: seq<Position>, kind: MoveType) {
    forall q: seq<Move> :: q in qs ==>
      |q| > |prefix| && q[..|prefix|] == prefix && q[|prefix|].start == from && q[|prefix|].end in ds &&
      IsChain(q[|prefix|..], kind)
  }

  /** An expansion yields at least one sequence, and each is the prefix, then
      `m`, then a chain of moves of m's kind. */
  lemma {:induction false} ExpandShape(s: MatchState, prefix: seq<Move>, m: Move)
    requires Expandable(s, m)
    ensures |Expand(s, prefix, m)| > 0 && ExtendsWith(Expand(s, prefix, m), prefix, m)
    decreases Rank(s, m.start, m.kind), 0, 0
  {
    ContinuationFacts(s, m);
    var s1 := AfterExecuteMove(s, m);
    var next := Continuations(s1, m);
    if |next| == 0 {
      assert Expand(s, prefix, m) == [prefix + [m]];
      SingleShape(prefix, m);
    } else {
      var all := ExpandAll(s1, prefix + [m], m.end, next, m.kind);
      assert Expand(s, prefix, m) == all;
      ExpandAllShape(s1, prefix + [m], m.end, next, m.kind);
      StepShape(all, prefix, m, next);
    }
  }

  lemma SingleShape(prefix: seq<Move>, m: Move)
    requires m.kind != Normal
    ensures ExtendsWith([prefix + [m]], prefix, m)
  {
    var q := prefix + [m];
    assert q[..|prefix|] == prefix && q[|prefix|..] == [m];
  }

  /** Sequences that extend `prefix + [m]` by a chain from m's end extend
      `prefix` by a chain that starts with `m`. */
  lemma StepShape(qs: seq<seq<Move>>, prefix: seq<Move>, m: Move, ds: seq<Position>)
    requires ExtendsFrom(qs, prefix + [m], m.end, ds, m.kind)
    ensures ExtendsWith(qs, prefix, m)
  {
    forall q: seq<Move> | q in qs
      ensures |q| > |prefix| && q[..|prefix|] == prefix && q[|prefix|] == m && IsChain(q[|prefix|..], m.kind)
    {
      ChainExtend(prefix, m, q);
    }
  }

  /** A sequence that extends `prefix + [m]` by a chain from m's end extends
      `prefix` by a chain that starts with `m`. */
  lemma ChainExtend(prefix: seq<Move>, m: Move, q: seq<Move>)
    requires |q| > |prefix| + 1 && q[..|prefix| + 1] == prefix + [m]
    requires q[|prefix| + 1].start == m.end && IsChain(q[|prefix| + 1..], m.kind)
    ensures |q| > |prefix| && q[..|prefix|] == prefix && q[|prefix|] == m && IsChain(q[|prefix|..], m.kind)
  {
    var n := |prefix|;
    assert q[..n] == q[..n + 1][..n];
    assert q[n] == q[..n + 1][n];
    assert q[n..] == [m] + q[n + 1..];
    ChainCons(m, q[n + 1..], m.kind);
  }

  lemma {:induction false} ExpandAllShape(s: MatchState, prefix: seq<Move>, from: Position, ds: seq<Position>, kind: MoveType)
    requires forall d {:trigger Expandable(s, Move(from, d, kind))} :: d in ds ==> Expandable(s, Move(from, d, kind))
    ensures |ds| > 0 ==> |ExpandAll(s, prefix, from, ds, kind)| > 0
    ensures ExtendsFrom(ExpandAll(s, prefix, from, ds, kind), prefix, from, ds, kind)
    decreases Rank(s, from, kind), 1, |ds|
  {
    if |ds| > 0 {
      var init := ds[..|ds| - 1];
      var last := Move(from, ds[|ds| - 1], kind);
      ExpandAllShape(s, prefix, from, init, kind);
      ExpandShape(s, prefix, last);
      var a := ExpandAll(s, prefix, from, init, kind);
      var b := Expand(s, prefix, last);
      assert ExpandAll(s, prefix, from, ds, kind) == a + b;
      JoinShapes(a, b, prefix, from, ds, last);
    }
  }

  lemma JoinShapes(a: seq<seq<Move>>, b: seq<seq<Move>>, prefix: seq<Move>, from: Position, ds: seq<Position>, last: Move)
    requires |ds| > 0 && last == Move(from, ds[|ds| - 1], last.kind)
    requires ExtendsFrom(a, prefix, from, ds[..|ds| - 1], last.kind) && ExtendsWith(b, prefix, last)
    ensures ExtendsFrom(a + b, prefix, from, ds, last.kind)
  {
    forall q: seq<Move> | q in a + b
      ensures q[|prefix|].end in ds
    {
      if q in a {
        assert q[|prefix|].end in ds[..|ds| - 1];
      }
    }
  }

  /** A move the match does not admit (its destination was not offered, and the
      computer is not the one to move) is not followed up: the expansion is the
      prefix and the move alone. */
  lemma ExpandRejected(s: MatchState, prefix: seq<Move>, m: Move)
    requires Expandable(s, m) && !Admitted(s, m)
    ensures Expand(s, prefix, m) == [prefix + [m]]
  {
    ContinuationFacts(s, m);
    LegalMoveFacts(s, m);
    NoContinuationFromOtherCell(AfterExecuteMove(s, m), m);
  }

  // ---------------------------------------------------------------------------
  // Every sequence of the player to move

  /** The sequences a valid move starts: the move alone when the board treats
      it as a plain move, its expansions when it is a jump or a capture. */
  function SequencesOf(s: MatchState, m: Move): seq<seq<Move>>
    requires ValidTurn(s) && LabelledLegally(s, m)
  {
    LegalMoveFacts(s, m);
    match Applied(s.board, m).kind
    case Jump => Expand(s, [], m)
    case Capture => Expand(s, [], m)
    case Normal => [[m]]
    case Invalid => []
  }

  /** The sequences of each of `moves`, in order. */
  function SequencesFrom(s: MatchState, moves: seq<Move>): seq<seq<Move>>
    requires ValidTurn(s) && forall m :: m in moves ==> LabelledLegally(s, m)
  {
    if |moves| == 0 then []
    else SequencesFrom(s, moves[..|moves| - 1]) + SequencesOf(s, moves[|moves| - 1])
  }

  /** Every sequence the player to move can play, grouped by first move in the
      order of the valid moves. */
  function AllSequences(s: MatchState): seq<seq<Move>>
    requires ValidTurn(s)
  {
    ValidMovesSpec(s);
    SequencesFrom(s, ValidMoves(s))
  }

  /** The shape of a sequence: it starts with its first move, continues as a
      chain of that move's kind, and a plain move stands alone. */
  predicate WellFormed(q: seq<Move>) {
    |q| > 0 && IsChain(q, q[0].kind) && (q[0].kind == Normal ==> |q| == 1)
  }

  /** Every one of `qs` is well formed and starts with one of `moves`. */
  predicate StartWithin(qs: seq<seq<Move>>, moves: seq<Move>) {
    forall q: seq<Move> :: q in qs ==> WellFormed(q) && q[0] in moves
  }

  /** Every one of `moves` starts one of `qs`. */
  predicate Covers(qs: seq<seq<Move>>, moves: seq<Move>) {
    forall m :: m in moves ==> exists q: seq<Move> :: q in qs && |q| > 0 && q[0] == m
  }

  lemma SequencesOfShape(s: MatchState, m: Move)
    requires ValidTurn(s) && LabelledLegally(s, m)
    ensures |SequencesOf(s, m)| > 0 && StartWithin(SequencesOf(s, m), [m])
  {
    LegalMoveFacts(s, m);
    if m.kind != Normal {
      ExpandShape(s, [], m);
      StartFromEmptyPrefix(Expand(s, [], m), m);
    }
  }

  lemma StartFromEmptyPrefix(qs: seq<seq<Move>>, m: Move)
    requires m.kind != Normal && ExtendsWith(qs, [], m)
    ensures StartWithin(qs, [m])
  {
    forall q: seq<Move> | q in qs
      ensures WellFormed(q) && q[0] in [m]
    {
      assert q[0..] == q;
    }
  }

  lemma {:induction false} SequencesFromShape(s: MatchState, moves: seq<Move>)
    requires ValidTurn(s) && forall m :: m in moves ==> LabelledLegally(s, m)
    ensures StartWithin(SequencesFrom(s, moves), moves) && Covers(SequencesFrom(s, moves), moves)
    decreases |moves|
  {
    if |moves| > 0 {
      var init := moves[..|moves| - 1];
      var last := moves[|moves| - 1];
      SequencesFromShape(s, init);
      SequencesOfShape(s, last);
      var a := SequencesFrom(s, init);
      var b := SequencesOf(s, last);
      assert SequencesFrom(s, moves) == a + b;
      JoinStarts(a, b, moves);
    }
  }

  lemma JoinStarts(a: seq<seq<Move>>, b: seq<seq<Move>>, moves: seq<Move>)
    requires |moves| > 0 && |b| > 0
    requires StartWithin(a, moves[..|moves| - 1]) && Covers(a, moves[..|moves| - 1])
    requires StartWithin(b, [moves[|moves| - 1]])
    ensures StartWithin(a + b, moves) && Covers(a + b, moves)
  {
    var init := moves[..|moves| - 1];
    assert b[0] in a + b;
    forall q: seq<Move> | q in a + b
      ensures WellFormed(q) && q[0] in moves
    {
      if q in a {
        assert q[0] in init;
      }
    }
    forall m | m in moves
      ensures exists q: seq<Move> :: q in a + b && |q| > 0 && q[0] == m
    {
      if m in init {
        var q: seq<Move> :| q in a && |q| > 0 && q[0] == m;
        assert q in a + b;
      } else {
        assert moves == init + [m];
      }
    }
  }

  /** Every generated sequence starts with a valid move and goes on as a chain
      of that move's kind (legs connect; captures continue with captures, jumps
      with jumps); a plain move is a sequence of its own; and every valid move
      starts some sequence. */
  lemma AllSequencesSpec(s: MatchState)
    requires ValidTurn(s)
    ensures StartWithin(AllSequences(s), ValidMoves(s)) && Covers(AllSequences(s), ValidMoves(s))
  {
    ValidMovesSpec(s);
    SequencesFromShape(s, ValidMoves(s));
  }

  /** While a capture is available, every leg of every generated sequence is a capture. */
  lemma CaptureChainsOnly(s: MatchState)
    requires ValidTurn(s) && CaptureAvailable(s)
    ensures forall q: seq<Move>, i :: q in AllSequences(s) && 0 <= i < |q| ==> q[i].kind == Capture
  {
    AllSequencesSpec(s);
    CaptureIsMandatory(s);
  }
}
