/** The movement rules: validity of a move, the destinations of a piece, the
    global capture obligation and the moves available to the player to move. */
module Rules {
  import opened Constants
  import opened Wrappers
  import opened Positions
  import opened Moves
  import opened Utils
  import opened Grids
  import opened MatchStates

  /** The row step of the player to move: +1 for player 1, -1 for player 2. */
  function Forward(playerTurn: int): (d: int)
    ensures playerTurn == 1 ==> d == 1
    ensures playerTurn == 2 ==> d == -1
    ensures d == 1 || d <= -1
  {
    ProductOfConsecutive(playerTurn);
    1 + playerTurn * (1 - playerTurn)
  }

  /** n * (1 - n) is 0 for n in {0, 1} and at most -2 otherwise. */
  lemma ProductOfConsecutive(n: int)
    ensures n == 0 || n == 1 || n * (1 - n) <= -2
  {
    if n >= 2 {
      assert n * (1 - n) == -(n * (n - 1));
    }
  }

  /** The cell halfway between two cells whose coordinates have even sums. */
  function Between(a: Position, b: Position): Position {
    Position((a.x + b.x) / 2, (a.y + b.y) / 2)
  }

  /** A move is valid when it ends on an empty board cell and starts on a
      piece of the player to move. */
  predicate IsMoveValid(s: MatchState, move: Move) {
    move.end.IsWithinBounderies() && CellAt(s.board, move.start) == s.playerTurn && EmptyAt(s.board, move.end)
  }

  /** A jump passes over a piece of the player to move. */
  predicate IsJumpValid(s: MatchState, move: Move)
    requires move.Midpoint().Some?
  {
    CellAt(s.board, move.Midpoint().value) == s.playerTurn
  }

  /** A capture passes over a piece of the opponent. */
  predicate IsCaptureValid(s: MatchState, move: Move)
    requires move.Midpoint().Some?
  {
    CellAt(s.board, move.Midpoint().value) == NextPlayer(s.playerTurn)
  }

  /** The midpoint of a move whose coordinate sums are even is the cell between its ends. */
  lemma MidpointIsBetween(a: Position, b: Position)
    requires (a.x + b.x) % 2 == 0 && (a.y + b.y) % 2 == 0
    ensures NewMove(a, b).Midpoint() == Some(Between(a, b))
  {
  }

  /** Whether the move from `start` to `destiny` passes the test of its kind:
      valid, and for a jump or a capture, over the right kind of piece. The
      source reads the midpoint without checking that it exists; the candidate
      lists never lack one (HasMidpoints), so the added test changes nothing. */
  predicate Passes(s: MatchState, start: Position, destiny: Position, kind: MoveType) {
    var move := NewMove(start, destiny);
    match kind
    case Normal => IsMoveValid(s, move)
    case Jump => IsMoveValid(s, move) && move.Midpoint().Some? && IsJumpValid(s, move)
    case Capture => IsMoveValid(s, move) && move.Midpoint().Some? && IsCaptureValid(s, move)
    case Invalid => false
  }

  /** Whether every candidate has a midpoint when the kind needs one; the
      candidate lists always do, so a missing midpoint never reaches the board. */
  predicate HasMidpoints(start: Position, candidates: seq<Position>, kind: MoveType) {
    kind != Normal ==> forall c :: c in candidates ==> (start.x + c.x) % 2 == 0 && (start.y + c.y) % 2 == 0
  }

  /** The candidates, in order, that pass the test of `kind`, as List.RemoveAll
      leaves them. */
  function RemoveInvalid(s: MatchState, start: Position, candidates: seq<Position>, kind: MoveType): seq<Position>
  {
    if |candidates| == 0 then []
    else
      (if Passes(s, start, candidates[0], kind) then [candidates[0]] else []) +
      RemoveInvalid(s, start, candidates[1..], kind)
  }

  lemma {:induction false} RemoveInvalidSpec(s: MatchState, start: Position, candidates: seq<Position>, kind: MoveType)
    requires NoDuplicates(candidates)
    ensures forall d :: d in RemoveInvalid(s, start, candidates, kind) <==>
      (d in candidates && Passes(s, start, d, kind))
    ensures NoDuplicates(RemoveInvalid(s, start, candidates, kind))
    ensures |RemoveInvalid(s, start, candidates, kind)| <= |candidates|
  {
    if |candidates| > 0 {
      var rest := candidates[1..];
      assert NoDuplicates(rest) by {
        forall i, j | 0 <= i < j < |rest| ensures rest[i] != rest[j] {
          assert rest[i] == candidates[i + 1] && rest[j] == candidates[j + 1];
        }
      }
      RemoveInvalidSpec(s, start, rest, kind);
      assert candidates[0] !in rest;
      ConcatNoDuplicates(if Passes(s, start, candidates[0], kind) then [candidates[0]] else [],
        RemoveInvalid(s, start, rest, kind));
    }
  }

  /** The cells a plain move may land on: ahead, then diagonally ahead right and left. */
  function OrdinaryCandidates(playerTurn: int, start: Position): seq<Position> {
    var newY := start.y + Forward(playerTurn);
    [Position(start.x, newY), Position(start.x + 1, newY), Position(start.x - 1, newY)]
  }

  /** The plain-move candidates are the three cells one row ahead, each once. */
  lemma OrdinaryCandidatesSpec(playerTurn: int, start: Position)
    ensures NoDuplicates(OrdinaryCandidates(playerTurn, start))
    ensures forall d :: d in OrdinaryCandidates(playerTurn, start) <==>
      (d.y == start.y + Forward(playerTurn) && start.x - 1 <= d.x <= start.x + 1)
  {
  }

  /** The cells a jump may land on: two rows ahead, straight or two columns aside. */
  function JumpCandidates(playerTurn: int, start: Position): (candidates: seq<Position>)
  {
    var newY := start.y + 2 * Forward(playerTurn);
    [Position(start.x, newY), Position(start.x + 2, newY), Position(start.x - 2, newY)]
  }

  /** The jump candidates are the three cells two rows ahead, each once. */
  lemma JumpCandidatesSpec(playerTurn: int, start: Position)
    ensures HasMidpoints(start, JumpCandidates(playerTurn, start), Jump)
    ensures NoDuplicates(JumpCandidates(playerTurn, start))
    ensures forall d :: d in JumpCandidates(playerTurn, start) <==>
      (d.y == start.y + 2 * Forward(playerTurn) && (d.x == start.x || d.x == start.x + 2 || d.x == start.x - 2))
  {
  }

  /** The cells a capture may land on: the jump cells, then two columns aside on the same row. */
  function CaptureCandidates(playerTurn: int, start: Position): (candidates: seq<Position>)
  {
    var newY := start.y + 2 * Forward(playerTurn);
    [Position(start.x, newY), Position(start.x + 2, newY), Position(start.x - 2, newY),
     Position(start.x + 2, start.y), Position(start.x - 2, start.y)]
  }

  /** The capture candidates are the three cells two rows ahead and the two cells
      two columns aside on the same row, each once. */
  lemma CaptureCandidatesSpec(playerTurn: int, start: Position)
    ensures HasMidpoints(start, CaptureCandidates(playerTurn, start), Capture)
    ensures NoDuplicates(CaptureCandidates(playerTurn, start))
    ensures forall d :: d in CaptureCandidates(playerTurn, start) <==>
      ((d.y == start.y + 2 * Forward(playerTurn) && (d.x == start.x || d.x == start.x + 2 || d.x == start.x - 2)) ||
       (d.y == start.y && (d.x == start.x + 2 || d.x == start.x - 2)))
  {
  }

  /** The destinations of a plain move of the piece at `start`. */
  function GetOrdinaryMoveDestinies(s: MatchState, start: Position): seq<Position> {
    RemoveInvalid(s, start, OrdinaryCandidates(s.playerTurn, start), Normal)
  }

  /** The destinations of a jump of the piece at `start`. */
  function GetJumpMoveDestinies(s: MatchState, start: Position): seq<Position> {
    RemoveInvalid(s, start, JumpCandidates(s.playerTurn, start), Jump)
  }

  /** The destinations of a capture by the piece at `start`. */
  function GetCaptureMoveDestinies(s: MatchState, start: Position): seq<Position> {
    RemoveInvalid(s, start, CaptureCandidates(s.playerTurn, start), Capture)
  }

  /** The plain-move destinations are exactly the empty cells one row ahead and
      at most one column aside, offered only from a piece of the player to move. */
  lemma OrdinaryDestiniesSpec(s: MatchState, start: Position)
    ensures forall d :: d in GetOrdinaryMoveDestinies(s, start) <==>
      (d.y == start.y + Forward(s.playerTurn) && start.x - 1 <= d.x <= start.x + 1 &&
       EmptyAt(s.board, d) && CellAt(s.board, start) == s.playerTurn)
    ensures NoDuplicates(GetOrdinaryMoveDestinies(s, start)) && |GetOrdinaryMoveDestinies(s, start)| <= 3
  {
    OrdinaryCandidatesSpec(s.playerTurn, start);
    RemoveInvalidSpec(s, start, OrdinaryCandidates(s.playerTurn, start), Normal);
  }

  /** The jump destinations are exactly the empty cells two rows ahead, straight
      or two columns aside, over a piece of the player to move. */
  lemma JumpDestiniesSpec(s: MatchState, start: Position)
    ensures forall d :: d in GetJumpMoveDestinies(s, start) <==> IsJumpDestiny(s, start, d)
    ensures NoDuplicates(GetJumpMoveDestinies(s, start)) && |GetJumpMoveDestinies(s, start)| <= 3
  {
    var candidates := JumpCandidates(s.playerTurn, start);
    JumpCandidatesSpec(s.playerTurn, start);
    RemoveInvalidSpec(s, start, candidates, Jump);
    forall d | d in candidates
      ensures Passes(s, start, d, Jump) <==> IsJumpDestiny(s, start, d)
    {
      MidpointIsBetween(start, d);
    }
  }

  /** The capture destinations are exactly the empty cells two steps ahead,
      diagonally ahead or sideways, over an opponent piece; at most five. */
  lemma CaptureDestiniesSpec(s: MatchState, start: Position)
    ensures forall d :: d in GetCaptureMoveDestinies(s, start) <==> IsCaptureDestiny(s, start, d)
    ensures NoDuplicates(GetCaptureMoveDestinies(s, start)) && |GetCaptureMoveDestinies(s, start)| <= 5
  {
    var candidates := CaptureCandidates(s.playerTurn, start);
    CaptureCandidatesSpec(s.playerTurn, start);
    RemoveInvalidSpec(s, start, candidates, Capture);
    forall d | d in candidates
      ensures Passes(s, start, d, Capture) <==> IsCaptureDestiny(s, start, d)
    {
      CapturePasses(s, start, d);
    }
  }

  /** For a cell whose offsets from `start` are even, passing the capture test
      is being a capture destination. */
  lemma CapturePasses(s: MatchState, start: Position, d: Position)
    requires (start.x + d.x) % 2 == 0 && (start.y + d.y) % 2 == 0
    ensures Passes(s, start, d, Capture) <==>
      EmptyAt(s.board, d) && CellAt(s.board, start) == s.playerTurn &&
      CellAt(s.board, Between(start, d)) == NextPlayer(s.playerTurn)
  {
    MidpointIsBetween(start, d);
  }

  /** The destinations depend on the board and the player to move only. */
  lemma {:induction false} RemoveInvalidFrame(s: MatchState, t: MatchState, start: Position, candidates: seq<Position>, kind: MoveType)
    requires s.board == t.board && s.playerTurn == t.playerTurn
    ensures RemoveInvalid(s, start, candidates, kind) == RemoveInvalid(t, start, candidates, kind)
    decreases |candidates|
  {
    if |candidates| > 0 {
      RemoveInvalidFrame(s, t, start, candidates[1..], kind);
    }
  }

  lemma DestiniesFrame(s: MatchState, t: MatchState, start: Position)
    requires s.board == t.board && s.playerTurn == t.playerTurn
    ensures GetOrdinaryMoveDestinies(s, start) == GetOrdinaryMoveDestinies(t, start)
    ensures GetJumpMoveDestinies(s, start) == GetJumpMoveDestinies(t, start)
    ensures GetCaptureMoveDestinies(s, start) == GetCaptureMoveDestinies(t, start)
  {
    RemoveInvalidFrame(s, t, start, OrdinaryCandidates(s.playerTurn, start), Normal);
    RemoveInvalidFrame(s, t, start, JumpCandidates(s.playerTurn, start), Jump);
    RemoveInvalidFrame(s, t, start, CaptureCandidates(s.playerTurn, start), Capture);
  }

  /** The geometry and contents a jump destination must have. */
  predicate IsJumpDestiny(s: MatchState, start: Position, d: Position) {
    d.y == start.y + 2 * Forward(s.playerTurn) && (d.x == start.x || d.x == start.x + 2 || d.x == start.x - 2) &&
    EmptyAt(s.board, d) && CellAt(s.board, start) == s.playerTurn &&
    CellAt(s.board, Between(start, d)) == s.playerTurn
  }

  /** The geometry and contents a capture destination must have. */
  predicate IsCaptureDestiny(s: MatchState, start: Position, d: Position) {
    ((d.y == start.y + 2 * Forward(s.playerTurn) && (d.x == start.x || d.x == start.x + 2 || d.x == start.x - 2)) ||
     (d.y == start.y && (d.x == start.x + 2 || d.x == start.x - 2))) &&
    EmptyAt(s.board, d) && CellAt(s.board, start) == s.playerTurn &&
    CellAt(s.board, Between(start, d)) == NextPlayer(s.playerTurn)
  }

  // ---------------------------------------------------------------------------
  // The capture obligation and the destinations offered to the player

  /** Whether one of the first k cells in scan order has a capture destination. */
  function CaptureBefore(s: MatchState, k: int): bool
    requires 0 <= k <= 64
  {
    k > 0 && (CaptureBefore(s, k - 1) || |GetCaptureMoveDestinies(s, ScanCell(k - 1))| > 0)
  }

  lemma {:induction false} CaptureBeforeSpec(s: MatchState, k: int)
    requires 0 <= k <= 64
    ensures CaptureBefore(s, k) <==>
      exists p: Position :: p.IsWithinBounderies() && ScanIndex(p) < k && GetCaptureMoveDestinies(s, p) != []
    decreases k
  {
    if k > 0 {
      CaptureBeforeSpec(s, k - 1);
      var c := ScanCell(k - 1);
      if GetCaptureMoveDestinies(s, c) != [] {
        assert c.IsWithinBounderies() && ScanIndex(c) < k;
      }
      forall p: Position | p.IsWithinBounderies() && ScanIndex(p) == k - 1
        ensures p == c
      {
        ScanIndexInjective(p, c);
      }
    }
  }

  /** Whether some piece of the player to move can capture. */
  function CaptureAvailable(s: MatchState): bool {
    CaptureBefore(s, 64)
  }

  /** A capture is available exactly when some board cell has a capture destination. */
  lemma CaptureAvailableSpec(s: MatchState)
    ensures CaptureAvailable(s) <==>
      exists p: Position :: p.IsWithinBounderies() && GetCaptureMoveDestinies(s, p) != []
  {
    CaptureBeforeSpec(s, 64);
  }

  /** The destinations offered for the piece at `start`. During a chain of jumps
      only the chained piece may move, and only to the recorded jump
      destinations. Otherwise captures are offered, and jumps and plain moves
      only when no piece of the player can capture. */
  function GetValidDestinies(s: MatchState, start: Position): seq<Position> {
    if |s.forcedJumps| != 0 then
      if s.lastJumpPosition == Some(start) then s.forcedJumps else []
    else
      GetCaptureMoveDestinies(s, start) +
      (if !CaptureAvailable(s) then GetJumpMoveDestinies(s, start) + GetOrdinaryMoveDestinies(s, start) else [])
  }

  /** During a chain of jumps only the chained piece gets destinations, the
      recorded ones; otherwise the capture destinations are always offered, and
      jumps and plain moves exactly when no capture is available anywhere. */
  lemma ValidDestiniesSpec(s: MatchState, start: Position)
    ensures s.forcedJumps != [] && s.lastJumpPosition == Some(start) ==> GetValidDestinies(s, start) == s.forcedJumps
    ensures s.forcedJumps != [] && s.lastJumpPosition != Some(start) ==> GetValidDestinies(s, start) == []
    ensures s.forcedJumps == [] ==> forall d :: d in GetValidDestinies(s, start) <==>
      (IsCaptureDestiny(s, start, d) ||
       (!CaptureAvailable(s) && (d in GetJumpMoveDestinies(s, start) || d in GetOrdinaryMoveDestinies(s, start))))
    ensures s.forcedJumps == [] && CaptureAvailable(s) ==>
      forall d :: d in GetValidDestinies(s, start) ==> IsCaptureDestiny(s, start, d)
  {
    CaptureDestiniesSpec(s, start);
  }

  // ---------------------------------------------------------------------------
  // All moves of the player to move

  /** The labelled moves of the piece at `p`: its captures, then, when no capture
      is available anywhere, its jumps and its plain moves. */
  function MovesAt(s: MatchState, p: Position, captureAvailable: bool): seq<Move> {
    MovesList(p, GetCaptureMoveDestinies(s, p), Capture) +
    (if !captureAvailable then
       MovesList(p, GetJumpMoveDestinies(s, p), Jump) + MovesList(p, GetOrdinaryMoveDestinies(s, p), Normal)
     else [])
  }

  /** The moves of the first k cells in scan order. */
  function ValidMovesUpTo(s: MatchState, k: int, captureAvailable: bool): seq<Move>
    requires 0 <= k <= 64
  {
    if k == 0 then [] else ValidMovesUpTo(s, k - 1, captureAvailable) + MovesAt(s, ScanCell(k - 1), captureAvailable)
  }

  /** Every labelled move of the player to move, cell by cell in scan order. */
  function ValidMoves(s: MatchState): seq<Move> {
    ValidMovesUpTo(s, 64, CaptureAvailable(s))
  }

  /** A move is labelled legally when its destination is among those of its label. */
  predicate LabelledLegally(s: MatchState, m: Move) {
    (m.kind == Capture && m.end in GetCaptureMoveDestinies(s, m.start)) ||
    (m.kind == Jump && m.end in GetJumpMoveDestinies(s, m.start)) ||
    (m.kind == Normal && m.end in GetOrdinaryMoveDestinies(s, m.start))
  }

  /** A legally labelled move starts on a piece of the player to move, ends on a
      different empty board cell, and the board classifies it as its label says:
      a jump passes over an own piece, a capture over an opposing one. */
  lemma LegalMoveFacts(s: MatchState, m: Move)
    requires ValidTurn(s) && LabelledLegally(s, m)
    ensures m.start.IsWithinBounderies() && m.end.IsWithinBounderies() && m.start != m.end
    ensures CellAt(s.board, m.start) == s.playerTurn && EmptyAt(s.board, m.end)
    ensures Applied(s.board, m).kind == m.kind
    ensures m.kind != Normal ==> m.Midpoint() == Some(Between(m.start, m.end))
    ensures m.kind == Jump ==> CellAt(s.board, Between(m.start, m.end)) == s.playerTurn
    ensures m.kind == Capture ==> CellAt(s.board, Between(m.start, m.end)) == NextPlayer(s.playerTurn)
  {
    match m.kind
    case Normal => LegalNormalFacts(s, m);
    case Jump => LegalJumpFacts(s, m);
    case Capture => LegalCaptureFacts(s, m);
  }

  lemma LegalNormalFacts(s: MatchState, m: Move)
    requires ValidTurn(s) && m.kind == Normal && m.end in GetOrdinaryMoveDestinies(s, m.start)
    ensures m.start.IsWithinBounderies() && m.end.IsWithinBounderies() && m.start != m.end
    ensures CellAt(s.board, m.start) == s.playerTurn && EmptyAt(s.board, m.end)
    ensures Applied(s.board, m).kind == Normal
  {
    OrdinaryDestiniesSpec(s, m.start);
    assert m.end.y - m.start.y == Forward(s.playerTurn);
  }

  lemma LegalJumpFacts(s: MatchState, m: Move)
    requires ValidTurn(s) && m.kind == Jump && m.end in GetJumpMoveDestinies(s, m.start)
    ensures m.start.IsWithinBounderies() && m.end.IsWithinBounderies() && m.start != m.end
    ensures CellAt(s.board, m.start) == s.playerTurn && EmptyAt(s.board, m.end)
    ensures m.Midpoint() == Some(Between(m.start, m.end))
    ensures CellAt(s.board, Between(m.start, m.end)) == s.playerTurn
    ensures Applied(s.board, m).kind == Jump
  {
    JumpDestiniesSpec(s, m.start);
    MidpointIsBetween(m.start, m.end);
    AppliedEffect(s.board, m);
  }

  lemma LegalCaptureFacts(s: MatchState, m: Move)
    requires ValidTurn(s) && m.kind == Capture && m.end in GetCaptureMoveDestinies(s, m.start)
    ensures m.start.IsWithinBounderies() && m.end.IsWithinBounderies() && m.start != m.end
    ensures CellAt(s.board, m.start) == s.playerTurn && EmptyAt(s.board, m.end)
    ensures m.Midpoint() == Some(Between(m.start, m.end))
    ensures CellAt(s.board, Between(m.start, m.end)) == NextPlayer(s.playerTurn)
    ensures Applied(s.board, m).kind == Capture
  {
    CaptureDestiniesSpec(s, m.start);
    MidpointIsBetween(m.start, m.end);
    AppliedEffect(s.board, m);
  }

  lemma MovesAtSpec(s: MatchState, p: Position, captureAvailable: bool, m: Move)
    ensures m in MovesAt(s, p, captureAvailable) <==>
      (m.start == p && LabelledLegally(s, m) && (captureAvailable ==> m.kind == Capture))
  {
    MovesListMembership(p, GetCaptureMoveDestinies(s, p), Capture);
    MovesListMembership(p, GetJumpMoveDestinies(s, p), Jump);
    MovesListMembership(p, GetOrdinaryMoveDestinies(s, p), Normal);
  }

  lemma {:induction false} ValidMovesUpToSpec(s: MatchState, k: int, captureAvailable: bool)
    requires 0 <= k <= 64
    ensures forall m :: m in ValidMovesUpTo(s, k, captureAvailable) <==>
      (m.start.IsWithinBounderies() && ScanIndex(m.start) < k && m in MovesAt(s, m.start, captureAvailable))
    decreases k
  {
    if k > 0 {
      ValidMovesUpToSpec(s, k - 1, captureAvailable);
      var c := ScanCell(k - 1);
      forall m: Move | m in MovesAt(s, c, captureAvailable)
        ensures m.start == c
      {
        MovesAtSpec(s, c, captureAvailable, m);
      }
      forall m: Move | m.start.IsWithinBounderies() && ScanIndex(m.start) == k - 1
        ensures m.start == c
      {
        ScanIndexInjective(m.start, c);
      }
    }
  }

  /** A move is valid exactly when it is legally labelled, starts on the board,
      and is a capture whenever a capture is available. */
  lemma ValidMovesMember(s: MatchState, m: Move)
    ensures m in ValidMoves(s) <==>
      (m.start.IsWithinBounderies() && LabelledLegally(s, m) && (CaptureAvailable(s) ==> m.kind == Capture))
  {
    var available := CaptureAvailable(s);
    ValidMovesUpToSpec(s, 64, available);
    MovesAtSpec(s, m.start, available, m);
  }

  /** The valid moves are exactly the legally labelled moves from board cells,
      and only captures while a capture is available. */
  lemma ValidMovesSpec(s: MatchState)
    ensures forall m :: m in ValidMoves(s) <==>
      (m.start.IsWithinBounderies() && LabelledLegally(s, m) && (CaptureAvailable(s) ==> m.kind == Capture))
  {
    forall m: Move {
      ValidMovesMember(s, m);
    }
  }

  /** Capturing is mandatory: while some capture exists, every valid move is a capture. */
  lemma CaptureIsMandatory(s: MatchState)
    requires CaptureAvailable(s)
    ensures forall m :: m in ValidMoves(s) ==> m.kind == Capture
  {
    ValidMovesSpec(s);
  }
}
