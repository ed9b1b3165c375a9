# Eximo rules engine and computer player, in Dafny

Eximo is a two-player game on an 8x8 board. Player 1 (white) starts on rows
0 to 2 and advances towards row 7. Player 2 (black) starts on rows 5 to 7 and
advances towards row 0. A piece can:

- step one row ahead, straight or diagonally;
- jump two rows ahead over a piece of its own colour;
- capture by passing over an opposing piece two cells away, ahead, diagonally
  ahead or sideways.

Capturing is mandatory. After a jump or a capture, the same piece must keep
jumping or capturing while it can. A piece that reaches the far row leaves the
board, and its owner is owed up to two new pieces for the free cells of their
drop zone. A player loses when they have no pieces left. The computer player
scores every sequence of moves it can play, and every placement of owed
pieces, with a depth-2 minimax search with alpha-beta pruning, and picks one
of the best at random.

The model follows the program's own structure, one module per source file:

- `Positions`, `Moves`: the coordinate and move values.
- `MoveSequences`: the move-chain object.
- `Utils`: turn alternation, cell identifiers, settings mappings, move lists.
- `Grids`: the board contents as a value. It is the specification that the
  `Boards.Board` class is proved against; that class keeps an `array2<byte>`
  updated in place.
- `MatchStates`: the rule-relevant fields of a match, as a value.
- `Rules`: the move generator, as functions on such a value.
- `Transitions`: what each method of the match object does, as a function
  from the state before to the state after.
- `Matches`: the match object itself. It is a class whose methods update its
  fields and are proved to match `Transitions`.
- `Chains`: the sequences a player can play in one turn, as values.
- `GameLogic`: the loops and the recursive expansion that produce those moves
  and sequences on match objects.
- `StateEvaluator`: the heuristics, as functions and as the loops of the
  source.
- `AIs`:
  - the pruned search and an unpruned reference, proved equal on the full
    window;
  - the computer player as a class, whose methods are proved to pick a
    best-scoring choice.

## Model

| member | source | states |
|---|---|---|
| Positions.EqualsIsIdentity | Assets/Scripts/Models/Position.cs:36-38 | two positions are Equal exactly when they have the same coordinates |
| Positions.EqualsIsEquivalence | Assets/Scripts/Models/Position.cs:36-38 | Equals is reflexive, symmetric and transitive |
| Positions.HashCodeRespectsEquals | Assets/Scripts/Models/Position.cs:47-49 | Equal positions have equal hash codes |
| Positions.HashCodeIsSymmetric | Assets/Scripts/Models/Position.cs:47-49 | the hash code gives (x, y) and (y, x) the same value, so it cannot tell them apart |
| Positions.EndOfBoardIgnoresColumn | Assets/Scripts/Models/Position.cs:28-30 | a position is at an end of the board exactly when its row is 0 or 7, whatever its column |
| Moves.Move.Midpoint | Assets/Scripts/Models/Move.cs:23-31 | a midpoint exists exactly when both coordinate sums are even, and it is then the exact average of the two ends |
| Moves.Move.Clone | Assets/Scripts/Models/Move.cs:37-41 | the copy has the same start, end and kind |
| Moves.NewMove | Assets/Scripts/Models/Move.cs:11-14 | the two-argument constructor keeps both ends and gives the default kind, Normal |
| Moves.OneRowMoveHasNoMidpoint | Assets/Scripts/Models/Move.cs:23-31 | a move that changes the row by one has no midpoint |
| Moves.TwoStepMidpointInBounds | Assets/Scripts/Models/Move.cs:23-31 | a move of 0 or 2 cells along each axis between board cells has a midpoint on the board, distinct from its two ends |
| MoveSequences.MoveSequence.constructor | Assets/Scripts/Models/MoveSequence.cs:10-12 | a new sequence is empty |
| MoveSequences.MoveSequence.AddMove | Assets/Scripts/Models/MoveSequence.cs:18-20 | the move is appended at the end and nothing else changes |
| MoveSequences.MoveSequence.Clone | Assets/Scripts/Models/MoveSequence.cs:22-28 | a fresh sequence holding the same moves in the same order |
| Utils.CsRemainder | Assets/Scripts/Utils/Utils.cs:87 | C#'s `%` truncates: the remainder has the sign of the dividend and is smaller than the divisor |
| Utils.CsQuotient | Assets/Scripts/Utils/Utils.cs:88 | C#'s `/` truncates toward zero: quotient times divisor plus remainder gives back the dividend |
| Utils.NextPlayer | Assets/Scripts/Utils/Utils.cs:97-99 | the result is the C# `player % 2 + 1`; it maps 1 to 2 and 2 to 1, and is never the same player |
| Utils.NextPlayerInvolution | Assets/Scripts/Utils/Utils.cs:97-99 | alternating twice gives the turn back |
| Utils.PositionToIdRange | Assets/Scripts/Utils/Utils.cs:77-79 | board cells get identifiers 0 to 63, distinct cells distinct identifiers |
| Utils.IdRoundTrip | Assets/Scripts/Utils/Utils.cs:77-90 | converting a board cell to its identifier and back gives the cell |
| Utils.PositionRoundTrip | Assets/Scripts/Utils/Utils.cs:77-90 | converting any identifier, negative ones included, to a position and back gives the identifier |
| Utils.IdToPositionInBounds | Assets/Scripts/Utils/Utils.cs:86-90 | identifiers 0 to 63 name board cells |
| Utils.MapOptValueToNumPieces | Assets/Scripts/Utils/Utils.cs:48-56 | the result is one of 16, 12, 10, 6; any option other than 0 to 3 gives 16 |
| Utils.MapNumPiecesToOptValue | Assets/Scripts/Utils/Utils.cs:62-70 | the result is an option 0 to 3; an unknown count gives 0 |
| Utils.OptionMappingsRoundTrip | Assets/Scripts/Utils/Utils.cs:48-70 | the two mappings are inverse on options 0 to 3 and on the counts 16, 12, 10, 6 |
| Utils.DifficultyName | Assets/Scripts/Utils/Utils.cs:14-22 | the names of Easy, Medium, Medium+ and Hard, and "Unassigned" for any other identifier |
| Utils.DifficultyNamesDistinct | Assets/Scripts/Utils/Utils.cs:14-22 | different difficulties have different names |
| Utils.MovesList | Assets/Scripts/Utils/Utils.cs:108-116 | one move per destination |
| Utils.MovesListAt | Assets/Scripts/Utils/Utils.cs:108-116 | the i-th move goes from the start to the i-th destination, with the given kind |
| Utils.MovesListMembership | Assets/Scripts/Utils/Utils.cs:108-116 | the moves listed are exactly those from the start to a listed destination with the given kind |
| Utils.ToMovesList | Assets/Scripts/Utils/Utils.cs:108-116 | the loop builds MovesList |
| Utils.RemoveFirst | Assets/Scripts/Models/Match.cs:194 | List.Remove: a present slot loses exactly one occurrence, and an absent one leaves the list as it is |
| Grids.EmptyAt | Assets/Scripts/Models/Board.cs:81-88 | an empty cell holds the empty code |
| Grids.WithCell | Assets/Scripts/Models/Board.cs:68-74 | writing changes exactly the written board cell; a position off the board changes nothing |
| Grids.Applied | Assets/Scripts/Models/Board.cs:164-182 | applying a move never reports Invalid, and reports Normal exactly when the move has no midpoint |
| Grids.AppliedEffect | Assets/Scripts/Models/Board.cs:164-182 | the start is emptied; the end receives the start's value; the move is a capture exactly when the midpoint's value differs from the moved value, an empty midpoint included, and the midpoint is then emptied; every other cell is unchanged |
| Grids.AppliedSequenceSnoc | Assets/Scripts/Models/Board.cs:191-202 | applying a sequence extended by one move applies that move last |
| Grids.ScanCell | Assets/Scripts/Models/Board.cs:101-102 | every rank of the column-by-column scan names one board cell of that rank |
| Grids.PiecesUpToSpec | Assets/Scripts/Models/Board.cs:99-109 | the first k cells of the scan contribute exactly their cells holding the type, in increasing scan order |
| Grids.PiecesOfSpec | Assets/Scripts/Models/Board.cs:99-109 | the list holds exactly the board cells holding the type, in strictly increasing column-major order, each once, at most 64 |
| Grids.SpawnRows | Assets/Scripts/Models/Board.cs:119-130 | a drop zone has two rows, listed in increasing order |
| Grids.ColumnSpotsSpec | Assets/Scripts/Models/Board.cs:123-128 | one column contributes exactly its empty cells on the drop-zone rows, in row order |
| Grids.SpotsBeforeSpec | Assets/Scripts/Models/Board.cs:121-129 | the columns scanned so far contribute exactly their empty drop-zone cells, each once |
| Grids.FreeSpawnSpotsSpec | Assets/Scripts/Models/Board.cs:119-130 | the free spots are exactly the empty cells of columns 1 to 6 on the player's two drop-zone rows (0 and 1 for player 1, 6 and 7 otherwise), each once, at most 12 |
| Grids.CellsHoldingSpec | Assets/Scripts/Models/Board.cs:99-109 | the set of cells holding a value is exactly the board cells with that value |
| Grids.CellsHoldingAfterWrite | Assets/Scripts/Models/Board.cs:68-74 | writing a cell moves it from the set of its old value to the set of its new one |
| Grids.WriteCount | Assets/Scripts/Models/Board.cs:68-74 | writing a cell changes the number of cells holding a value by exactly the cell's arrival or departure |
| Grids.AppliedCount | Assets/Scripts/Models/Board.cs:164-182 | a move onto an empty cell keeps the number of each kind of piece, except that a capture removes one piece of the captured kind |
| Grids.CountUpToIsMultiplicity | Assets/Scripts/Models/Board.cs:143-150 | the count over the first k cells of a column is the multiplicity of the value among them |
| Grids.ColumnValues | Assets/Scripts/Models/Board.cs:143-150 | a column read top to bottom holds the cell values of that column |
| Grids.ColumnCountSpec | Assets/Scripts/Models/Board.cs:143-150 | a column count is the multiplicity of the value in the column, between 0 and 8 |
| Boards.Board.constructor | Assets/Scripts/Models/Board.cs:12-14 | a new board holds the initial layout for the configured piece counts |
| Boards.Board.Initialize | Assets/Scripts/Models/Board.cs:19-43 | laying out an empty board gives the initial layout, and each player then has LayoutSize of their configured count on the board |
| Grids.InitialWhiteCells | Assets/Scripts/Models/Board.cs:22-35 | player 1 starts on columns 1–6 of row 1, of row 0 when the count is unset or above 10, and columns 1, 2, 5, 6 of row 2 when it is unset, 10 or 16 |
| Grids.InitialBlackCells | Assets/Scripts/Models/Board.cs:22-41 | player 2 starts on columns 1–6 of row 6, of row 7 when the count is unset or above 10, and columns 1, 2, 5, 6 of row 5 when it is unset, 10 or 16 |
| Grids.LayoutHasSize | Assets/Scripts/Models/Board.cs:22-41 | the rows a side fills are disjoint, so its layout holds 6, plus 6 for a back row, plus 4 for a third row, pieces |
| Grids.InitialCounts | Assets/Scripts/Models/Board.cs:19-43 | each player starts with exactly 16 pieces when the count is unset or 16, 12 for 12, 10 for 10 and 6 for 6 |
| Grids.InitialMirror | Assets/Scripts/Models/Board.cs:22-41 | the layout is mirrored: a cell in row y holds a piece of player 1 exactly when the cell in row 7 − y holds a piece of player 2 under the swapped counts |
| Boards.Board.FillThirdRow | Assets/Scripts/Models/Board.cs:31-42 | the value is written at columns 1, 2, 5 and 6 of the row, and every other cell is kept |
| Boards.Board.FillDropZones | Assets/Scripts/Models/Board.cs:22-29 | on an empty board, columns 1 to 6 of rows 1 and 6 get white and black pieces; rows 0 and 7 get them too when that player's count is unset or above 10; every other cell stays empty |
| Boards.Board.GetCellValue | Assets/Scripts/Models/Board.cs:50-57 | the value of the cell, and 0 off the board |
| Boards.Board.SetCellValue | Assets/Scripts/Models/Board.cs:68-74 | the board becomes the old board with that one cell written; a position off the board is ignored |
| Boards.Board.IsCellEmpty | Assets/Scripts/Models/Board.cs:81-88 | true exactly for an empty board cell, never for a position off the board |
| Boards.Board.GetPiecesPositions | Assets/Scripts/Models/Board.cs:99-109 | the nested loop returns PiecesOf, the list that PiecesOfSpec characterises |
| Boards.Board.GetFreeSpawnSpots | Assets/Scripts/Models/Board.cs:119-130 | the nested loop returns FreeSpawnSpots, the list that FreeSpawnSpotsSpec characterises |
| Boards.Board.CountPiecesInColumn | Assets/Scripts/Models/Board.cs:143-150 | the loop returns the column count, the multiplicity that ColumnCountSpec states |
| Boards.Board.ApplyMove | Assets/Scripts/Models/Board.cs:164-182 | the new board and the reported kind are those of Applied on the old board |
| Boards.Board.ApplyMoveSequence | Assets/Scripts/Models/Board.cs:191-202 | the moves are applied in order, each with the effect of Applied |
| Boards.Board.Clone | Assets/Scripts/Models/Board.cs:229-233 | a fresh board with its own array and the same cells |
| Boards.Board.Copy | Assets/Scripts/Models/Board.cs:229-233 | the copy constructor gives a fresh array holding the other board's cells |
| Rules.Forward | Assets/Scripts/GameLogic/GameLogic.cs:35 | `1 + p * (1 - p)` is +1 for player 1 and -1 for player 2 |
| Rules.ProductOfConsecutive | Assets/Scripts/GameLogic/GameLogic.cs:35 | for p other than 0 and 1, p * (1 - p) is at most -2, so the offset is never 0 |
| Rules.MidpointIsBetween | Assets/Scripts/GameLogic/GameLogic.cs:116-131 | for even coordinate sums, the midpoint read by the jump and capture tests is the cell between the ends |
| Rules.RemoveInvalidSpec | Assets/Scripts/GameLogic/GameLogic.cs:41 | RemoveAll keeps exactly the candidates that pass the test, without repeats and never more than there were |
| Rules.OrdinaryCandidatesSpec | Assets/Scripts/GameLogic/GameLogic.cs:32-39 | the plain-move candidates are the three distinct cells one row ahead |
| Rules.JumpCandidatesSpec | Assets/Scripts/GameLogic/GameLogic.cs:51-58 | the jump candidates are the three distinct cells two rows ahead, straight or two columns aside, each with a midpoint |
| Rules.CaptureCandidatesSpec | Assets/Scripts/GameLogic/GameLogic.cs:71-80 | the capture candidates are those three cells plus the two cells two columns aside on the same row, distinct, each with a midpoint |
| Rules.OrdinaryDestiniesSpec | Assets/Scripts/GameLogic/GameLogic.cs:32-43 | the plain-move destinations are exactly the empty board cells one row ahead, at most one column aside, from a piece of the player to move; at most 3, each once |
| Rules.JumpDestiniesSpec | Assets/Scripts/GameLogic/GameLogic.cs:51-63 | the jump destinations are exactly the empty cells two rows ahead, straight or two columns aside, over an own piece; at most 3, each once |
| Rules.CaptureDestiniesSpec | Assets/Scripts/GameLogic/GameLogic.cs:71-85 | the capture destinations are exactly the empty cells two steps ahead, diagonally ahead or sideways, over an opposing piece; at most 5, each once |
| Rules.CapturePasses | Assets/Scripts/GameLogic/GameLogic.cs:94-131 | a candidate passes the capture test exactly when it is empty, the start holds a piece of the player to move, and the midpoint holds the opponent's |
| Rules.RemoveInvalidFrame | Assets/Scripts/GameLogic/GameLogic.cs:94-131 | filtering reads only the board and the player to move |
| Rules.DestiniesFrame | Assets/Scripts/GameLogic/GameLogic.cs:32-85 | the three destination lists depend only on the board and the player to move |
| Rules.CaptureBeforeSpec | Assets/Scripts/GameLogic/GameLogic.cs:15-24 | the scan up to rank k finds a capture exactly when some board cell of smaller rank has a capture destination |
| Rules.CaptureAvailableSpec | Assets/Scripts/GameLogic/GameLogic.cs:15-24 | a capture is available exactly when some board cell has a capture destination |
| Rules.ValidDestiniesSpec | Assets/Scripts/GameLogic/GameLogic.cs:139-153 | during a chain, only the chained piece gets destinations, the recorded ones; otherwise captures are always offered, and jumps and plain moves exactly when no capture is available; while one is, only captures are offered |
| Rules.LegalMoveFacts | Assets/Scripts/GameLogic/GameLogic.cs:215-228 | a listed move starts on a piece of the player to move and ends on a different empty board cell; the board classifies it as its label says; a jump passes over an own piece and a capture over an opposing one |
| Rules.LegalNormalFacts | Assets/Scripts/GameLogic/GameLogic.cs:224 | a listed plain move is classified Normal by the board |
| Rules.LegalJumpFacts | Assets/Scripts/GameLogic/GameLogic.cs:223 | a listed jump passes over an own piece and is classified Jump |
| Rules.LegalCaptureFacts | Assets/Scripts/GameLogic/GameLogic.cs:220 | a listed capture passes over an opposing piece and is classified Capture |
| Rules.MovesAtSpec | Assets/Scripts/GameLogic/GameLogic.cs:219-225 | a cell contributes exactly the legally labelled moves from it, only captures while a capture is available |
| Rules.ValidMovesUpToSpec | Assets/Scripts/GameLogic/GameLogic.cs:215-228 | the first k cells of the scan contribute exactly the moves of the cells of smaller rank |
| Rules.ValidMovesMember | Assets/Scripts/GameLogic/GameLogic.cs:215-228 | a move is listed exactly when it starts on the board, is legally labelled, and is a capture whenever a capture is available |
| Rules.ValidMovesSpec | Assets/Scripts/GameLogic/GameLogic.cs:215-228 | the same, for every move at once |
| Rules.CaptureIsMandatory | Assets/Scripts/GameLogic/GameLogic.cs:219-225 | while some capture exists, every listed move is a capture |
| Transitions.ChangeTurnInvolution | Assets/Scripts/Models/Match.cs:205-207 | changing the turn gives the other player, and changing it twice gives the turn back |
| Transitions.ExecuteMoveRejected | Assets/Scripts/Models/Match.cs:90-96 | a move not offered, and not played by the computer, only clears the feedback and the forced jumps |
| Transitions.ExecuteJump | Assets/Scripts/Models/Match.cs:122-130 | after a jump, the forced jumps are the landed piece's jump destinations; the player keeps the turn with KeepJumping exactly when there is one, and the turn passes otherwise |
| Transitions.ExecuteCaptureEnds | Assets/Scripts/Models/Match.cs:138-147 | capturing the opponent's last piece ends the match, announces the winner, and leaves the capturing player to move |
| Transitions.ExecuteCaptureContinues | Assets/Scripts/Models/Match.cs:138-154 | any other capture takes exactly one piece off the opponent's counter; the player keeps the turn with KeepCapturing exactly when the landed piece can capture again |
| Transitions.ExecuteNormal | Assets/Scripts/Models/Match.cs:104-106 | a plain move passes the turn and keeps both counters |
| Transitions.EndOfBoardArrivalRemovesPiece | Assets/Scripts/Models/Match.cs:170-173 | promotion empties the arrival cell, keeps every other cell, and takes one piece off its owner's counter only |
| Transitions.EndOfBoardArrivalOwes | Assets/Scripts/Models/Match.cs:174-182 | promotion lists exactly the free drop-zone cells of the owner and owes min(their number, 2) pieces; the owner keeps the turn unless nothing is owed, in which case the turn passes with NoPiecesGiven |
| Transitions.SpawnPieceSpec | Assets/Scripts/Models/Match.cs:189-200 | spawning on a free slot places a piece of the player to move, adds one to their counter, uses one slot and one owed piece, and passes the turn exactly when nothing more is owed; any other spot changes nothing |
| Transitions.ExecuteMoveKeepsTurnValid | Assets/Scripts/Models/Match.cs:90-114 | executing a move leaves player 1 or 2 to move |
| Transitions.ArrivalKeepsTurnValid | Assets/Scripts/Models/Match.cs:170-183 | promotion leaves player 1 or 2 to move |
| Transitions.SpawnPieceKeepsTurnValid | Assets/Scripts/Models/Match.cs:189-200 | spawning leaves player 1 or 2 to move |
| Transitions.ExecuteMoveKeepsOwedFit | Assets/Scripts/Models/Match.cs:90-114 | executing a move keeps the owed pieces within the free slots left for them |
| Transitions.SpawnPieceKeepsOwedFit | Assets/Scripts/Models/Match.cs:189-200 | spawning while pieces are owed keeps the owed pieces within the free slots |
| Transitions.HandledKeeps | Assets/Scripts/Models/Match.cs:97-110 | the handlers of the three kinds of move keep the owed pieces, the slots, the offered destinations, the mode and the difficulty, and leave a valid turn |
| Transitions.LegalMoveHasOwner | Assets/Scripts/Models/Match.cs:111-113 | a legal move that reaches row 0 or 7 brings a piece of the player to move there, so promotion indexes a real counter |
| Transitions.ExecuteMoveKeepsConsistent | Assets/Scripts/Models/Match.cs:90-114 | executing a legal move keeps both piece counters equal to the number of pieces of that colour on the board |
| Transitions.HandledKeepsConsistent | Assets/Scripts/Models/Match.cs:97-110 | the handlers keep the counters equal to the board's pieces |
| Transitions.HandledCounts | Assets/Scripts/Models/Match.cs:97-110 | before promotion, only a capture changes a counter: the opponent's, by one |
| Transitions.ArrivalKeepsConsistent | Assets/Scripts/Models/Match.cs:170-173 | promotion keeps the counters equal to the board's pieces |
| Transitions.SpawnPieceKeepsConsistent | Assets/Scripts/Models/Match.cs:189-194 | spawning on an empty slot keeps the counters equal to the board's pieces |
| Matches.Match.constructor | Assets/Scripts/Models/Match.cs:60-74 | a new match is InitialState: player 1 to move, nothing owed, no forced jump, the initial layout, and counters equal to the configured piece counts or 16, which agree with the board for every count the settings offer |
| Transitions.InitialStateConsistent | Assets/Scripts/Models/Match.cs:60-74 | the starting counters agree with the board exactly when each configured count equals the pieces its layout places, which holds for unset, 16, 12, 10 and 6; this is the base case of the counter invariant |
| Matches.Match.Copy | Assets/Scripts/Models/Match.cs:220-227 | the copy constructor gives the same state with its own board, counters and lists |
| Matches.Match.Clone | Assets/Scripts/Models/Match.cs:220-227 | a deep copy: fresh board, array and counters, holding the same state |
| Matches.Match.UpdateValidDestinies | Assets/Scripts/Models/Match.cs:80-82 | only the offered destinations change, to those of the selected piece |
| Matches.Match.ExecuteMove | Assets/Scripts/Models/Match.cs:90-114 | the new state is AfterExecuteMove of the old one; the Transitions lemmas state what that means |
| Matches.Match.EnforceSequentialJump | Assets/Scripts/Models/Match.cs:122-130 | the new state is AfterSequentialJump: forced jumps recorded and the turn kept, or the turn passed |
| Matches.Match.HandleCapture | Assets/Scripts/Models/Match.cs:138-154 | the new state is AfterCapture: one opposing piece fewer, then a win, a kept turn or a passed turn |
| Matches.Match.IsGameOver | Assets/Scripts/Models/Match.cs:160-162 | true exactly when a counter is 0 |
| Matches.Match.HandleEndOfBoardArrival | Assets/Scripts/Models/Match.cs:170-183 | the new state is AfterEndOfBoardArrival of the old one |
| Matches.Match.RemoveArrivedPiece | Assets/Scripts/Models/Match.cs:171-173 | the arrived piece leaves the board, its owner is to move, and its owner's counter drops by one |
| Matches.Match.AwardPieces | Assets/Scripts/Models/Match.cs:174-182 | the free slots and the owed pieces are set, and the turn passes when nothing is owed |
| Matches.Match.SpawnPiece | Assets/Scripts/Models/Match.cs:189-200 | the new state is AfterSpawnPiece of the old one |
| Matches.Match.ChangeTurn | Assets/Scripts/Models/Match.cs:205-207 | only the turn changes, to the other player |
| Matches.Match.SetDifficulty | Assets/Scripts/Models/Match.cs:212-214 | only the difficulty changes |
| Chains.NoContinuationFromOtherCell | Assets/Scripts/GameLogic/GameLogic.cs:168-172 | no chain continues from a cell without a piece of the player to move |
| Chains.ContinuationFacts | Assets/Scripts/GameLogic/GameLogic.cs:166-178 | executing a chain move leaves a valid turn; every continuation is again a legal chain move; a continuation exists only if the move used up an opposing piece (capture) or two rows (jump), so expansion terminates |
| Chains.HandledShrinks | Assets/Scripts/GameLogic/GameLogic.cs:166-178 | while the moved piece stays with the player to move, a capture has removed one opposing piece and a jump has advanced two rows |
| Chains.ChainCons | Assets/Scripts/GameLogic/GameLogic.cs:166-178 | a move prefixed to a connected chain of its kind gives a connected chain |
| Chains.ExpandShape | Assets/Scripts/GameLogic/GameLogic.cs:165-180 | an expansion yields at least one sequence, each the prefix, then the move, then a connected chain of the move's kind |
| Chains.SingleShape | Assets/Scripts/GameLogic/GameLogic.cs:169-171 | a sequence that stops after the move has that shape |
| Chains.StepShape | Assets/Scripts/GameLogic/GameLogic.cs:173-179 | the expansions of the continuations of a move extend the sequence through that move |
| Chains.ChainExtend | Assets/Scripts/GameLogic/GameLogic.cs:173-179 | a chain extending prefix + [m] from m's end extends prefix through m |
| Chains.ExpandAllShape | Assets/Scripts/GameLogic/GameLogic.cs:174-179 | expanding every continuation yields sequences through each, at least one when there is a continuation |
| Chains.JoinShapes | Assets/Scripts/GameLogic/GameLogic.cs:174-179 | the results of the loop over continuations concatenate with the right shape |
| Chains.ExpandRejected | Assets/Scripts/GameLogic/GameLogic.cs:166-172 | a move the match does not admit stops the sequence at that move |
| Chains.SequencesOfShape | Assets/Scripts/GameLogic/GameLogic.cs:191-205 | every valid move starts at least one well-formed sequence, and only sequences that start with it |
| Chains.StartFromEmptyPrefix | Assets/Scripts/GameLogic/GameLogic.cs:197 | expanded from an empty sequence, each result is well formed and starts with the move |
| Chains.SequencesFromShape | Assets/Scripts/GameLogic/GameLogic.cs:191-206 | the sequences of a list of valid moves are well formed, each starts with one of them, and each of them starts one |
| Chains.JoinStarts | Assets/Scripts/GameLogic/GameLogic.cs:191-206 | the results of the loop over valid moves concatenate with the right starts |
| Chains.AllSequencesSpec | Assets/Scripts/GameLogic/GameLogic.cs:187-208 | every generated sequence is well formed and starts with a valid move, and every valid move starts a generated sequence |
| Chains.CaptureChainsOnly | Assets/Scripts/GameLogic/GameLogic.cs:187-208 | while a capture is available, every leg of every generated sequence is a capture |
| GameLogic.MovesOfConcat | Assets/Scripts/GameLogic/GameLogic.cs:198 | the moves of concatenated sequence lists are the concatenation of their moves |
| GameLogic.IsCaptureAvailable | Assets/Scripts/GameLogic/GameLogic.cs:15-24 | the early-exit scan returns CaptureAvailable, which CaptureAvailableSpec characterises |
| GameLogic.GetValidMoves | Assets/Scripts/GameLogic/GameLogic.cs:215-228 | the nested loop returns ValidMoves, which ValidMovesSpec characterises |
| GameLogic.AddColumnMoves | Assets/Scripts/GameLogic/GameLogic.cs:218-226 | the inner loop appends the moves of the eight cells of the column, in scan order |
| GameLogic.CellMoves | Assets/Scripts/GameLogic/GameLogic.cs:219-225 | one cell contributes its captures, then its jumps and plain moves when no capture is available |
| GameLogic.FlattenMatches | Assets/Scripts/GameLogic/GameLogic.cs:215-228 | the per-cell lists gathered so far concatenate to the moves of the cells scanned |
| GameLogic.ScanCellOf | Assets/Scripts/GameLogic/GameLogic.cs:16-18 | cell (x, y) of the nested loop has scan rank 8x + y |
| GameLogic.ExpandMoveSequences | Assets/Scripts/GameLogic/GameLogic.cs:165-180 | the recursion returns the sequence objects whose moves are Expand of the state and the sequence it started from |
| GameLogic.ExpandEach | Assets/Scripts/GameLogic/GameLogic.cs:174-179 | the loop over continuations returns ExpandAll, in order |
| GameLogic.ExpandContinuation | Assets/Scripts/GameLogic/GameLogic.cs:175-178 | one pass expands the continuation from copies of the match and of the sequence |
| GameLogic.ExpandUnfold | Assets/Scripts/GameLogic/GameLogic.cs:166-179 | Expand after one step: the sequence ends when nothing continues, and otherwise every continuation is expanded from the new state |
| GameLogic.ExpandAllStep | Assets/Scripts/GameLogic/GameLogic.cs:173-174 | the i-th move of the continuation list goes to the i-th destination and can be expanded |
| GameLogic.ExpandAllAppend | Assets/Scripts/GameLogic/GameLogic.cs:174-179 | one more pass of the loop extends ExpandAll by one destination |
| GameLogic.ExpandAllSnoc | Assets/Scripts/GameLogic/GameLogic.cs:174-179 | ExpandAll over one more destination appends that destination's expansion |
| GameLogic.GenerateAllSequences | Assets/Scripts/GameLogic/GameLogic.cs:187-208 | the sequence objects returned hold exactly AllSequences, in order; AllSequencesSpec states what they are |
| GameLogic.SequencesOfMove | Assets/Scripts/GameLogic/GameLogic.cs:192-205 | one pass gives the move alone for a plain move, and its expansions for a jump or a capture |
| GameLogic.ExpandFirstMove | Assets/Scripts/GameLogic/GameLogic.cs:196-198 | a jump or capture is expanded from an empty sequence on a copy of the match |
| GameLogic.SequencesFromAppend | Assets/Scripts/GameLogic/GameLogic.cs:191-206 | one more pass of the loop extends the result by that move's sequences |
| StateEvaluator.PieceValueRange | Assets/Scripts/AI/StateEvaluator.cs:43-46 | a piece on the board is worth 50 to 67, and at least 60 on an edge column |
| StateEvaluator.ValueSumRange | Assets/Scripts/AI/StateEvaluator.cs:42-53 | a list of board pieces is worth 50 to 67 per piece |
| StateEvaluator.MediumScoreRange | Assets/Scripts/AI/StateEvaluator.cs:38-55 | the medium score lies between 50 per black piece minus 67 per white one and 67 per black piece minus 50 per white one, and within the evaluation bound |
| StateEvaluator.WeightedDifference | Assets/Scripts/AI/StateEvaluator.cs:69 | a factor of 30 to 39 keeps the sign of the piece difference and scales it by 30 to 39 |
| StateEvaluator.EasyScoreRange | Assets/Scripts/AI/StateEvaluator.cs:66-70 | the easy score has the sign of the piece difference, player 2 minus player 1, is 30 to 39 times it, and stays within the evaluation bound |
| StateEvaluator.EvaluationRange | Assets/Scripts/AI/StateEvaluator.cs:18-27 | every evaluation lies within the bound, strictly inside the search's infinities |
| StateEvaluator.LastLineBonusCounts | Assets/Scripts/AI/StateEvaluator.cs:119-123 | the last-line bonus is 50 per piece of the player on that row |
| StateEvaluator.DefenceBonusRange | Assets/Scripts/AI/StateEvaluator.cs:126-146 | each inner column adds 0 to 4 defence points |
| StateEvaluator.BonusRange | Assets/Scripts/AI/StateEvaluator.cs:78-148 | the bonus is 0 below MediumPlus and between 0 and 645 otherwise |
| StateEvaluator.DefenceReadsOnBoard | Assets/Scripts/AI/StateEvaluator.cs:126-146 | every cell the defence loop reads is on the board |
| StateEvaluator.EvaluateState | Assets/Scripts/AI/StateEvaluator.cs:18-27 | Medium and MediumPlus use the medium heuristic and every other level the easy one; the result is Evaluation |
| StateEvaluator.MediumHeuristic | Assets/Scripts/AI/StateEvaluator.cs:38-55 | the two loops compute MediumScore, bounded by MediumScoreRange |
| StateEvaluator.EasyHeuristic | Assets/Scripts/AI/StateEvaluator.cs:66-70 | the result is EasyScore for the draw, bounded by EasyScoreRange |
| StateEvaluator.BonusEvaluation | Assets/Scripts/AI/StateEvaluator.cs:78-148 | the result is Bonus, between 0 and 645 |
| StateEvaluator.EdgeAndFlankPoints | Assets/Scripts/AI/StateEvaluator.cs:99-116 | the edge and flank points: 60 for each edge column where the player has at least as many pieces as the opponent, and 50 for each guarded flank, plus 1 on the left flank when the player has more of their own pieces in column 0 than in column 7, and on the right flank otherwise, ties included |
| StateEvaluator.AddLastLinePoints | Assets/Scripts/AI/StateEvaluator.cs:119-123 | the loop adds the last-line bonus |
| StateEvaluator.AddDefencePoints | Assets/Scripts/AI/StateEvaluator.cs:126-146 | the loop adds the defence points of columns 1 to 6 |
| AIs.Child | Assets/Scripts/AI/AI.cs:122-124 | playing a sequence on a copy and handing the turn over leaves a valid turn |
| AIs.ChildHandsOver | Assets/Scripts/AI/AI.cs:122-124 | a child keeps its parent's counters, so it is over exactly when its parent is, and the other player is to move |
| AIs.ChildValueIsSearch | Assets/Scripts/AI/AI.cs:125 | the value of a child is the search of the child with the parent's window |
| AIs.MinimaxValue | Assets/Scripts/AI/AI.cs:111-137 | the unpruned minimax value lies between the two infinities |
| AIs.ChildMinimax | Assets/Scripts/AI/AI.cs:121-125 | the minimax value of a child lies between the two infinities |
| AIs.BestOf | Assets/Scripts/AI/AI.cs:120-132 | the best value over the children lies between the two infinities |
| AIs.BestOfPrefix | Assets/Scripts/AI/AI.cs:120-132 | the best value over all the children is at least as good for the player as the best over a prefix |
| AIs.BestOfMember | Assets/Scripts/AI/AI.cs:120-132 | the best value over all the children is at least as good for the player as each child's value |
| AIs.SearchFailSoft | Assets/Scripts/AI/AI.cs:111-137 | alpha-beta is fail-soft: a result at or below alpha bounds the minimax value from above, one at or above beta bounds it from below, and one inside the window is the minimax value |
| AIs.SearchFromFailSoft | Assets/Scripts/AI/AI.cs:121-135 | the loop with its window and the best score so far, under the loop invariant, returns a fail-soft bound of the best child value |
| AIs.SearchIsMinimax | Assets/Scripts/AI/AI.cs:111-137 | with the full window, the pruned search returns exactly the minimax value |
| AIs.NoSequenceValue | Assets/Scripts/AI/AI.cs:118-136 | a live state with no sequence to play above depth 1 gets the starting score: minus infinity when maximizing, plus infinity otherwise |
| AIs.SinglesBeforeMember | Assets/Scripts/AI/AI.cs:57-70 | the single placements considered so far are exactly the slots scanned so far |
| AIs.RowPairsMember | Assets/Scripts/AI/AI.cs:38-55 | one row of the pair loop considers exactly the pairs from its slot to a different scanned slot |
| AIs.PairsBeforeMember | Assets/Scripts/AI/AI.cs:37-55 | the pair loop considers exactly the ordered pairs of different slots whose first slot was scanned |
| AIs.SpawnCandidatesAreChoices | Assets/Scripts/AI/AI.cs:36-70 | SpawnPieces scores exactly the ordered pairs of different free slots when two pieces are owed, and exactly the single free slots otherwise; there is one whenever a choice exists |
| AIs.KeptSomething | Assets/Scripts/AI/AI.cs:36-71 | once every candidate is scored, the list of best placements is not empty |
| AIs.KeptIsBest | Assets/Scripts/AI/AI.cs:36-71 | each kept placement is a possible choice, and no possible choice scores more |
| AIs.SequenceScoreAboveMinimum | Assets/Scripts/AI/AI.cs:89 | the score of a sequence is never below minus infinity |
| AIs.SpawnScoreAboveMinimum | Assets/Scripts/AI/AI.cs:44-60 | the score of a placement is never below minus infinity |
| AIs.AI.constructor | Assets/Scripts/AI/AI.cs:14-16 | the player plays in the given match |
| AIs.AI.Play | Assets/Scripts/AI/AI.cs:22-26 | the forced jumps are cleared and nothing else changes; the chosen sequence is one the player to move can play, and none scores more |
| AIs.AI.SpawnPieces | Assets/Scripts/AI/AI.cs:33-73 | the chosen placement is a possible choice (two different free slots when two pieces are owed, one free slot otherwise), and no possible choice scores more |
| AIs.AI.ScorePairs | Assets/Scripts/AI/AI.cs:36-55 | after the pair loop, every ordered pair of different slots has been scored, and the kept pairs reach the best score |
| AIs.AI.ScoreRow | Assets/Scripts/AI/AI.cs:38-55 | one row of the pair loop keeps that invariant, skipping the equal slot |
| AIs.AI.ScoreSingles | Assets/Scripts/AI/AI.cs:57-70 | after the single loop, every slot has been scored, and the kept slots reach the best score |
| AIs.AI.ConsiderPlacement | Assets/Scripts/AI/AI.cs:45-54 | a lower score is skipped, a higher one replaces the kept placements, and an equal one joins them |
| AIs.AI.ScorePlacement | Assets/Scripts/AI/AI.cs:41-60 | the placement is played on a copy and scored as SpawnScore, never below minus infinity |
| AIs.AI.FindBestSequence | Assets/Scripts/AI/AI.cs:80-100 | the chosen sequence is one of those given, and none of them scores more |
| AIs.AI.ScoreSequence | Assets/Scripts/AI/AI.cs:86-89 | the sequence is played on a copy with the turn handed over, and scored as SequenceScore, never below minus infinity |
| AIs.AI.Minimax | Assets/Scripts/AI/AI.cs:111-137 | the method returns Search, which SearchIsMinimax ties to the minimax value |
| AIs.AI.EvaluateLeaf | Assets/Scripts/AI/AI.cs:115-117 | at depth 1, a live state scores its evaluation for player 2 |
| AIs.AI.SearchSequences | Assets/Scripts/AI/AI.cs:120-136 | the loop with alpha-beta updates and its break returns SearchFrom from the starting score |
| AIs.AI.SearchChild | Assets/Scripts/AI/AI.cs:122-125 | one pass plays the sequence on a copy, hands the turn over and searches one level deeper |

## Left out

- Scores are unbounded integers. `int.MinValue` and `int.MaxValue` stand for minus and plus infinity, with the same values as in C#. In C#, a plus-infinity search value plus a positive bonus wraps around to a large negative number. The model does not wrap.
- AIs.SequenceScore: the sum of the search value and the bonus is taken without 32-bit wrap-around, for the reason just given.
- AIs.SpawnScore: the sum of the search value and the bonus is taken without 32-bit wrap-around, for the same reason.
- Randomness is a parameter:
  - The easy heuristic's `Random().Next(10)` is a draw `r` from 0 to 9.
  - Inside the search, that draw is `noise(state)`, a function of the state. Two evaluations of the same state in one search therefore get the same draw, while the program draws afresh each time.
  - The random pick among equally good choices (AI.cs:72 and AI.cs:99) is a nondeterministic choice (`:|`). The contracts hold for whichever is picked.
- The saved settings (`PlayerPrefs`) are parameters. The configured piece counts enter as `Option<int>`, with None when nothing was saved.
- The clock field of a match (`Clock`), `Debug.Log`, and the audio helpers of Utils.cs are not part of this model.
- `Board.ExtractSubBoard` (Board.cs:213-223) is not modelled because nothing in the core uses it. The `ToString` methods of Position, Move and MoveSequence are not modelled either.
- `Position.Equals(object)` (Position.cs:40-45) calls itself when given another Position object, so it never terminates. The lists the program uses compare positions through the typed `Equals`, which is the one modelled.
- A null `lastJumpPosition` is modelled as `None`. With `None` and a non-empty list of forced jumps, `Rules.GetValidDestinies` returns no destinations where the source would dereference null; no transition reaches that state, since the sequential-jump check sets both fields together. A feedback text never set is modelled as `""`. A difficulty never set is `Easy`, C#'s default of 0.
- `List.Remove` on the free slots is modelled as `RemoveFirst`.
- The match is described as ignoring a move once it is over. `Match.ExecuteMove` does not check `isOver`, and the model follows the code.
- Matches.Match.ExecuteMove: requires that a move which is admitted and lands on row 0 or 7 brings a piece there (`ArrivalHasOwner`). The program would otherwise index the counters with -1 and throw. `Transitions.LegalMoveHasOwner` shows that every legal move meets this.
- Matches.Match.HandleEndOfBoardArrival: requires the arrival cell to hold a piece, for the same reason.
- Matches.Match.HandleCapture: requires player 1 or 2 to move, because the program indexes the counters with the player number.
- Matches.Match.SpawnPiece: requires player 1 or 2 to move, for the same reason.
- AIs.AI.Play: requires at least one playable sequence. `FindBestSequence` reads `availableSequences[0]` and throws on an empty list.
- AIs.AI.FindBestSequence: requires a non-empty list, for the same reason.
- AIs.AI.SpawnPieces: requires some placement to be possible (`HasSpawnChoice`). The program otherwise indexes an empty list of best placements and throws.
- AIs.AI.Minimax: requires depth at least 1. Every caller passes 2; below 1 the program's recursion never reaches its depth-1 leaf.
- The program's `NextPlayer` is defined for every integer, and so is `Utils.NextPlayer`. The lemmas about alternation are stated for players 1 and 2 only.
- Several loop bodies are separate methods so that each proof stays small: `ScorePairs`, `ScoreRow`, `ScoreSingles`, `ConsiderPlacement`, `ScorePlacement`, `ScoreSequence`, `SearchSequences`, `SearchChild`, `EvaluateLeaf`, `AddColumnMoves`, `CellMoves`, `ExpandEach`, `ExpandContinuation`, `ExpandFirstMove`, `SequencesOfMove`, `EdgeAndFlankPoints`, `AddLastLinePoints`, `AddDefencePoints`, `RemoveArrivedPiece` and `AwardPieces`. Each does what the inlined code does, in the same order.
- The rules functions are evaluated on `Match.View()`, a value snapshot of the match's fields. They only read the match, so passing the snapshot instead of the object changes nothing.
