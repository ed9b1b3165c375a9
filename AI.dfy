/** The computer player: a depth-limited minimax search with alpha-beta
    pruning over copies of the match, and the choice of the sequence to play
    and of the cells where to place owed pieces. */
module AIs {
  import opened Constants
  import opened Positions
  import opened Moves
  import opened Utils
  import opened Grids
  import opened MatchStates
  import opened Transitions
  import opened Chains
  import opened MoveSequences
  import opened Matches
  import opened GameLogic
  import opened StateEvaluator

  // ---------------------------------------------------------------------------
  // The search tree

  /** The state the search reaches by playing the moves of `q` on a copy of the
      board and handing the turn over. */
  function Child(s: MatchState, q: seq<Move>): (c: MatchState)
    requires ValidTurn(s)
    ensures ValidTurn(c)
  {
    AfterChangeTurn(s.(board := AppliedSequence(s.board, q)))
  }

  /** A child keeps the piece counters of its parent, so it is over exactly
      when its parent is, and the turn has passed to the other player. */
  lemma ChildHandsOver(s: MatchState, q: seq<Move>)
    requires ValidTurn(s)
    ensures Child(s, q).numPieces == s.numPieces && (GameOver(Child(s, q)) <==> GameOver(s))
    ensures Child(s, q).playerTurn == NextPlayer(s.playerTurn) != s.playerTurn
  {
  }

  /** The score a player starts from before looking at any child: minus
      infinity for the maximizing player, plus infinity for the other. */
  function Worst(maximizing: bool): int {
    if maximizing then IntMin else IntMax
  }

  /** The better of two scores for the player: the larger when maximizing. */
  function Better(maximizing: bool, a: int, b: int): int {
    if maximizing then Max(a, b) else Min(a, b)
  }

  // ---------------------------------------------------------------------------
  // The pruned search

  /** The value the search returns: plus infinity for the maximizing player and
      minus infinity for the other on a finished match, the medium or easy score
      for player 2 at depth 1, and otherwise the children searched in the order
      the move generator lists their sequences, stopping as soon as the window
      closes. */
  function Search(s: MatchState, maximizing: bool, alpha: int, beta: int, depth: int,
                  noise: MatchState -> Draw): int
    requires ValidTurn(s) && depth >= 1
    decreases depth, 0, 0, s
  {
    if GameOver(s) then (if maximizing then IntMax else IntMin)
    else if depth == 1 then Evaluation(s, 2, noise(s))
    else SearchFrom(s, AllSequences(s), 0, maximizing, alpha, beta, Worst(maximizing), depth - 1, noise)
  }

  /** The value the search returns for the child reached by `q`, searched
      with the window of its parent. SearchFrom reaches the child only
      through this function and ChildSearch, so that looking one step into
      the loop does not build the child state. */
  function ChildValue(s: MatchState, q: seq<Move>, maximizing: bool, alpha: int, beta: int, depth: int,
                      noise: MatchState -> Draw): int
    requires ValidTurn(s) && depth >= 1
    decreases depth, 1, 1, s
  {
    ChildSearch(s, q, maximizing, alpha, beta, depth, noise)
  }

  /** The search of the child reached by `q`. */
  function ChildSearch(s: MatchState, q: seq<Move>, maximizing: bool, alpha: int, beta: int, depth: int,
                       noise: MatchState -> Draw): int
    requires ValidTurn(s) && depth >= 1
    decreases depth, 1, 0, s
  {
    Search(Child(s, q), maximizing, alpha, beta, depth, noise)
  }

  /** ChildValue is the search of the child. */
  lemma ChildValueIsSearch(s: MatchState, q: seq<Move>, maximizing: bool, alpha: int, beta: int, depth: int,
                           noise: MatchState -> Draw)
    requires ValidTurn(s) && depth >= 1
    ensures ChildValue(s, q, maximizing, alpha, beta, depth, noise) == Search(Child(s, q), maximizing, alpha, beta, depth, noise)
  {
  }

  /** The loop over the children reached by the sequences `qs` from the i-th
      on, with the window and the best score reached so far. */
  function SearchFrom(s: MatchState, qs: seq<seq<Move>>, i: int, maximizing: bool, alpha: int, beta: int,
                      best: int, depth: int, noise: MatchState -> Draw): int
    requires ValidTurn(s) && 0 <= i <= |qs| && depth >= 1
    decreases depth, 2, |qs| - i, s
  {
    if i == |qs| then best
    else
      var newScore := ChildValue(s, qs[i], !maximizing, alpha, beta, depth, noise);
      var alpha' := if maximizing then Max(alpha, newScore) else alpha;
      var beta' := if maximizing then beta else Min(beta, newScore);
      var best' := Better(maximizing, best, newScore);
      if beta' <= alpha' then best'
      else SearchFrom(s, qs, i + 1, maximizing, alpha', beta', best', depth, noise)
  }

  // ---------------------------------------------------------------------------
  // The unpruned reference

  /** The minimax value of a state: every child is looked at. It lies
      between the two infinities. */
  function MinimaxValue(s: MatchState, maximizing: bool, depth: int, noise: MatchState -> Draw): (v: int)
    requires ValidTurn(s) && depth >= 1
    ensures IntMin <= v <= IntMax
    decreases depth, 0, 0
  {
    if GameOver(s) then (if maximizing then IntMax else IntMin)
    else if depth == 1 then EvaluationRange(s, 2, noise(s)); Evaluation(s, 2, noise(s))
    else BestOf(s, AllSequences(s), maximizing, depth - 1, noise)
  }

  /** The minimax value of the child reached by `q`. */
  function ChildMinimax(s: MatchState, q: seq<Move>, maximizing: bool, depth: int, noise: MatchState -> Draw): (v: int)
    requires ValidTurn(s) && depth >= 1
    ensures IntMin <= v <= IntMax
    decreases depth, 1, 0
  {
    MinimaxValue(Child(s, q), maximizing, depth, noise)
  }

  /** The best minimax value among the children reached by the sequences `qs`,
      starting from the worst score; it lies between the two infinities. */
  function BestOf(s: MatchState, qs: seq<seq<Move>>, maximizing: bool, depth: int, noise: MatchState -> Draw): (v: int)
    requires ValidTurn(s) && depth >= 1
    ensures IntMin <= v <= IntMax
    decreases depth, 2, |qs|
  {
    if |qs| == 0 then Worst(maximizing)
    else Better(maximizing, BestOf(s, qs[..|qs| - 1], maximizing, depth, noise),
                ChildMinimax(s, qs[|qs| - 1], !maximizing, depth, noise))
  }

  /** The best value over all the children is at least as good as the best
      over those of a prefix of the sequences. */
  lemma {:induction false} BestOfPrefix(s: MatchState, qs: seq<seq<Move>>, maximizing: bool, depth: int,
                                        noise: MatchState -> Draw, k: int)
    requires ValidTurn(s) && depth >= 1 && 0 <= k <= |qs|
    ensures maximizing ==> BestOf(s, qs, maximizing, depth, noise) >= BestOf(s, qs[..k], maximizing, depth, noise)
    ensures !maximizing ==> BestOf(s, qs, maximizing, depth, noise) <= BestOf(s, qs[..k], maximizing, depth, noise)
    decreases |qs|
  {
    if k == |qs| {
      assert qs[..k] == qs;
    } else {
      var prefix := qs[..|qs| - 1];
      assert qs[..k] == prefix[..k];
      BestOfPrefix(s, prefix, maximizing, depth, noise, k);
    }
  }

  /** The best value over all the children is at least as good as the value of
      any one of them. */
  lemma BestOfMember(s: MatchState, qs: seq<seq<Move>>, maximizing: bool, depth: int, noise: MatchState -> Draw, j: int)
    requires ValidTurn(s) && depth >= 1 && 0 <= j < |qs|
    ensures maximizing ==> BestOf(s, qs, maximizing, depth, noise) >= ChildMinimax(s, qs[j], !maximizing, depth, noise)
    ensures !maximizing ==> BestOf(s, qs, maximizing, depth, noise) <= ChildMinimax(s, qs[j], !maximizing, depth, noise)
  {
    var upTo := qs[..j + 1];
    assert upTo[..j] == qs[..j] && upTo[j] == qs[j];
    BestOfPrefix(s, qs, maximizing, depth, noise, j + 1);
  }

  // ---------------------------------------------------------------------------
  // Pruning does not change the value

  /** What the search promises about a window: a result at or below alpha bounds
      the true value from above, one at or above beta bounds it from below, and
      one strictly inside the window is the true value. */
  predicate FailSoft(r: int, v: int, alpha: int, beta: int) {
    (r <= alpha ==> v <= r) && (alpha < r < beta ==> r == v) && (beta <= r ==> r <= v)
  }

  lemma {:induction false} SearchFailSoft(s: MatchState, maximizing: bool, alpha: int, beta: int, depth: int,
                                          noise: MatchState -> Draw)
    requires ValidTurn(s) && depth >= 1 && IntMin <= alpha < beta <= IntMax
    ensures FailSoft(Search(s, maximizing, alpha, beta, depth, noise), MinimaxValue(s, maximizing, depth, noise), alpha, beta)
    decreases depth, 0, 0
  {
    if !GameOver(s) && depth > 1 {
      var qs := AllSequences(s);
      assert qs[..0] == [];
      SearchFromFailSoft(s, qs, 0, maximizing, alpha, beta, alpha, beta, Worst(maximizing), depth - 1, noise);
    }
  }

  /** The loop of the search keeps, for the maximizing player, alpha equal to
      the larger of the node's alpha and the best score so far, that best score
      an upper bound of the children's value so far and equal to it once it
      beats the node's alpha (and symmetrically for the other player). */
  predicate LoopInvariant(s: MatchState, qs: seq<seq<Move>>, i: int, maximizing: bool, alpha0: int, beta0: int,
                          alpha: int, beta: int, best: int, depth: int, noise: MatchState -> Draw)
    requires ValidTurn(s) && 0 <= i <= |qs| && depth >= 1
  {
    var v := BestOf(s, qs[..i], maximizing, depth, noise);
    alpha < beta &&
    (maximizing ==> beta == beta0 && alpha == Max(alpha0, best) && v <= best && (best > alpha0 ==> v == best)) &&
    (!maximizing ==> alpha == alpha0 && beta == Min(beta0, best) && v >= best && (best < beta0 ==> v == best))
  }

  lemma {:induction false} SearchFromFailSoft(s: MatchState, qs: seq<seq<Move>>, i: int, maximizing: bool,
                                              alpha0: int, beta0: int, alpha: int, beta: int, best: int, depth: int,
                                              noise: MatchState -> Draw)
    requires ValidTurn(s) && 0 <= i <= |qs| && depth >= 1
    requires IntMin <= alpha0 < beta0 <= IntMax
    requires LoopInvariant(s, qs, i, maximizing, alpha0, beta0, alpha, beta, best, depth, noise)
    ensures FailSoft(SearchFrom(s, qs, i, maximizing, alpha, beta, best, depth, noise),
                     BestOf(s, qs, maximizing, depth, noise), alpha0, beta0)
    decreases depth, 1, |qs| - i
  {
    if i == |qs| {
      assert qs[..i] == qs;
    } else {
      var r := ChildValue(s, qs[i], !maximizing, alpha, beta, depth, noise);
      ChildValueIsSearch(s, qs[i], !maximizing, alpha, beta, depth, noise);
      var v := ChildMinimax(s, qs[i], !maximizing, depth, noise);
      SearchFailSoft(Child(s, qs[i]), !maximizing, alpha, beta, depth, noise);
      assert FailSoft(r, v, alpha, beta);
      var alpha' := if maximizing then Max(alpha, r) else alpha;
      var beta' := if maximizing then beta else Min(beta, r);
      var best' := Better(maximizing, best, r);
      BestOfMember(s, qs, maximizing, depth, noise, i);
      if beta' > alpha' {
        assert qs[..i + 1][..i] == qs[..i];
        assert BestOf(s, qs[..i + 1], maximizing, depth, noise) ==
          Better(maximizing, BestOf(s, qs[..i], maximizing, depth, noise), v);
        SearchFromFailSoft(s, qs, i + 1, maximizing, alpha0, beta0, alpha', beta', best', depth, noise);
      }
    }
  }

  /** Searched with the full window, the pruned search returns the minimax value. */
  lemma SearchIsMinimax(s: MatchState, maximizing: bool, depth: int, noise: MatchState -> Draw)
    requires ValidTurn(s) && depth >= 1
    ensures Search(s, maximizing, IntMin, IntMax, depth, noise) == MinimaxValue(s, maximizing, depth, noise)
    ensures IntMin <= Search(s, maximizing, IntMin, IntMax, depth, noise) <= IntMax
  {
    SearchFailSoft(s, maximizing, IntMin, IntMax, depth, noise);
  }

  /** With no sequence to play on a live state above depth 1, the search returns
      its starting score. */
  lemma NoSequenceValue(s: MatchState, maximizing: bool, alpha: int, beta: int, depth: int, noise: MatchState -> Draw)
    requires ValidTurn(s) && depth > 1 && !GameOver(s) && |AllSequences(s)| == 0
    ensures Search(s, maximizing, alpha, beta, depth, noise) == Worst(maximizing)
  {
  }

  // ---------------------------------------------------------------------------
  // What the choices maximize

  /** The score of playing `q`: the depth-2 search value, for the minimizing
      player, of the state it leads to, plus the bonus of that state for player 2. */
  function SequenceScore(s: MatchState, q: seq<Move>, noise: MatchState -> Draw): int
    requires ValidTurn(s)
  {
    ChildValue(s, q, false, IntMin, IntMax, 2, noise) + Bonus(Child(s, q), 2)
  }

  /** The score of placing pieces on the cells of `slots`, in order: the
      first is placed and the rest scored from there; once none is left, the
      depth-2 search value, for the minimizing player, of the state reached,
      plus its bonus for player 2. */
  function SpawnScore(s: MatchState, slots: seq<Position>, noise: MatchState -> Draw): int
    requires ValidTurn(s)
    decreases |slots|
  {
    if |slots| == 0 then Search(s, false, IntMin, IntMax, 2, noise) + Bonus(s, 2)
    else
      SpawnPieceKeepsTurnValid(s, slots[0]);
      SpawnScore(AfterSpawnPiece(s, slots[0]), slots[1..], noise)
  }

  /** The placements considered: two different free slots when two pieces are
      owed, one free slot otherwise. */
  predicate IsSpawnChoice(s: MatchState, slots: seq<Position>) {
    if s.unplacedPieces == 2 then |slots| == 2 && slots[0] in s.freeSlots && slots[1] in s.freeSlots && slots[0] != slots[1]
    else |slots| == 1 && slots[0] in s.freeSlots
  }

  /** Some placement can be considered. */
  predicate HasSpawnChoice(s: MatchState) {
    if s.unplacedPieces == 2 then exists i, j :: 0 <= i < j < |s.freeSlots| && s.freeSlots[i] != s.freeSlots[j]
    else |s.freeSlots| > 0
  }

  /** The single placements SpawnPieces looks at among the first `j` free
      slots of `fs`, in order. */
  function SinglesBefore(fs: seq<Position>, j: int): seq<seq<Position>>
    requires 0 <= j <= |fs|
    decreases j
  {
    if j == 0 then [] else SinglesBefore(fs, j - 1) + [[fs[j - 1]]]
  }

  /** The pairs SpawnPieces looks at with `a` first and one of the first `j`
      free slots of `fs` second, in order; a slot equal to `a` is skipped. */
  function RowPairs(fs: seq<Position>, a: Position, j: int): seq<seq<Position>>
    requires 0 <= j <= |fs|
    decreases j
  {
    if j == 0 then []
    else RowPairs(fs, a, j - 1) + (if a == fs[j - 1] then [] else [[a, fs[j - 1]]])
  }

  /** The pairs SpawnPieces looks at whose first slot is one of the first `i`
      free slots of `fs`, row by row. */
  function PairsBefore(fs: seq<Position>, i: int): seq<seq<Position>>
    requires 0 <= i <= |fs|
    decreases i
  {
    if i == 0 then [] else PairsBefore(fs, i - 1) + RowPairs(fs, fs[i - 1], |fs|)
  }

  /** Every placement SpawnPieces scores, in the order it scores them. */
  function SpawnCandidates(s: MatchState): seq<seq<Position>> {
    if s.unplacedPieces == 2 then PairsBefore(s.freeSlots, |s.freeSlots|)
    else SinglesBefore(s.freeSlots, |s.freeSlots|)
  }

  lemma {:induction false} SinglesBeforeMember(fs: seq<Position>, j: int, c: seq<Position>)
    requires 0 <= j <= |fs|
    ensures c in SinglesBefore(fs, j) <==> |c| == 1 && c[0] in fs[..j]
    decreases j
  {
    if j > 0 {
      SinglesBeforeMember(fs, j - 1, c);
      assert fs[..j] == fs[..j - 1] + [fs[j - 1]];
      if |c| == 1 && c[0] == fs[j - 1] {
        assert c == [fs[j - 1]];
      }
    }
  }

  lemma {:induction false} RowPairsMember(fs: seq<Position>, a: Position, j: int, c: seq<Position>)
    requires 0 <= j <= |fs|
    ensures c in RowPairs(fs, a, j) <==> |c| == 2 && c[0] == a && c[1] in fs[..j] && c[1] != a
    decreases j
  {
    if j > 0 {
      RowPairsMember(fs, a, j - 1, c);
      assert fs[..j] == fs[..j - 1] + [fs[j - 1]];
      if |c| == 2 && c[0] == a && c[1] == fs[j - 1] {
        assert c == [a, fs[j - 1]];
      }
    }
  }

  lemma {:induction false} PairsBeforeMember(fs: seq<Position>, i: int, c: seq<Position>)
    requires 0 <= i <= |fs|
    ensures c in PairsBefore(fs, i) <==> |c| == 2 && c[0] in fs[..i] && c[1] in fs && c[0] != c[1]
    decreases i
  {
    if i > 0 {
      PairsBeforeMember(fs, i - 1, c);
      RowPairsMember(fs, fs[i - 1], |fs|, c);
      assert fs[..i] == fs[..i - 1] + [fs[i - 1]];
      assert fs[..|fs|] == fs;
    }
  }

  /** SpawnPieces scores exactly the placements that can be considered. */
  lemma SpawnCandidatesAreChoices(s: MatchState)
    ensures forall c :: c in SpawnCandidates(s) <==> IsSpawnChoice(s, c)
    ensures HasSpawnChoice(s) ==> |SpawnCandidates(s)| > 0
  {
    var fs := s.freeSlots;
    assert fs[..|fs|] == fs;
    forall c
      ensures c in SpawnCandidates(s) <==> IsSpawnChoice(s, c)
    {
      if s.unplacedPieces == 2 {
        PairsBeforeMember(fs, |fs|, c);
      } else {
        SinglesBeforeMember(fs, |fs|, c);
      }
    }
    if HasSpawnChoice(s) {
      if s.unplacedPieces == 2 {
        var i, j :| 0 <= i < j < |fs| && fs[i] != fs[j];
        assert IsSpawnChoice(s, [fs[i], fs[j]]);
      } else {
        assert IsSpawnChoice(s, [fs[0]]);
      }
    }
  }

  /** What SpawnPieces keeps while it scores the candidates `cands`, whose
      scores are `scores`: `bestScore` is at least each of them, and
      `bestSets` lists, through the indices `bestAt`, candidates that reach
      it, at least one as soon as some candidate was scored. */
  ghost predicate KeptBest(s: MatchState, cands: seq<seq<Position>>, scores: seq<int>, bestAt: seq<int>,
                           bestScore: int, bestSets: seq<seq<Position>>, noise: MatchState -> Draw)
    requires ValidTurn(s)
  {
    |cands| == |scores| && (|cands| == 0 ==> bestScore == IntMin) &&
    (forall j :: 0 <= j < |cands| ==> scores[j] == SpawnScore(s, cands[j], noise)) &&
    (forall j :: 0 <= j < |cands| ==> IntMin <= scores[j] <= bestScore) &&
    |bestAt| == |bestSets| && (|cands| > 0 ==> |bestSets| > 0) &&
    (forall k :: 0 <= k < |bestAt| ==>
      0 <= bestAt[k] < |cands| && bestSets[k] == cands[bestAt[k]] && scores[bestAt[k]] == bestScore)
  }

  /** Once every candidate is scored, some placement is kept when one can be
      considered. */
  lemma KeptSomething(s: MatchState, scores: seq<int>, bestAt: seq<int>, bestScore: int,
                      bestSets: seq<seq<Position>>, noise: MatchState -> Draw)
    requires ValidTurn(s) && KeptBest(s, SpawnCandidates(s), scores, bestAt, bestScore, bestSets, noise)
    requires HasSpawnChoice(s)
    ensures |bestSets| > 0
  {
    SpawnCandidatesAreChoices(s);
  }

  /** Once every candidate is scored, each kept placement can be considered
      and no placement that can be considered scores more. */
  lemma KeptIsBest(s: MatchState, scores: seq<int>, bestAt: seq<int>, bestScore: int,
                   bestSets: seq<seq<Position>>, noise: MatchState -> Draw, k: int)
    requires ValidTurn(s) && KeptBest(s, SpawnCandidates(s), scores, bestAt, bestScore, bestSets, noise)
    requires 0 <= k < |bestSets|
    ensures IsSpawnChoice(s, bestSets[k])
    ensures forall other :: IsSpawnChoice(s, other) ==> SpawnScore(s, other, noise) <= SpawnScore(s, bestSets[k], noise)
  {
    var cands := SpawnCandidates(s);
    SpawnCandidatesAreChoices(s);
    assert bestSets[k] in cands;
    forall other | IsSpawnChoice(s, other)
      ensures SpawnScore(s, other, noise) <= SpawnScore(s, bestSets[k], noise)
    {
      var j :| 0 <= j < |cands| && cands[j] == other;
    }
  }

  /** The score of a move sequence is never below minus infinity. */
  lemma SequenceScoreAboveMinimum(s: MatchState, q: seq<Move>, noise: MatchState -> Draw)
    requires ValidTurn(s)
    ensures SequenceScore(s, q, noise) >= IntMin
  {
    ChildValueIsSearch(s, q, false, IntMin, IntMax, 2, noise);
    SearchIsMinimax(Child(s, q), false, 2, noise);
    BonusRange(Child(s, q), 2);
  }

  /** The score of a placement is never below minus infinity. */
  lemma {:induction false} SpawnScoreAboveMinimum(s: MatchState, slots: seq<Position>, noise: MatchState -> Draw)
    requires ValidTurn(s)
    ensures SpawnScore(s, slots, noise) >= IntMin
    decreases |slots|
  {
    if |slots| == 0 {
      SearchIsMinimax(s, false, 2, noise);
      BonusRange(s, 2);
    } else {
      SpawnPieceKeepsTurnValid(s, slots[0]);
      SpawnScoreAboveMinimum(AfterSpawnPiece(s, slots[0]), slots[1..], noise);
    }
  }

  // ---------------------------------------------------------------------------
  // The player

  class AI {
    /** The match the computer plays in. */
    const game: Match

    constructor(game: Match)
      ensures this.game == game
    {
      this.game := game;
    }

    /** Clears the forced jumps, generates every sequence the player to move can
        play and picks one of those with the best score. */
    method Play(noise: MatchState -> Draw) returns (chosen: MoveSequence)
      requires game.Valid() && ValidTurn(game.View())
      requires |AllSequences(game.View().(forcedJumps := []))| > 0
      modifies game
      ensures game.Valid() && game.View() == old(game.View()).(forcedJumps := [])
      ensures chosen.moves in AllSequences(game.View())
      ensures forall q :: q in AllSequences(game.View()) ==>
        SequenceScore(game.View(), q, noise) <= SequenceScore(game.View(), chosen.moves, noise)
    {
      game.forcedJumps := [];
      var allSequences := GenerateAllSequences(game);
      chosen := FindBestSequence(allSequences, noise);
      ghost var qs := MovesOf(allSequences);
      assert forall k :: 0 <= k < |allSequences| ==> qs[k] == allSequences[k].moves;
    }

    /** Scores every placement of the owed pieces on a copy of the match and
        picks, at random, one of those with the best score: for two owed
        pieces every ordered pair of different free slots, otherwise every
        free slot. */
    method SpawnPieces(noise: MatchState -> Draw) returns (chosen: seq<Position>)
      requires game.Valid() && ValidTurn(game.View()) && HasSpawnChoice(game.View())
      ensures IsSpawnChoice(game.View(), chosen)
      ensures forall other :: IsSpawnChoice(game.View(), other) ==>
        SpawnScore(game.View(), other, noise) <= SpawnScore(game.View(), chosen, noise)
    {
      ghost var s := game.View();
      var bestScore, bestPositionSets;
      ghost var scores, bestAt;
      if game.unplacedPieces == 2 {
        bestScore, bestPositionSets, scores, bestAt := ScorePairs(noise);
      } else {
        bestScore, bestPositionSets, scores, bestAt := ScoreSingles(noise);
      }
      KeptSomething(s, scores, bestAt, bestScore, bestPositionSets, noise);
      var k :| 0 <= k < |bestPositionSets|;
      chosen := bestPositionSets[k];
      KeptIsBest(s, scores, bestAt, bestScore, bestPositionSets, noise, k);
    }

    /** The first branch of SpawnPieces, for two owed pieces: every ordered
        pair of different free slots is scored. */
    method ScorePairs(noise: MatchState -> Draw)
      returns (bestScore: int, bestPositionSets: seq<seq<Position>>, ghost scores: seq<int>, ghost bestAt: seq<int>)
      requires game.Valid() && ValidTurn(game.View())
      ensures KeptBest(game.View(), PairsBefore(game.freeSlots, |game.freeSlots|), scores, bestAt, bestScore, bestPositionSets, noise)
    {
      var freeSlots := game.freeSlots;
      bestPositionSets := [];
      bestScore := IntMin;
      scores := [];
      bestAt := [];
      for i := 0 to |freeSlots|
        invariant KeptBest(game.View(), PairsBefore(freeSlots, i), scores, bestAt, bestScore, bestPositionSets, noise)
      {
        bestScore, bestPositionSets, scores, bestAt := ScoreRow(freeSlots, i, noise, bestScore, bestPositionSets, scores, bestAt);
      }
    }

    /** The inner loop of ScorePairs: every free slot different from the i-th
        is paired after it and the pair considered. */
    method ScoreRow(freeSlots: seq<Position>, i: int, noise: MatchState -> Draw,
                    bestScore: int, bestPositionSets: seq<seq<Position>>, ghost scores: seq<int>, ghost bestAt: seq<int>)
      returns (bestScore': int, bestPositionSets': seq<seq<Position>>, ghost scores': seq<int>, ghost bestAt': seq<int>)
      requires game.Valid() && ValidTurn(game.View()) && 0 <= i < |freeSlots|
      requires KeptBest(game.View(), PairsBefore(freeSlots, i), scores, bestAt, bestScore, bestPositionSets, noise)
      ensures KeptBest(game.View(), PairsBefore(freeSlots, i + 1), scores', bestAt', bestScore', bestPositionSets', noise)
    {
      bestScore', bestPositionSets', scores', bestAt' := bestScore, bestPositionSets, scores, bestAt;
      ghost var cands := PairsBefore(freeSlots, i);
      for j := 0 to |freeSlots|
        invariant cands == PairsBefore(freeSlots, i) + RowPairs(freeSlots, freeSlots[i], j)
        invariant KeptBest(game.View(), cands, scores', bestAt', bestScore', bestPositionSets', noise)
      {
        if freeSlots[i] == freeSlots[j] {
          continue;
        }
        var positionSet := [freeSlots[i], freeSlots[j]];
        bestScore', bestPositionSets', scores', bestAt' :=
          ConsiderPlacement(positionSet, noise, bestScore', bestPositionSets', cands, scores', bestAt');
        cands := cands + [positionSet];
      }
    }

    /** The second branch of SpawnPieces, for one owed piece: every free slot
        is scored. */
    method ScoreSingles(noise: MatchState -> Draw)
      returns (bestScore: int, bestPositionSets: seq<seq<Position>>, ghost scores: seq<int>, ghost bestAt: seq<int>)
      requires game.Valid() && ValidTurn(game.View())
      ensures KeptBest(game.View(), SinglesBefore(game.freeSlots, |game.freeSlots|), scores, bestAt, bestScore, bestPositionSets, noise)
    {
      ghost var s := game.View();
      var freeSlots := game.freeSlots;
      bestPositionSets := [];
      bestScore := IntMin;
      ghost var cands: seq<seq<Position>> := [];
      scores := [];
      bestAt := [];
      for i := 0 to |freeSlots|
        invariant cands == SinglesBefore(freeSlots, i)
        invariant KeptBest(s, cands, scores, bestAt, bestScore, bestPositionSets, noise)
      {
        var positionSet := [freeSlots[i]];
        bestScore, bestPositionSets, scores, bestAt :=
          ConsiderPlacement(positionSet, noise, bestScore, bestPositionSets, cands, scores, bestAt);
        cands := cands + [positionSet];
      }
    }

    /** The body of the loops of SpawnPieces: the placement is scored, skipped
        when below the best score, and otherwise added to the best placements,
        which are dropped first when it beats them. */
    method ConsiderPlacement(positionSet: seq<Position>, noise: MatchState -> Draw,
                             bestScore: int, bestPositionSets: seq<seq<Position>>,
                             ghost cands: seq<seq<Position>>, ghost scores: seq<int>, ghost bestAt: seq<int>)
      returns (bestScore': int, bestPositionSets': seq<seq<Position>>, ghost scores': seq<int>, ghost bestAt': seq<int>)
      requires game.Valid() && ValidTurn(game.View()) && 1 <= |positionSet| <= 2
      requires KeptBest(game.View(), cands, scores, bestAt, bestScore, bestPositionSets, noise)
      ensures KeptBest(game.View(), cands + [positionSet], scores', bestAt', bestScore', bestPositionSets', noise)
    {
      var newScore := ScorePlacement(positionSet, noise);
      scores' := scores + [newScore];
      bestScore', bestPositionSets', bestAt' := bestScore, bestPositionSets, bestAt;
      if newScore < bestScore {
        return;
      }
      if newScore > bestScore {
        bestScore' := newScore;
        bestPositionSets' := [];
        bestAt' := [];
      }
      bestPositionSets' := bestPositionSets' + [positionSet];
      bestAt' := bestAt' + [|cands|];
    }

    /** The body of the loops of SpawnPieces: the pieces are placed on a copy
        of the match, which is searched two levels deep from the side of
        player 1, plus the bonus of player 2. */
    method ScorePlacement(positionSet: seq<Position>, noise: MatchState -> Draw) returns (newScore: int)
      requires game.Valid() && ValidTurn(game.View()) && 1 <= |positionSet| <= 2
      ensures newScore == SpawnScore(game.View(), positionSet, noise) && newScore >= IntMin
    {
      ghost var s := game.View();
      var dummyMatch := game.Clone();
      dummyMatch.SpawnPiece(positionSet[0]);
      ghost var rest := positionSet[1..];
      if |positionSet| == 2 {
        SpawnPieceKeepsTurnValid(s, positionSet[0]);
        ghost var s1 := dummyMatch.View();
        dummyMatch.SpawnPiece(positionSet[1]);
        SpawnPieceKeepsTurnValid(s1, positionSet[1]);
        assert rest[0] == positionSet[1] && rest[1..] == [];
        assert SpawnScore(s1, rest, noise) == SpawnScore(dummyMatch.View(), [], noise);
      } else {
        assert rest == [];
      }
      var searched := Minimax(dummyMatch, false, IntMin, IntMax, 2, noise);
      var bonus := BonusEvaluation(dummyMatch, 2);
      newScore := searched + bonus;
      SpawnScoreAboveMinimum(s, positionSet, noise);
    }

    /** Scores each sequence on a copy of the match and picks, at random, one of
        those with the best score. */
    method FindBestSequence(availableSequences: seq<MoveSequence>, noise: MatchState -> Draw)
      returns (chosen: MoveSequence)
      requires game.Valid() && ValidTurn(game.View()) && |availableSequences| > 0
      ensures chosen in availableSequences
      ensures forall o :: o in availableSequences ==>
        SequenceScore(game.View(), o.moves, noise) <= SequenceScore(game.View(), chosen.moves, noise)
    {
      ghost var s := game.View();
      var bestScore := IntMin;
      var bestSequences := [availableSequences[0]];
      ghost var qs: seq<seq<Move>> := [];
      ghost var scores: seq<int> := [];
      ghost var bestAt: seq<int> := [0];
      for i := 0 to |availableSequences|
        invariant |qs| == i == |scores|
        invariant forall j :: 0 <= j < i ==> qs[j] == availableSequences[j].moves
        invariant forall j :: 0 <= j < i ==> scores[j] == SequenceScore(s, qs[j], noise)
        invariant |bestAt| == |bestSequences| > 0
        invariant forall k :: 0 <= k < |bestAt| ==>
          0 <= bestAt[k] < |availableSequences| && bestSequences[k] == availableSequences[bestAt[k]]
        invariant i == 0 ==> bestAt == [0] && bestScore == IntMin
        invariant i > 0 ==> forall k :: 0 <= k < |bestAt| ==> bestAt[k] < i && scores[bestAt[k]] == bestScore
        invariant forall j :: 0 <= j < i ==> scores[j] <= bestScore
      {
        var moveSequence := availableSequences[i];
        var newScore := ScoreSequence(moveSequence.moves, noise);
        qs := qs + [moveSequence.moves];
        scores := scores + [newScore];
        if newScore == bestScore {
          bestSequences := bestSequences + [moveSequence];
          bestAt := bestAt + [i];
        }
        if newScore > bestScore {
          bestScore := newScore;
          bestSequences := [moveSequence];
          bestAt := [i];
        }
      }
      var k :| 0 <= k < |bestSequences|;
      chosen := bestSequences[k];
    }

    /** The body of the loop of FindBestSequence: the sequence is played on a
        copy of the match, the turn handed over, and the copy searched two
        levels deep from the side of player 1, plus the bonus of player 2. */
    method ScoreSequence(moves: seq<Move>, noise: MatchState -> Draw) returns (newScore: int)
      requires game.Valid() && ValidTurn(game.View())
      ensures newScore == SequenceScore(game.View(), moves, noise) && newScore >= IntMin
    {
      var dummyMatch := game.Clone();
      dummyMatch.board.ApplyMoveSequence(moves);
      dummyMatch.ChangeTurn();
      var searched := Minimax(dummyMatch, false, IntMin, IntMax, 2, noise);
      var bonus := BonusEvaluation(dummyMatch, 2);
      newScore := searched + bonus;
      ChildValueIsSearch(game.View(), moves, false, IntMin, IntMax, 2, noise);
      SequenceScoreAboveMinimum(game.View(), moves, noise);
    }

    /** The minimax search with alpha-beta pruning, run on copies of `node`:
        each child is a clone on which the sequence is played and the turn handed over. */
    method Minimax(node: Match, maximizing: bool, alpha: int, beta: int, depth: int, noise: MatchState -> Draw)
      returns (score: int)
      requires node.Valid() && ValidTurn(node.View()) && depth >= 1
      ensures score == Search(node.View(), maximizing, alpha, beta, depth, noise)
      decreases depth, 2
    {
      ghost var s := node.View();
      var over := node.IsGameOver();
      if over {
        score := if maximizing then IntMax else IntMin;
        assert score == Search(s, maximizing, alpha, beta, depth, noise);
        return;
      }
      if depth == 1 {
        score := EvaluateLeaf(node, maximizing, alpha, beta, noise);
        return;
      }
      var nextSequences := GenerateAllSequences(node);
      assert node.View() == s && MovesOf(nextSequences) == AllSequences(s);
      score := SearchSequences(node, nextSequences, maximizing, alpha, beta, depth - 1, noise);
    }

    /** The leaf case of Minimax: the score of a live state for player 2,
        with the draw of the easy level taken from `noise`. */
    method EvaluateLeaf(node: Match, maximizing: bool, alpha: int, beta: int, noise: MatchState -> Draw)
      returns (score: int)
      requires node.Valid() && ValidTurn(node.View()) && !GameOver(node.View())
      ensures score == Search(node.View(), maximizing, alpha, beta, 1, noise)
    {
      var state := node.Snapshot();
      score := EvaluateState(node, 2, noise(state));
    }

    /** The loop of Minimax over the sequences of the player to move, each
        searched `depth` levels deep, from the starting score on. */
    method SearchSequences(node: Match, nextSequences: seq<MoveSequence>, maximizing: bool, alpha: int, beta: int,
                           depth: int, noise: MatchState -> Draw) returns (score: int)
      requires node.Valid() && ValidTurn(node.View()) && depth >= 1
      ensures score == SearchFrom(node.View(), MovesOf(nextSequences), 0, maximizing, alpha, beta, Worst(maximizing), depth, noise)
      decreases depth + 1, 1
    {
      ghost var s := node.View();
      ghost var qs := MovesOf(nextSequences);
      score := if maximizing then IntMin else IntMax;
      var a := alpha;
      var b := beta;
      for i := 0 to |nextSequences|
        invariant forall k :: 0 <= k < |qs| ==> qs[k] == nextSequences[k].moves
        invariant SearchFrom(s, qs, 0, maximizing, alpha, beta, Worst(maximizing), depth, noise) ==
          SearchFrom(s, qs, i, maximizing, a, b, score, depth, noise)
      {
        var newScore := SearchChild(node, nextSequences[i].moves, !maximizing, a, b, depth, noise);
        assert node.View() == s && newScore == ChildValue(s, qs[i], !maximizing, a, b, depth, noise);
        if maximizing {
          score := Max(score, newScore);
          a := Max(a, newScore);
        } else {
          score := Min(score, newScore);
          b := Min(b, newScore);
        }
        if b <= a {
          break;
        }
      }
    }

    /** One pass of the loop of Minimax: the sequence is played on a copy of
        `node`, the turn handed over, and the copy searched one level deeper. */
    method SearchChild(node: Match, moves: seq<Move>, maximizing: bool, alpha: int, beta: int, depth: int,
                       noise: MatchState -> Draw) returns (newScore: int)
      requires node.Valid() && ValidTurn(node.View()) && depth >= 1
      ensures newScore == ChildValue(node.View(), moves, maximizing, alpha, beta, depth, noise)
      decreases depth, 3
    {
      var dummyMatch := node.Clone();
      dummyMatch.board.ApplyMoveSequence(moves);
      dummyMatch.ChangeTurn();
      newScore := Minimax(dummyMatch, maximizing, alpha, beta, depth, noise);
    }
  }
}
