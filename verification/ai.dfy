/** The computer's move selector: exhaustive minimax with depth-adjusted
    scores, behind a random "difficulty" branch. */
module AI {
  import opened Wrappers
  import opened GameTypes
  import opened GameConstants
  import opened BoardEngine
  import opened Randomness

  datatype AIPlayer = AIPlayer(difficulty: real)

  /** The scene builds its selector with difficulty 1. */
  const DefaultDifficulty: real := 1.0

  function SetDifficulty(ai: AIPlayer, difficulty: real): (r: AIPlayer)
    ensures r.difficulty == difficulty
  {
    ai.(difficulty := difficulty)
  }

  /** The loop of checkWinnerForBoard over `pats`: the mark of the first
      completed pattern, or `Empty` when none is completed. */
  function FirstWinnerIn(b: Board, pats: seq<Line>): PlayerType
    decreases |pats|
  {
    if |pats| == 0 then Empty
    else if Complete(b, pats[0]) then b[pats[0].a]
    else FirstWinnerIn(b, pats[1..])
  }

  /** The loop stops at the first pattern the board engine's filter keeps. */
  lemma {:induction false} FirstWinnerInIsFirstCompleted(b: Board, pats: seq<Line>)
    ensures var found := CompletedIn(b, pats);
            FirstWinnerIn(b, pats) == (if |found| == 0 then Empty else b[found[0].a])
    decreases |pats|
  {
    if |pats| > 0 && !Complete(b, pats[0]) {
      FirstWinnerInIsFirstCompleted(b, pats[1..]);
    }
  }

  /** checkWinnerForBoard(board). */
  function CheckWinnerForBoard(b: Board): PlayerType {
    FirstWinnerIn(b, WinPatterns)
  }

  /** The selector's scan and the board's scan see the same lines: the
      selector reports the mark of the first line the board reports. */
  lemma FirstWinnerIsFirstLine(b: Board)
    ensures var lines := CheckWinner(b).lines;
            CheckWinnerForBoard(b) == (if |lines| == 0 then Empty else b[lines[0].a])
  {
    FirstWinnerInIsFirstCompleted(b, WinPatterns);
    CheckWinnerInTableOrder(b);
  }

  /** The selector reports `Empty` exactly when no pattern is completed, and
      otherwise the mark of a completed pattern. */
  lemma CheckWinnerForBoardSpec(b: Board)
    ensures CheckWinnerForBoard(b) == Empty <==>
              forall p :: p in WinPatterns ==> !Complete(b, p)
    ensures CheckWinnerForBoard(b) != Empty ==>
              exists p :: p in WinPatterns && Complete(b, p) && CheckWinnerForBoard(b) == b[p.a]
  {
    FirstWinnerIsFirstLine(b);
    var lines := CheckWinner(b).lines;
    if |lines| > 0 {
      assert lines[0] in lines;
    }
  }

  /** On a board without a completed line, a move can only complete lines
      of the mover's mark. */
  lemma OnlyMoverCompletes(b: Board, m: Index, p: PlayerType)
    requires CheckWinnerForBoard(b) == Empty && b[m] == Empty && p != Empty
    ensures CheckWinnerForBoard(b[m := p]) == Empty || CheckWinnerForBoard(b[m := p]) == p
  {
    var b' := b[m := p];
    var w := CheckWinnerForBoard(b');
    CheckWinnerForBoardSpec(b);
    CheckWinnerForBoardSpec(b');
    if w != Empty {
      var l :| l in WinPatterns && Complete(b', l) && w == b'[l.a];
      assert !Complete(b, l);
      assert m == l.a || m == l.b || m == l.c;
    }
  }

  /** The mark that moves next. */
  function Other(p: PlayerType): PlayerType {
    if p == Ai then Human else Ai
  }

  /** `m` beats `best` under the strict comparison of the reduce step. */
  predicate Improves(m: MinimaxResult, best: MinimaxResult, maximize: bool) {
    if maximize then m.score > best.score else m.score < best.score
  }

  /** The left fold of `reduce`: a later element replaces the running best
      only when strictly better. */
  function ReduceFrom(best: MinimaxResult, rest: seq<MinimaxResult>, maximize: bool): (r: MinimaxResult)
    ensures r == best || r in rest
    ensures !Improves(best, r, maximize)
    ensures forall j :: 0 <= j < |rest| ==> !Improves(rest[j], r, maximize)
    decreases |rest|
  {
    if |rest| == 0 then best
    else ReduceFrom(if Improves(rest[0], best, maximize) then rest[0] else best, rest[1..], maximize)
  }

  /** `reduce` with the strict comparison: one of the candidates, and none
      of them beats it. */
  function Reduce(ms: seq<MinimaxResult>, maximize: bool): (r: MinimaxResult)
    requires |ms| > 0
    ensures r in ms
    ensures forall j :: 0 <= j < |ms| ==> !Improves(ms[j], r, maximize)
  {
    ReduceFrom(ms[0], ms[1..], maximize)
  }

  /** `ms[k]` is best (maximal or minimal score) and no earlier element
      has the same score. */
  ghost predicate IsFirstBest(ms: seq<MinimaxResult>, k: nat, maximize: bool) {
    && k < |ms|
    && (forall j :: 0 <= j < |ms| ==> !Improves(ms[j], ms[k], maximize))
    && (forall j :: 0 <= j < k ==> ms[j].score != ms[k].score)
  }

  lemma {:induction false} ReduceFromFirstBest(ms: seq<MinimaxResult>, maximize: bool, b: nat, i: nat)
    requires b < i <= |ms|
    requires IsFirstBest(ms[..i], b, maximize)
    ensures exists k: nat :: IsFirstBest(ms, k, maximize) && ReduceFrom(ms[b], ms[i..], maximize) == ms[k]
    decreases |ms| - i
  {
    if i == |ms| {
      assert ms[..i] == ms;
      assert ms[i..] == [];
    } else {
      var b' := if Improves(ms[i], ms[b], maximize) then i else b;
      assert ms[i..][1..] == ms[i + 1..];
      assert IsFirstBest(ms[..i + 1], b', maximize);
      ReduceFromFirstBest(ms, maximize, b', i + 1);
    }
  }

  /** The reduce keeps the first element with the best score. */
  lemma ReduceFirstBest(ms: seq<MinimaxResult>, maximize: bool)
    requires |ms| > 0
    ensures exists k: nat :: IsFirstBest(ms, k, maximize) && Reduce(ms, maximize) == ms[k]
  {
    ReduceFromFirstBest(ms, maximize, 0, 1);
  }

  /** Number of empty cells: the measure that the search's recursion
      decreases. */
  function EmptyCount(b: Board): nat {
    multiset(b)[Empty]
  }

  /** The score minimax gives the board after `player` takes cell `m`. */
  function ChildScore(b: Board, player: PlayerType, depth: int, m: Index): int
    requires player != Empty && b[m] == Empty
    decreases EmptyCount(b), 0, 0
  {
    Minimax(b[m := player], Other(player), depth + 1).score
  }

  /** The loop over the available moves from cell `i` on: one scored result
      per empty cell, in ascending cell order (the order in which the
      selector's own list of available moves holds them). */
  function ChildrenFrom(b: Board, player: PlayerType, depth: int, i: nat): (r: seq<MinimaxResult>)
    requires player != Empty && i <= 9
    ensures (exists j :: i <= j < 9 && b[j] == Empty) ==> |r| > 0
    ensures forall c :: c in r ==> c.index.Some? && i <= c.index.value < 9 && b[c.index.value] == Empty
    decreases EmptyCount(b), 1, 9 - i
  {
    if i == 9 then []
    else if b[i] == Empty then
      [MinimaxResult(ChildScore(b, player, depth, i), Some(i))] + ChildrenFrom(b, player, depth, i + 1)
    else ChildrenFrom(b, player, depth, i + 1)
  }

  /** Entry `k` of the children is tagged with the `k`-th available move. */
  lemma {:induction false} ChildrenIndices(b: Board, player: PlayerType, depth: int, i: nat)
    requires player != Empty && i <= 9
    ensures var moves := AvailableFrom(b, i);
      && |ChildrenFrom(b, player, depth, i)| == |moves|
      && forall k :: 0 <= k < |moves| ==> ChildrenFrom(b, player, depth, i)[k].index == Some(moves[k])
    decreases 9 - i
  {
    if i < 9 {
      ChildrenIndices(b, player, depth, i + 1);
      var moves := AvailableFrom(b, i);
      var rest := AvailableFrom(b, i + 1);
      var cs := ChildrenFrom(b, player, depth, i);
      var cr := ChildrenFrom(b, player, depth, i + 1);
      if b[i] == Empty {
        assert moves == [i] + rest;
        assert cs[1..] == cr;
        assert cs[0].index == Some(i);
        forall k | 1 <= k < |moves|
          ensures cs[k].index == Some(moves[k])
        {
          assert moves[k] == rest[k - 1];
          assert cs[k] == cr[k - 1];
        }
      } else {
        assert moves == rest;
        assert cs == cr;
      }
    }
  }

  /** Each child carries the score of the cell it is tagged with. */
  lemma {:induction false} ChildrenScores(b: Board, player: PlayerType, depth: int, i: nat)
    requires player != Empty && i <= 9
    ensures forall c :: c in ChildrenFrom(b, player, depth, i) ==>
      && c.index.Some? && i <= c.index.value && b[c.index.value] == Empty
      && c.score == ChildScore(b, player, depth, c.index.value)
    decreases 9 - i
  {
    if i < 9 {
      ChildrenScores(b, player, depth, i + 1);
    }
  }

  /** minimax(board, player, depth). A board with a line scores for the
      first line's mark, a full board scores 0, and otherwise every empty
      cell is tried and the best child kept. */
  function Minimax(b: Board, player: PlayerType, depth: int): (r: MinimaxResult)
    requires player != Empty
    ensures r.index.Some? <==> CheckWinnerForBoard(b) == Empty && Empty in b
    ensures r.index.Some? ==> IsValidMove(b, r.index.value)
    decreases EmptyCount(b), 2, 0
  {
    var winner := CheckWinnerForBoard(b);
    if winner == Human then MinimaxResult(-10 + depth, None)
    else if winner == Ai then MinimaxResult(10 - depth, None)
    else if Empty !in b then MinimaxResult(0, None)
    else
      Reduce(ChildrenFrom(b, player, depth, 0), player == Ai)
  }

  /** A board with a completed pattern scores for the mark of the first line
      the board engine reports: 10 - depth for the computer, -(10 - depth)
      for the human, with no cell. A full board without a line scores 0. */
  lemma MinimaxTerminal(b: Board, player: PlayerType, depth: int)
    requires player != Empty
    ensures var r := Minimax(b, player, depth);
            var lines := CheckWinner(b).lines;
      && (|lines| > 0 && b[lines[0].a] == Ai ==> r == MinimaxResult(10 - depth, None))
      && (|lines| > 0 && b[lines[0].a] == Human ==> r == MinimaxResult(-10 + depth, None))
      && (|lines| == 0 && IsFull(b) ==> r == MinimaxResult(0, None))
  {
    FirstWinnerIsFirstLine(b);
  }

  /** At an inner node the computer's layer takes the highest child score
      and the human's layer the lowest, and ties go to the lowest cell. */
  lemma MinimaxPicksFirstBest(b: Board, player: PlayerType, depth: int)
    requires player != Empty
    requires CheckWinnerForBoard(b) == Empty && !IsFull(b)
    ensures var r := Minimax(b, player, depth);
      && r.index.Some? && IsValidMove(b, r.index.value)
      && r.score == ChildScore(b, player, depth, r.index.value)
      && (forall m: Index :: IsValidMove(b, m) && player == Ai ==>
            ChildScore(b, player, depth, m) <= r.score)
      && (forall m: Index :: IsValidMove(b, m) && player != Ai ==>
            ChildScore(b, player, depth, m) >= r.score)
      && (forall m: Index :: IsValidMove(b, m) && m < r.index.value ==>
            ChildScore(b, player, depth, m) != r.score)
  {
    var moves := AvailableMoves(b);
    var children := ChildrenFrom(b, player, depth, 0);
    var r := Minimax(b, player, depth);
    assert b[0..] == b;
    assert r == Reduce(children, player == Ai);
    ChildrenIndices(b, player, depth, 0);
    ChildrenScores(b, player, depth, 0);
    ReduceFirstBest(children, player == Ai);
    var k: nat :| IsFirstBest(children, k, player == Ai) && r == children[k];
    assert r.index == Some(moves[k]);
    assert r.score == ChildScore(b, player, depth, moves[k]);
    forall m: Index | IsValidMove(b, m)
      ensures player == Ai ==> ChildScore(b, player, depth, m) <= r.score
      ensures player != Ai ==> ChildScore(b, player, depth, m) >= r.score
      ensures m < moves[k] ==> ChildScore(b, player, depth, m) != r.score
    {
      assert m in moves;
      var j :| 0 <= j < |moves| && moves[j] == m;
      assert !Improves(children[j], children[k], player == Ai);
      if m < moves[k] {
        assert j < k;
      }
    }
  }

  /** At an inner node the result is the score of the chosen child. */
  lemma MinimaxInnerScore(b: Board, player: PlayerType, depth: int)
    requires player != Empty
    ensures var r := Minimax(b, player, depth);
      CheckWinnerForBoard(b) == Empty && Empty in b ==>
        r.index.Some? && IsValidMove(b, r.index.value) &&
        r.score == ChildScore(b, player, depth, r.index.value)
  {
    if CheckWinnerForBoard(b) == Empty && Empty in b {
      MinimaxPicksFirstBest(b, player, depth);
    }
  }

  /** A board has at most nine empty cells. */
  lemma EmptyCountAtMostNine(b: Board)
    ensures EmptyCount(b) <= 9
  {
    assert multiset(b)[Empty] <= |multiset(b)|;
  }

  /** A mark placed on an empty cell leaves one empty cell fewer. */
  lemma PlaceCountsDown(b: Board, m: Index, p: PlayerType)
    requires b[m] == Empty && p != Empty
    ensures EmptyCount(b[m := p]) == EmptyCount(b) - 1
  {
    assert multiset(b[m := p]) == multiset(b) - multiset{Empty} + multiset{p};
  }

  /** Scores shrink towards zero with depth: a node at depth `d` scores
      within 10 - d. */
  lemma {:induction false} MinimaxScoreBound(b: Board, player: PlayerType, depth: int)
    requires player != Empty && 0 <= depth && depth + EmptyCount(b) <= 10
    ensures -(10 - depth) <= Minimax(b, player, depth).score <= 10 - depth
    decreases EmptyCount(b), 2
  {
    if CheckWinnerForBoard(b) == Empty && Empty in b {
      InnerScoreBound(b, player, depth);
    }
  }

  /** An inner node at depth `d` scores within 10 - (d + 1): its score is
      that of a child one level deeper. */
  lemma {:induction false} InnerScoreBound(b: Board, player: PlayerType, depth: int)
    requires player != Empty && 0 <= depth && depth + EmptyCount(b) <= 10
    requires CheckWinnerForBoard(b) == Empty && Empty in b
    ensures -(10 - depth - 1) <= Minimax(b, player, depth).score <= 10 - depth - 1
    decreases EmptyCount(b), 1
  {
    var r := Minimax(b, player, depth);
    MinimaxInnerScore(b, player, depth);
    var m := r.index.value;
    ChildScoreBound(b, player, depth, m);
  }

  /** A child of a node at depth `d` scores within 10 - (d + 1). */
  lemma ChildScoreBound(b: Board, player: PlayerType, depth: int, m: Index)
    requires player != Empty && 0 <= depth && depth + EmptyCount(b) <= 10 && b[m] == Empty
    ensures -(10 - depth - 1) <= ChildScore(b, player, depth, m) <= 10 - depth - 1
    decreases EmptyCount(b), 0
  {
    var child := b[m := player];
    PlaceCountsDown(b, m, player);
    MinimaxScoreBound(child, Other(player), depth + 1);
  }

  /** Cell `m` completes a line for the computer. */
  predicate WinsAt(b: Board, m: Index) {
    b[m] == Empty && CheckWinnerForBoard(b[m := Ai]) == Ai
  }

  /** With no line on the board, the computer's search picks the lowest
      cell that completes a line at once: only those children score 9. */
  lemma ImmediateWinChosen(b: Board, m: Index)
    requires CheckWinnerForBoard(b) == Empty
    requires WinsAt(b, m)
    requires forall m': Index :: m' < m ==> !WinsAt(b, m')
    ensures Minimax(b, Ai, 0).index == Some(m)
  {
    assert IsValidMove(b, m);
    MinimaxPicksFirstBest(b, Ai, 0);
    var r := Minimax(b, Ai, 0);
    var w := r.index.value;
    assert ChildScore(b, Ai, 0, m) == 9;
    forall m': Index | IsValidMove(b, m') && !WinsAt(b, m')
      ensures ChildScore(b, Ai, 0, m') <= 8
    {
      OnlyMoverCompletes(b, m', Ai);
      EmptyCountAtMostNine(b);
      if CheckWinnerForBoard(b[m' := Ai]) == Empty && Empty in b[m' := Ai] {
        InnerScoreBound(b[m' := Ai], Human, 1);
      }
    }
    assert WinsAt(b, w);
    assert r.score == 9;
    assert w >= m;
    assert w <= m;
  }

  /** getBestMove(board). `roll` and `pick` are the two Math.random() draws.
      When `roll` exceeds the difficulty an arbitrary available cell is
      taken (`None` models indexing an empty list); otherwise minimax from
      the computer's side, with 0 when it yields no index. */
  function GetBestMove(ai: AIPlayer, b: Board, roll: Draw, pick: Draw): (r: Option<Index>)
    ensures roll > ai.difficulty ==> (r.Some? <==> !IsFull(b))
    ensures roll > ai.difficulty && r.Some? ==> IsValidMove(b, r.value)
    ensures roll <= ai.difficulty && CheckWinnerForBoard(b) == Empty && !IsFull(b) ==>
              r == Minimax(b, Ai, 0).index && r.Some? && IsValidMove(b, r.value)
    ensures roll <= ai.difficulty && (CheckWinnerForBoard(b) != Empty || IsFull(b)) ==>
              r == Some(0)
  {
    if roll > ai.difficulty then
      var moves := AvailableMoves(b);
      if |moves| == 0 then None
      else
        var k := RandomIndex(pick, |moves|);
        assert moves[k] in moves;
        Some(moves[k])
    else
      var result := Minimax(b, Ai, 0);
      MinimaxInnerScore(b, Ai, 0);
      if result.index.Some? then result.index else Some(0)
  }

  /** At difficulty 1 or more the random branch is never taken, because a
      random number below 1 never exceeds it. */
  lemma FullDifficultyAlwaysSearches(ai: AIPlayer, b: Board, roll: Draw, pick: Draw)
    requires ai.difficulty >= DefaultDifficulty
    ensures var r := Minimax(b, Ai, 0);
            GetBestMove(ai, b, roll, pick) == (if r.index.Some? then r.index else Some(0))
  {
  }

  /** On the search path, a cell that completes a line for the computer at
      once is always taken, the lowest such cell first. */
  lemma BestMoveTakesImmediateWin(ai: AIPlayer, b: Board, roll: Draw, pick: Draw, m: Index)
    requires roll <= ai.difficulty
    requires CheckWinnerForBoard(b) == Empty
    requires WinsAt(b, m)
    requires forall m': Index :: m' < m ==> !WinsAt(b, m')
    ensures GetBestMove(ai, b, roll, pick) == Some(m)
  {
    ImmediateWinChosen(b, m);
  }
}
