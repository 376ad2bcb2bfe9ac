/** The scene's turn and combat orchestrator: a state machine over waiting
    for the player, the computer thinking and game over. Completed lines
    damage the loser and are cleared later, so play goes on on the same
    grid. The scene's delayed calls are pending timers fired in due order. */
module Scene {
  import opened Wrappers
  import opened GameTypes
  import opened GameConstants
  import opened BoardEngine
  import opened AI
  import opened Randomness

  /** Starting (and maximum) health of the player and of the enemy. */
  const PlayerMaxHealth: int := 12
  const EnemyMaxHealth: int := 3

  /** Delays of the scene's delayed calls, in milliseconds. */
  const AiMoveDelay: nat := 500
  const ClearDelay: nat := 800
  const EndCheckDelay: nat := 1000
  const TieResetDelay: nat := 1500

  /** What a pending delayed call will do when it fires. */
  datatype Event =
    | AiMoveDue
    | ClearLinesDue(lines: seq<Line>)
    | GameEndCheckDue
    | TieResetDue

  datatype Timer = Timer(due: nat, event: Event)

  /** The scene as written, or with the corrections of the findings: a
      completion blocks input until its end check, and a new game cancels
      the pending delayed calls. */
  datatype Variant = AsWritten | Corrected

  /** The logical state of the scene; `clock` is the time of the last
      event and `timers` the pending delayed calls in scheduling order. */
  datatype SceneState = SceneState(
    gameBoard: GameBoard,
    aiPlayer: AIPlayer,
    currentState: GameState,
    score: GameScore,
    playerCharacter: Character,
    enemyCharacter: Character,
    clock: nat,
    timers: seq<Timer>)

  /** The fresh characters of a new game. */
  const FreshPlayer := Character(PlayerMaxHealth, PlayerMaxHealth, 0)
  const FreshEnemy := Character(EnemyMaxHealth, EnemyMaxHealth, 0)

  /** The scene as create() leaves it. */
  function Create(): (st: SceneState)
    ensures forall k :: 0 <= k < 9 ==> st.gameBoard.board[k] == Empty
    ensures st.currentState == WaitingPlayer && st.timers == []
    ensures st.score == GameScore(0, 0, 0)
    ensures st.playerCharacter.health == st.playerCharacter.maxHealth == 12
    ensures st.enemyCharacter.health == st.enemyCharacter.maxHealth == 3
    ensures st.aiPlayer.difficulty == 1.0
  {
    SceneState(BoardEngine.Reset(), AIPlayer(DefaultDifficulty), WaitingPlayer,
               GameScore(0, 0, 0), FreshPlayer, FreshEnemy, 0, [])
  }

  /** time.delayedCall(delay, ...): a timer due `delay` after now. */
  function Schedule(st: SceneState, delay: nat, e: Event): (r: SceneState)
    ensures r.timers == st.timers + [Timer(st.clock + delay, e)]
    ensures r.(timers := st.timers) == st
  {
    st.(timers := st.timers + [Timer(st.clock + delay, e)])
  }

  // ---------------------------------------------------------------------
  // Handlers
  // ---------------------------------------------------------------------

  /** handleLineCompletion: the loser loses `|lines| * 3` health and the
      winner's damage counter grows by as much; the clear and the end check
      are scheduled. As written the state is left as it was. The corrected
      scene enters `WaitingEndTurn` until the end check: the card variant
      of the game declares that state, and here it means that a line
      completion awaits its end check, so clicks are ignored meanwhile. */
  function HandleLineCompletion(v: Variant, st: SceneState, winner: PlayerType, lines: seq<Line>)
    : (r: SceneState)
    ensures winner == Human ==>
              r.enemyCharacter.health == st.enemyCharacter.health - |lines| * DamagePerLine
              && r.playerCharacter.damage == st.playerCharacter.damage + |lines| * DamagePerLine
              && r.enemyCharacter.(health := st.enemyCharacter.health) == st.enemyCharacter
              && r.playerCharacter.(damage := st.playerCharacter.damage) == st.playerCharacter
    ensures winner != Human ==>
              r.playerCharacter.health == st.playerCharacter.health - |lines| * DamagePerLine
              && r.enemyCharacter.damage == st.enemyCharacter.damage + |lines| * DamagePerLine
              && r.playerCharacter.(health := st.playerCharacter.health) == st.playerCharacter
              && r.enemyCharacter.(damage := st.enemyCharacter.damage) == st.enemyCharacter
    ensures r.timers == st.timers + [Timer(st.clock + ClearDelay, ClearLinesDue(lines)),
                                     Timer(st.clock + EndCheckDelay, GameEndCheckDue)]
    ensures v == AsWritten ==> r.currentState == st.currentState
    ensures v == Corrected ==> r.currentState == WaitingEndTurn
    ensures r.gameBoard == st.gameBoard && r.score == st.score && r.clock == st.clock
    ensures r.aiPlayer == st.aiPlayer
  {
    var total := |lines| * DamagePerLine;
    var st1 :=
      if winner == Human then
        st.(enemyCharacter := st.enemyCharacter.(health := st.enemyCharacter.health - total),
            playerCharacter := st.playerCharacter.(damage := st.playerCharacter.damage + total))
      else
        st.(playerCharacter := st.playerCharacter.(health := st.playerCharacter.health - total),
            enemyCharacter := st.enemyCharacter.(damage := st.enemyCharacter.damage + total));
    var st2 := if v == Corrected then st1.(currentState := WaitingEndTurn) else st1;
    Schedule(Schedule(st2, ClearDelay, ClearLinesDue(lines)), EndCheckDelay, GameEndCheckDue)
  }

  /** handleTie: the board reset is scheduled; nothing else changes yet. */
  function HandleTie(st: SceneState): (r: SceneState)
    ensures r.timers == st.timers + [Timer(st.clock + TieResetDelay, TieResetDue)]
    ensures r.(timers := st.timers) == st
  {
    Schedule(st, TieResetDelay, TieResetDue)
  }

  /** makeMove: places the mark if the cell is free, then either handles
      the completed lines, or a tie on a full grid, or passes the turn. */
  function MakeMove(v: Variant, st: SceneState, index: int, player: PlayerType): (r: SceneState)
    ensures !IsValidMove(st.gameBoard.board, index) ==> r == st
    ensures IsValidMove(st.gameBoard.board, index) ==>
              r.gameBoard.board == st.gameBoard.board[index := player] && r.score == st.score
    ensures st.timers <= r.timers && r.clock == st.clock && r.aiPlayer == st.aiPlayer
  {
    var (g, ok) := BoardEngine.MakeMove(st.gameBoard, index, player);
    if !ok then st
    else
      var st1 := st.(gameBoard := g);
      var result := CheckWinner(g.board);
      if result.winner != Empty && |result.lines| > 0 then
        HandleLineCompletion(v, st1, result.winner, result.lines)
      else if IsFull(g.board) then
        HandleTie(st1)
      else if player == Human then
        Schedule(st1.(currentState := AiThinking), AiMoveDelay, AiMoveDue)
      else
        st1.(currentState := WaitingPlayer)
  }

  /** What follows a valid move: the completed lines are handled if there
      are any; else a full grid is a tie and its reset is scheduled; else
      the turn passes, the computer's move being scheduled after the
      player's. */
  lemma MakeMoveOutcome(v: Variant, st: SceneState, index: int, player: PlayerType)
    requires IsValidMove(st.gameBoard.board, index)
    ensures var r := MakeMove(v, st, index, player);
            var b := st.gameBoard.board[index := player];
            var result := CheckWinner(b);
            && (|result.lines| == 0 && !IsFull(b) && player == Human ==>
                  r.currentState == AiThinking
                  && r.timers == st.timers + [Timer(st.clock + AiMoveDelay, AiMoveDue)])
            && (|result.lines| == 0 && !IsFull(b) && player != Human ==>
                  r.currentState == WaitingPlayer && r.timers == st.timers)
            && (|result.lines| == 0 && IsFull(b) ==>
                  r.currentState == st.currentState
                  && r.timers == st.timers + [Timer(st.clock + TieResetDelay, TieResetDue)])
            && (|result.lines| > 0 ==>
                  r == HandleLineCompletion(v, st.(gameBoard := r.gameBoard),
                                            result.winner, result.lines))
  {
  }

  /** handlePlayerMove: a click counts only while waiting for the player
      and only on a free cell. */
  function HandlePlayerMove(v: Variant, st: SceneState, index: int): (r: SceneState)
    ensures st.currentState != WaitingPlayer || !IsValidMove(st.gameBoard.board, index) ==>
              r == st
    ensures st.currentState == WaitingPlayer && IsValidMove(st.gameBoard.board, index) ==>
              r.gameBoard.board == st.gameBoard.board[index := Human]
    ensures r.score == st.score
  {
    if st.currentState != WaitingPlayer || !IsValidMove(st.gameBoard.board, index) then st
    else MakeMove(v, st, index, Human)
  }

  /** handleAIMove: only while the computer is thinking; the move is the
      selector's choice (`roll` and `pick` feed its random branch). An
      undefined choice fails makeMove's validity check. */
  function HandleAiMove(v: Variant, st: SceneState, roll: Draw, pick: Draw): (r: SceneState)
    ensures st.currentState != AiThinking ==> r == st
    ensures r.score == st.score
    ensures var b := st.gameBoard.board;
            st.currentState == AiThinking && st.aiPlayer.difficulty >= DefaultDifficulty
            && CheckWinnerForBoard(b) == Empty && !IsFull(b) ==>
              var m := Minimax(b, Ai, 0).index;
              m.Some? && IsValidMove(b, m.value) && r.gameBoard.board == b[m.value := Ai]
    ensures st.timers <= r.timers && r.clock == st.clock && r.aiPlayer == st.aiPlayer
  {
    if st.currentState != AiThinking then st
    else
      match GetBestMove(st.aiPlayer, st.gameBoard.board, roll, pick)
      case None => st
      case Some(m) => MakeMove(v, st, m, Ai)
  }

  /** handleGameEnd: the game is over and exactly one win is counted: for
      the computer when the player's health is gone, else for the player. */
  function HandleGameEnd(st: SceneState): (r: SceneState)
    ensures r.currentState == GameOver
    ensures r.score.player + r.score.ai == st.score.player + st.score.ai + 1
    ensures r.score.ai >= st.score.ai && r.score.player >= st.score.player
    ensures r.score.ai > st.score.ai <==> st.playerCharacter.health <= 0
    ensures r.score.ties == st.score.ties
    ensures r.(currentState := st.currentState, score := st.score) == st
  {
    var score :=
      if st.playerCharacter.health <= 0 then st.score.(ai := st.score.ai + 1)
      else st.score.(player := st.score.player + 1);
    st.(currentState := GameOver, score := score)
  }

  /** The delayed end check of a completion: game over when either health
      is gone, otherwise the player's turn. */
  function GameEndCheck(st: SceneState): (r: SceneState)
    ensures st.playerCharacter.health <= 0 || st.enemyCharacter.health <= 0 ==>
              r == HandleGameEnd(st)
    ensures st.playerCharacter.health > 0 && st.enemyCharacter.health > 0 ==>
              r == st.(currentState := WaitingPlayer)
  {
    if st.playerCharacter.health <= 0 || st.enemyCharacter.health <= 0 then HandleGameEnd(st)
    else st.(currentState := WaitingPlayer)
  }

  /** resetBoardOnly: an empty grid and the player's turn; health, damage,
      score and pending timers are untouched. */
  function ResetBoardOnly(st: SceneState): (r: SceneState)
    ensures forall k :: 0 <= k < 9 ==> r.gameBoard.board[k] == Empty
    ensures r.gameBoard.completedLines == []
    ensures r.currentState == WaitingPlayer
    ensures r.(gameBoard := st.gameBoard, currentState := st.currentState) == st
  {
    st.(gameBoard := BoardEngine.Reset(), currentState := WaitingPlayer)
  }

  /** resetGame (the new-game button): the board is reset and both
      characters restored; the score is kept. As written the pending timers
      stay armed. */
  function ResetGame(v: Variant, st: SceneState): (r: SceneState)
    ensures forall k :: 0 <= k < 9 ==> r.gameBoard.board[k] == Empty
    ensures r.currentState == WaitingPlayer
    ensures r.playerCharacter == FreshPlayer && r.enemyCharacter == FreshEnemy
    ensures r.score == st.score && r.aiPlayer == st.aiPlayer && r.clock == st.clock
    ensures v == AsWritten ==> r.timers == st.timers
    ensures v == Corrected ==> r.timers == []
  {
    var st1 := ResetBoardOnly(st);
    st1.(playerCharacter := FreshPlayer, enemyCharacter := FreshEnemy,
         timers := if v == Corrected then [] else st1.timers)
  }

  /** setAIDifficulty: a new selector with the given difficulty. */
  function SetAiDifficulty(st: SceneState, difficulty: real): (r: SceneState)
    ensures r.aiPlayer.difficulty == difficulty
    ensures r.(aiPlayer := st.aiPlayer) == st
  {
    st.(aiPlayer := AIPlayer(difficulty))
  }

  /** getScore: a copy of the counters. */
  function GetScore(st: SceneState): GameScore {
    st.score
  }

  // ---------------------------------------------------------------------
  // Timers and inputs
  // ---------------------------------------------------------------------

  /** The timer that fires next: the earliest due, the first scheduled
      among equals. */
  function NextTimer(ts: seq<Timer>): (k: nat)
    requires |ts| > 0
    ensures k < |ts|
    ensures forall j :: 0 <= j < |ts| ==> ts[k].due <= ts[j].due
    ensures forall j :: 0 <= j < k ==> ts[j].due > ts[k].due
    decreases |ts|
  {
    if |ts| == 1 then 0
    else
      var k := NextTimer(ts[1..]) + 1;
      assert forall j :: 1 <= j < |ts| ==> ts[j] == ts[1..][j - 1];
      if ts[0].due <= ts[k].due then 0 else k
  }

  function RemoveAt(ts: seq<Timer>, k: nat): (r: seq<Timer>)
    requires k < |ts|
    ensures |r| == |ts| - 1
    ensures forall j :: 0 <= j < |r| ==> r[j] == (if j < k then ts[j] else ts[j + 1])
  {
    ts[..k] + ts[k + 1..]
  }

  /** The next timer fires: the clock moves to its due time, it leaves the
      pending list, and its callback runs. */
  function Fire(v: Variant, st: SceneState, roll: Draw, pick: Draw): (r: SceneState)
    requires |st.timers| > 0
    ensures forall j :: 0 <= j < |st.timers| ==> r.clock <= st.timers[j].due
    ensures exists j :: 0 <= j < |st.timers| && r.clock == st.timers[j].due
    ensures RemoveAt(st.timers, NextTimer(st.timers)) <= r.timers
    ensures r.aiPlayer == st.aiPlayer
    ensures var k := NextTimer(st.timers);
            r == Dispatch(v, st.(clock := st.timers[k].due, timers := RemoveAt(st.timers, k)),
                          st.timers[k].event, roll, pick)
  {
    var k := NextTimer(st.timers);
    var t := st.timers[k];
    var st1 := st.(clock := t.due, timers := RemoveAt(st.timers, k));
    Dispatch(v, st1, t.event, roll, pick)
  }

  /** The callback a timer runs when it comes due. No callback moves the
      clock or cancels a pending timer. A clear empties exactly the cells of
      its lines and changes nothing else; the end check ends the game, with
      one win counted, exactly when a health is gone, and otherwise only
      gives the player the turn; the tie reset empties the grid for the
      player's turn and keeps everything else; the computer's move is
      ignored unless it is thinking. */
  function Dispatch(v: Variant, st: SceneState, e: Event, roll: Draw, pick: Draw): (r: SceneState)
    ensures st.timers <= r.timers && r.clock == st.clock && r.aiPlayer == st.aiPlayer
    ensures e.ClearLinesDue? ==>
              r.currentState == st.currentState
              && forall j, k :: 0 <= j < |e.lines| && k in e.lines[j].Cells() ==>
                   r.gameBoard.board[k] == Empty
    ensures e.ClearLinesDue? ==>
              r.(gameBoard := st.gameBoard) == st
              && r.gameBoard.completedLines == st.gameBoard.completedLines + e.lines
              && forall k :: 0 <= k < 9 && k !in LineCells(e.lines) ==>
                   r.gameBoard.board[k] == st.gameBoard.board[k]
    ensures e == GameEndCheckDue ==>
              (r.currentState == GameOver <==>
                 st.playerCharacter.health <= 0 || st.enemyCharacter.health <= 0)
              && (r.currentState != GameOver ==> r.currentState == WaitingPlayer)
    ensures e == GameEndCheckDue ==>
              r.(currentState := st.currentState, score := st.score) == st
              && (r.currentState != GameOver ==> r.score == st.score)
              && (r.currentState == GameOver ==>
                    r.score.player + r.score.ai == st.score.player + st.score.ai + 1
                    && r.score.ties == st.score.ties
                    && (r.score.ai > st.score.ai <==> st.playerCharacter.health <= 0))
    ensures e == TieResetDue ==>
              r.currentState == WaitingPlayer
              && forall k :: 0 <= k < 9 ==> r.gameBoard.board[k] == Empty
    ensures e == TieResetDue ==>
              r.(gameBoard := st.gameBoard, currentState := st.currentState) == st
              && r.gameBoard.completedLines == []
    ensures e == AiMoveDue && st.currentState != AiThinking ==> r == st
  {
    match e
    case AiMoveDue => HandleAiMove(v, st, roll, pick)
    case ClearLinesDue(lines) => st.(gameBoard := ClearLines(st.gameBoard, lines))
    case GameEndCheckDue => GameEndCheck(st)
    case TieResetDue => ResetBoardOnly(st)
  }

  /** An input of the scene: a click on a cell or on the new-game button at
      a given time, or the firing of the next timer with the two random
      draws the computer's move may use. */
  datatype Action =
    | Click(index: int, at: nat)
    | NewGame(at: nat)
    | TimerFires(roll: Draw, pick: Draw)

  /** Nothing is due before `at`: an input at that time comes before every
      pending timer. */
  predicate QuietUntil(st: SceneState, at: nat) {
    st.clock <= at && forall k :: 0 <= k < |st.timers| ==> at < st.timers[k].due
  }

  predicate Enabled(st: SceneState, a: Action) {
    match a
    case Click(_, at) => QuietUntil(st, at)
    case NewGame(at) => QuietUntil(st, at)
    case TimerFires(_, _) => |st.timers| > 0
  }

  function Step(v: Variant, st: SceneState, a: Action): SceneState
    requires Enabled(st, a)
  {
    match a
    case Click(index, at) => HandlePlayerMove(v, st.(clock := at), index)
    case NewGame(at) => ResetGame(v, st.(clock := at))
    case TimerFires(roll, pick) => Fire(v, st, roll, pick)
  }

  /** A sequence of inputs; one that cannot happen at its point is dropped. */
  function Run(v: Variant, st: SceneState, actions: seq<Action>): SceneState
    decreases |actions|
  {
    if |actions| == 0 then st
    else
      var next := if Enabled(st, actions[0]) then Step(v, st, actions[0]) else st;
      Run(v, next, actions[1..])
  }

  // ---------------------------------------------------------------------
  // The combat ledger, kept by both variants
  // ---------------------------------------------------------------------

  /** Every point of health a character lost is a point of damage its
      opponent dealt, in whole lines; the tie counter is never incremented;
      no pending timer is overdue. As written the end-of-turn state is
      never entered. */
  predicate Inv(v: Variant, st: SceneState) {
    var (p, e) := (st.playerCharacter, st.enemyCharacter);
    p.maxHealth == PlayerMaxHealth && e.maxHealth == EnemyMaxHealth
    && p.health + e.damage == PlayerMaxHealth && e.health + p.damage == EnemyMaxHealth
    && p.damage >= 0 && e.damage >= 0
    && p.damage % DamagePerLine == 0 && e.damage % DamagePerLine == 0
    && st.score.player >= 0 && st.score.ai >= 0 && st.score.ties == 0
    && (forall k :: 0 <= k < |st.timers| ==> st.clock <= st.timers[k].due)
    && (v == AsWritten ==> st.currentState != WaitingEndTurn)
  }

  /** The counters only grow, and by at most one win per step. */
  predicate ScoreStep(before: GameScore, after: GameScore) {
    before.player <= after.player && before.ai <= after.ai && before.ties == after.ties
    && after.player + after.ai <= before.player + before.ai + 1
  }

  lemma CreateEstablishes(v: Variant)
    ensures Inv(v, Create())
  {
  }

  lemma MakeMoveKeepsInvariant(v: Variant, st: SceneState, index: int, player: PlayerType)
    requires Inv(v, st)
    ensures Inv(v, MakeMove(v, st, index, player))
    ensures MakeMove(v, st, index, player).score == st.score
  {
    var (g, ok) := BoardEngine.MakeMove(st.gameBoard, index, player);
    if ok {
      var st1 := st.(gameBoard := g);
      var result := CheckWinner(g.board);
      if result.winner != Empty && |result.lines| > 0 {
        LineCompletionKeepsInvariant(v, st1, result.winner, result.lines);
      } else if IsFull(g.board) {
        ScheduleKeepsInvariant(v, st1, TieResetDelay, TieResetDue);
      } else if player == Human {
        ScheduleKeepsInvariant(v, st1.(currentState := AiThinking), AiMoveDelay, AiMoveDue);
      }
    }
  }

  lemma ScheduleKeepsInvariant(v: Variant, st: SceneState, delay: nat, e: Event)
    requires Inv(v, st)
    ensures Inv(v, Schedule(st, delay, e))
  {
    var r := Schedule(st, delay, e);
    forall k | 0 <= k < |r.timers|
      ensures r.clock <= r.timers[k].due
    {
      if k < |st.timers| {
        assert r.timers[k] == st.timers[k];
      }
    }
  }

  lemma LineCompletionKeepsInvariant(v: Variant, st: SceneState, winner: PlayerType, lines: seq<Line>)
    requires Inv(v, st)
    ensures Inv(v, HandleLineCompletion(v, st, winner, lines))
  {
    var r := HandleLineCompletion(v, st, winner, lines);
    assert |lines| * DamagePerLine % DamagePerLine == 0;
    assert forall k :: 0 <= k < |r.timers| ==> r.clock <= r.timers[k].due by {
      forall k | 0 <= k < |r.timers|
        ensures r.clock <= r.timers[k].due
      {
        if k < |st.timers| {
          assert r.timers[k] == st.timers[k];
        }
      }
    }
  }

  lemma FireKeepsInvariant(v: Variant, st: SceneState, roll: Draw, pick: Draw)
    requires Inv(v, st) && |st.timers| > 0
    ensures Inv(v, Fire(v, st, roll, pick))
    ensures ScoreStep(st.score, Fire(v, st, roll, pick).score)
  {
    var k := NextTimer(st.timers);
    var t := st.timers[k];
    var st1 := st.(clock := t.due, timers := RemoveAt(st.timers, k));
    assert Inv(v, st1);
    DispatchKeepsInvariant(v, st1, t.event, roll, pick);
  }

  lemma DispatchKeepsInvariant(v: Variant, st: SceneState, e: Event, roll: Draw, pick: Draw)
    requires Inv(v, st)
    ensures Inv(v, Dispatch(v, st, e, roll, pick))
    ensures ScoreStep(st.score, Dispatch(v, st, e, roll, pick).score)
  {
    match e
    case AiMoveDue =>
      if st.currentState == AiThinking {
        match GetBestMove(st.aiPlayer, st.gameBoard.board, roll, pick)
        case None =>
        case Some(m) => MakeMoveKeepsInvariant(v, st, m, Ai);
      }
    case ClearLinesDue(lines) =>
    case GameEndCheckDue =>
    case TieResetDue =>
  }

  /** One input keeps the ledger and moves the score by at most one win. */
  lemma StepKeepsInvariant(v: Variant, st: SceneState, a: Action)
    requires Inv(v, st) && Enabled(st, a)
    ensures Inv(v, Step(v, st, a))
    ensures ScoreStep(st.score, Step(v, st, a).score)
  {
    match a
    case Click(index, at) =>
      var st1 := st.(clock := at);
      assert Inv(v, st1);
      if st1.currentState == WaitingPlayer && IsValidMove(st1.gameBoard.board, index) {
        MakeMoveKeepsInvariant(v, st1, index, Human);
      }
    case NewGame(at) =>
    case TimerFires(roll, pick) => FireKeepsInvariant(v, st, roll, pick);
  }

  /** Along any run the ledger holds and the counters never go down; the
      tie counter stays at zero. */
  lemma {:induction false} RunKeepsInvariant(v: Variant, st: SceneState, actions: seq<Action>)
    requires Inv(v, st)
    ensures Inv(v, Run(v, st, actions))
    ensures var r := Run(v, st, actions).score;
            st.score.player <= r.player && st.score.ai <= r.ai && r.ties == 0
    decreases |actions|
  {
    if |actions| > 0 {
      var next := if Enabled(st, actions[0]) then Step(v, st, actions[0]) else st;
      if Enabled(st, actions[0]) {
        StepKeepsInvariant(v, st, actions[0]);
      }
      RunKeepsInvariant(v, next, actions[1..]);
    }
  }

  // ---------------------------------------------------------------------
  // The corrected scene's phases
  // ---------------------------------------------------------------------

  predicate NoLines(b: Board) {
    CheckWinner(b).lines == []
  }

  /** What is pending in each state of the corrected scene. The player
      moves only on a grid without completed lines, with nothing pending
      but the reset of a full grid; a completion waits for its clear and
      then its end check, the clear carrying exactly the lines completed on
      the grid; a finished game has nothing pending. */
  predicate Phases(st: SceneState) {
    var b := st.gameBoard.board;
    var ts := st.timers;
    match st.currentState
    case WaitingPlayer => NoLines(b) && (ts == [] || (IsFull(b) && |ts| == 1 && ts[0].event == TieResetDue))
    case AiThinking =>
      NoLines(b) && |ts| == 1 && ts[0].event == (if IsFull(b) then TieResetDue else AiMoveDue)
    case WaitingEndTurn => EndTurnPending(b, ts)
    case GameOver => ts == []
  }

  /** A completion waits for its clear, which carries exactly the lines
      completed on the grid, and then for its end check. */
  predicate EndTurnPending(b: Board, ts: seq<Timer>) {
    (|ts| == 2 && CheckWinner(b).lines != [] && ts[0].event == ClearLinesDue(CheckWinner(b).lines)
     && ts[1].event == GameEndCheckDue && ts[0].due < ts[1].due)
    || (|ts| == 1 && ts[0].event == GameEndCheckDue && NoLines(b))
  }

  lemma EmptyGridNoLines(g: GameBoard)
    requires forall k :: 0 <= k < 9 ==> g.board[k] == Empty
    ensures NoLines(g.board)
  {
    NoCompletedMeansNoLines(g.board);
  }

  lemma CreatePhases()
    ensures Phases(Create())
  {
    EmptyGridNoLines(Create().gameBoard);
  }

  /** A valid move from a quiet grid lands in a well-formed phase. */
  lemma MoveEntersPhase(st: SceneState, index: int, player: PlayerType)
    requires st.timers == [] && NoLines(st.gameBoard.board)
    requires IsValidMove(st.gameBoard.board, index)
    requires (player == Human && st.currentState == WaitingPlayer)
             || (player == Ai && st.currentState == AiThinking)
    ensures Phases(MakeMove(Corrected, st, index, player))
  {
  }

  /** The corrected scene keeps its phases on every input. */
  lemma StepKeepsPhases(st: SceneState, a: Action)
    requires Phases(st) && Enabled(st, a)
    ensures Phases(Step(Corrected, st, a))
  {
    match a
    case Click(index, at) =>
      var st1 := st.(clock := at);
      if st1.currentState == WaitingPlayer && IsValidMove(st1.gameBoard.board, index) {
        MoveEntersPhase(st1, index, Human);
      }
    case NewGame(at) =>
      EmptyGridNoLines(Step(Corrected, st, a).gameBoard);
    case TimerFires(roll, pick) =>
      FireKeepsPhases(st, roll, pick);
  }

  /** In every phase the first pending timer is the one that fires. */
  lemma FirstTimerFires(st: SceneState)
    requires Phases(st) && |st.timers| > 0
    ensures NextTimer(st.timers) == 0
  {
    if |st.timers| == 2 {
      assert st.timers[0].due < st.timers[1].due;
    }
  }

  lemma AiMoveEntersPhase(st: SceneState, roll: Draw, pick: Draw)
    requires st.timers == [] && st.currentState == AiThinking
    requires NoLines(st.gameBoard.board) && !IsFull(st.gameBoard.board)
    ensures Phases(HandleAiMove(Corrected, st, roll, pick))
  {
    var b := st.gameBoard.board;
    FirstWinnerIsFirstLine(b);
    var m := GetBestMove(st.aiPlayer, b, roll, pick);
    assert m.Some? && IsValidMove(b, m.value);
    MoveEntersPhase(st, m.value, Ai);
  }

  lemma FireKeepsPhases(st: SceneState, roll: Draw, pick: Draw)
    requires Phases(st) && |st.timers| > 0
    ensures Phases(Fire(Corrected, st, roll, pick))
  {
    FirstTimerFires(st);
    match st.currentState
    case WaitingPlayer => FireResetKeepsPhases(st, roll, pick);
    case AiThinking =>
      if IsFull(st.gameBoard.board) {
        FireResetKeepsPhases(st, roll, pick);
      } else {
        FireAiMoveKeepsPhases(st, roll, pick);
      }
    case WaitingEndTurn =>
      if |st.timers| == 2 {
        FireClearKeepsPhases(st, roll, pick);
      } else {
        FireEndCheckKeepsPhases(st, roll, pick);
      }
    case GameOver =>
      assert false;
  }

  lemma FireResetKeepsPhases(st: SceneState, roll: Draw, pick: Draw)
    requires |st.timers| == 1 && NextTimer(st.timers) == 0 && st.timers[0].event == TieResetDue
    ensures Phases(Fire(Corrected, st, roll, pick))
  {
    assert RemoveAt(st.timers, 0) == [];
    ResetEntersPhase(st.(clock := st.timers[0].due, timers := []));
  }

  lemma FireAiMoveKeepsPhases(st: SceneState, roll: Draw, pick: Draw)
    requires |st.timers| == 1 && NextTimer(st.timers) == 0 && st.timers[0].event == AiMoveDue
    requires st.currentState == AiThinking
    requires NoLines(st.gameBoard.board) && !IsFull(st.gameBoard.board)
    ensures Phases(Fire(Corrected, st, roll, pick))
  {
    assert RemoveAt(st.timers, 0) == [];
    AiMoveEntersPhase(st.(clock := st.timers[0].due, timers := []), roll, pick);
  }

  lemma FireClearKeepsPhases(st: SceneState, roll: Draw, pick: Draw)
    requires |st.timers| == 2 && NextTimer(st.timers) == 0
    requires st.currentState == WaitingEndTurn
    requires st.timers[0].event == ClearLinesDue(CheckWinner(st.gameBoard.board).lines)
    requires st.timers[1].event == GameEndCheckDue
    ensures Phases(Fire(Corrected, st, roll, pick))
  {
    assert RemoveAt(st.timers, 0) == [st.timers[1]];
    ClearEntersPhase(st.(clock := st.timers[0].due, timers := [st.timers[1]]));
  }

  lemma FireEndCheckKeepsPhases(st: SceneState, roll: Draw, pick: Draw)
    requires |st.timers| == 1 && NextTimer(st.timers) == 0 && st.timers[0].event == GameEndCheckDue
    requires st.currentState == WaitingEndTurn && NoLines(st.gameBoard.board)
    ensures Phases(Fire(Corrected, st, roll, pick))
  {
    assert RemoveAt(st.timers, 0) == [];
    EndCheckEntersPhase(st.(clock := st.timers[0].due, timers := []));
  }

  lemma ResetEntersPhase(st: SceneState)
    requires st.timers == []
    ensures Phases(ResetBoardOnly(st))
  {
    EmptyGridNoLines(ResetBoardOnly(st).gameBoard);
  }

  lemma ClearEntersPhase(st: SceneState)
    requires st.currentState == WaitingEndTurn
    requires |st.timers| == 1 && st.timers[0].event == GameEndCheckDue
    ensures Phases(st.(gameBoard := ClearLines(st.gameBoard, CheckWinner(st.gameBoard.board).lines)))
  {
    ClearingCompletedLinesLeavesNone(st.gameBoard);
  }

  lemma EndCheckEntersPhase(st: SceneState)
    requires st.currentState == WaitingEndTurn && st.timers == [] && NoLines(st.gameBoard.board)
    ensures Phases(GameEndCheck(st))
  {
  }

  lemma {:induction false} RunKeepsPhases(st: SceneState, actions: seq<Action>)
    requires Phases(st)
    ensures Phases(Run(Corrected, st, actions))
    decreases |actions|
  {
    if |actions| > 0 {
      var next := if Enabled(st, actions[0]) then Step(Corrected, st, actions[0]) else st;
      if Enabled(st, actions[0]) {
        StepKeepsPhases(st, actions[0]);
      }
      RunKeepsPhases(next, actions[1..]);
    }
  }

  /** A pending clear in the corrected scene removes exactly the lines
      completed on the current grid, so it never wipes another mark. */
  lemma PendingClearIsCurrent(st: SceneState, k: int)
    requires Phases(st) && 0 <= k < |st.timers| && st.timers[k].event.ClearLinesDue?
    ensures st.currentState == WaitingEndTurn
    ensures st.timers[k].event.lines == CheckWinner(st.gameBoard.board).lines != []
  {
    if st.currentState == WaitingEndTurn {
      ClearIsFirst(st.gameBoard.board, st.timers, k);
    }
  }

  lemma ClearIsFirst(b: Board, ts: seq<Timer>, k: int)
    requires EndTurnPending(b, ts) && 0 <= k < |ts| && ts[k].event.ClearLinesDue?
    ensures ts[k].event.lines == CheckWinner(b).lines != []
  {
    if |ts| == 2 {
      assert ts[1].event == GameEndCheckDue;
    }
  }

  // ---------------------------------------------------------------------
  // Wins per match
  // ---------------------------------------------------------------------

  /** Wins counted for either side. */
  function Wins(s: GameScore): int {
    s.player + s.ai
  }

  /** A match still in play may yet count one win; a finished one may not. */
  function Credit(st: SceneState): nat {
    if st.currentState == GameOver then 0 else 1
  }

  function NewGames(actions: seq<Action>): nat
    decreases |actions|
  {
    if |actions| == 0 then 0
    else (if actions[0].NewGame? then 1 else 0) + NewGames(actions[1..])
  }

  /** In either variant the score moves only when a game ends, by one win. */
  lemma StepScoresOnlyAtGameEnd(v: Variant, st: SceneState, a: Action)
    requires Enabled(st, a)
    ensures var r := Step(v, st, a);
            r.score == st.score || (r.currentState == GameOver && Wins(r.score) == Wins(st.score) + 1)
  {
    match a
    case Click(index, at) =>
    case NewGame(at) =>
    case TimerFires(roll, pick) =>
      var k := NextTimer(st.timers);
      var st1 := st.(clock := st.timers[k].due, timers := RemoveAt(st.timers, k));
      if st.timers[k].event == GameEndCheckDue {
        assert Step(v, st, a) == GameEndCheck(st1);
      }
  }

  /** The corrected scene counts at most one win per match: a finished
      game changes nothing until a new game is started. */
  lemma StepScoresOncePerMatch(st: SceneState, a: Action)
    requires Phases(st) && Enabled(st, a)
    ensures var r := Step(Corrected, st, a);
            Wins(r.score) + Credit(r) <= Wins(st.score) + Credit(st) + (if a.NewGame? then 1 else 0)
  {
    StepScoresOnlyAtGameEnd(Corrected, st, a);
  }

  /** Along any run of the corrected scene, the wins counted exceed the
      new games started by at most the one match in play at the start. */
  lemma {:induction false} RunScoresOncePerMatch(st: SceneState, actions: seq<Action>)
    requires Phases(st)
    ensures var r := Run(Corrected, st, actions);
            Wins(r.score) + Credit(r) <= Wins(st.score) + Credit(st) + NewGames(actions)
    ensures NewGames(actions) == 0 ==>
              Wins(Run(Corrected, st, actions).score) <= Wins(st.score) + 1
    decreases |actions|
  {
    if |actions| > 0 {
      var next := if Enabled(st, actions[0]) then Step(Corrected, st, actions[0]) else st;
      if Enabled(st, actions[0]) {
        StepScoresOncePerMatch(st, actions[0]);
        StepKeepsPhases(st, actions[0]);
      }
      assert Run(Corrected, st, actions) == Run(Corrected, next, actions[1..]);
      RunScoresOncePerMatch(next, actions[1..]);
    }
  }

  // ---------------------------------------------------------------------
  // The scene as written, on concrete inputs
  // ---------------------------------------------------------------------

  /** Two marks in a row for each side, the player to move, nothing
      pending: the player wins with cell 2. */
  const TwoInARow := SceneState(
    GameBoard([Human, Human, Empty, Ai, Ai, Empty, Empty, Empty, Empty], []),
    AIPlayer(DefaultDifficulty), WaitingPlayer, GameScore(0, 0, 0),
    FreshPlayer, FreshEnemy, 0, [])

  const Row0 := Line(0, 1, 2)

  const Top := ClearLinesDue([Row0])

  /** One input at the head of a run. */
  lemma RunFirst(v: Variant, st: SceneState, actions: seq<Action>)
    requires |actions| > 0 && Enabled(st, actions[0])
    ensures Run(v, st, actions) == Run(v, Step(v, st, actions[0]), actions[1..])
  {
  }

  /** The top row is the only line completed on such a grid. */
  lemma TopRowOnly(b: Board)
    requires b[0] == Human && b[1] == Human && b[2] == Human && b[3] == Ai && b[4] == Ai
    requires b[5] != Ai && b[6] == Empty && b[7] == Empty && b[8] == Empty
    ensures CheckWinner(b).lines == [Row0]
  {
    CheckWinnerInTableOrder(b);
  }

  /** The scene after the player's click at `index` at time `at` that
      leaves exactly the top row completed. */
  function TopRowHit(st: SceneState, index: Index, at: nat): SceneState {
    var g := GameBoard(st.gameBoard.board[index := Human], st.gameBoard.completedLines);
    HandleLineCompletion(AsWritten, st.(clock := at, gameBoard := g), Human, [Row0])
  }

  /** As written, a click that leaves the top row completed is accepted
      while the player keeps the turn, and its line completion runs again. */
  lemma ClickHitsTopRow(st: SceneState, index: Index, at: nat)
    requires QuietUntil(st, at) && st.currentState == WaitingPlayer
    requires IsValidMove(st.gameBoard.board, index)
    requires st.gameBoard.board[0] == Human || index == 0
    requires CheckWinner(st.gameBoard.board[index := Human]).lines == [Row0]
    ensures Enabled(st, Click(index, at)) && Step(AsWritten, st, Click(index, at)) == TopRowHit(st, index, at)
  {
    var b := st.gameBoard.board[index := Human];
    assert CheckWinner(b).winner == b[Row0.a] == Human;
  }

  /** Completing the top row costs the enemy one line of damage and
      schedules its clear and an end check; the player keeps the turn. */
  lemma TopRowHitFacts(st: SceneState, index: Index, at: nat)
    ensures var r := TopRowHit(st, index, at);
            r.score == st.score && r.currentState == st.currentState
            && r.playerCharacter.health == st.playerCharacter.health
            && r.enemyCharacter.health == st.enemyCharacter.health - DamagePerLine
            && r.gameBoard.board == st.gameBoard.board[index := Human]
            && r.timers == st.timers + [Timer(at + ClearDelay, Top), Timer(at + EndCheckDelay, GameEndCheckDue)]
  {
  }

  lemma {:induction false} NoNewGames(actions: seq<Action>)
    requires forall k :: 0 <= k < |actions| ==> !actions[k].NewGame?
    ensures NewGames(actions) == 0
    decreases |actions|
  {
    if |actions| > 0 {
      NoNewGames(actions[1..]);
    }
  }

  /** The scene at the start of the scenario: two marks in a row for each
      side, fresh characters, the player to move and nothing pending. */
  predicate AtTwoInARow(st: SceneState) {
    st.gameBoard.board == [Human, Human, Empty, Ai, Ai, Empty, Empty, Empty, Empty]
    && st.currentState == WaitingPlayer && st.score == GameScore(0, 0, 0)
    && st.playerCharacter == FreshPlayer && st.enemyCharacter == FreshEnemy
    && st.clock == 0 && st.timers == []
  }

  lemma TwoInARowIsLegal()
    ensures AtTwoInARow(TwoInARow) && Phases(TwoInARow) && Inv(AsWritten, TwoInARow)
  {
    NoCompletedMeansNoLines(TwoInARow.gameBoard.board);
  }

  lemma AppendToEmpty<T>(a: T, b: T)
    ensures [] + [a, b] == [a, b]
  {
  }

  lemma AppendPairs<T>(a: T, b: T, c: T, d: T)
    ensures [a, b] + [c, d] == [a, b, c, d]
  {
  }

  /** After the first click: the top row is completed and counted once. */
  predicate AfterFirstClick(st: SceneState) {
    var b := st.gameBoard.board;
    b[0] == Human && b[1] == Human && b[2] == Human && b[3] == Ai && b[4] == Ai
    && b[5] == Empty && b[6] == Empty && b[7] == Empty && b[8] == Empty
    && st.currentState == WaitingPlayer && st.score == GameScore(0, 0, 0)
    && st.playerCharacter.health == 12 && st.enemyCharacter.health == 0
    && st.clock == 0 && st.timers == [Timer(800, Top), EndAt1000]
  }

  /** After the second click: the uncleared top row is counted again. */
  predicate AfterSecondClick(st: SceneState) {
    Beaten(st, GameScore(0, 0, 0), [Timer(800, Top), EndAt1000, Timer(900, Top), EndAt1100])
  }

  lemma FirstClick(st: SceneState)
    requires AtTwoInARow(st)
    ensures Enabled(st, Click(2, 0)) && AfterFirstClick(Step(AsWritten, st, Click(2, 0)))
  {
    TopRowOnly(st.gameBoard.board[2 := Human]);
    ClickHitsTopRow(st, 2, 0);
    TopRowHitFacts(st, 2, 0);
    AppendToEmpty(Timer(800, Top), EndAt1000);
  }

  lemma SecondClickHits(st: SceneState)
    requires AfterFirstClick(st)
    ensures Enabled(st, Click(5, 100)) && Step(AsWritten, st, Click(5, 100)) == TopRowHit(st, 5, 100)
  {
    assert QuietUntil(st, 100);
    var b := st.gameBoard.board[5 := Human];
    assert b[0] == Human && b[1] == Human && b[2] == Human && b[3] == Ai && b[4] == Ai
      && b[5] == Human && b[6] == Empty && b[7] == Empty && b[8] == Empty;
    TopRowOnly(b);
    ClickHitsTopRow(st, 5, 100);
  }

  lemma SecondClick(st: SceneState)
    requires AfterFirstClick(st)
    ensures Enabled(st, Click(5, 100)) && AfterSecondClick(Step(AsWritten, st, Click(5, 100)))
  {
    SecondClickHits(st);
    TopRowHitFacts(st, 5, 100);
    AppendPairs(Timer(800, Top), EndAt1000, Timer(900, Top), EndAt1100);
  }

  /** The enemy is out of health and `ts` are pending: the two clears
      first, then the two end checks. */
  predicate Beaten(st: SceneState, score: GameScore, ts: seq<Timer>) {
    st.score == score && st.playerCharacter.health == 12 && st.enemyCharacter.health == -3
    && st.timers == ts
  }

  const Fires := TimerFires(0.0, 0.0)
  const EndAt1000 := Timer(1000, GameEndCheckDue)
  const EndAt1100 := Timer(1100, GameEndCheckDue)

  lemma FireFirstClear(st: SceneState)
    requires Beaten(st, GameScore(0, 0, 0), [Timer(800, Top), EndAt1000, Timer(900, Top), EndAt1100])
    ensures Enabled(st, Fires)
    ensures Beaten(Step(AsWritten, st, Fires), GameScore(0, 0, 0), [EndAt1000, Timer(900, Top), EndAt1100])
  {
    assert NextTimer(st.timers) == 0;
    assert RemoveAt(st.timers, 0) == st.timers[1..];
  }

  lemma FireSecondClear(st: SceneState)
    requires Beaten(st, GameScore(0, 0, 0), [EndAt1000, Timer(900, Top), EndAt1100])
    ensures Enabled(st, Fires)
    ensures Beaten(Step(AsWritten, st, Fires), GameScore(0, 0, 0), [EndAt1000, EndAt1100])
  {
    assert NextTimer(st.timers) == 1;
    assert RemoveAt(st.timers, 1) == [st.timers[0], st.timers[2]];
  }

  lemma FireFirstEndCheck(st: SceneState)
    requires Beaten(st, GameScore(0, 0, 0), [EndAt1000, EndAt1100])
    ensures Enabled(st, Fires)
    ensures Beaten(Step(AsWritten, st, Fires), GameScore(1, 0, 0), [EndAt1100])
  {
    assert NextTimer(st.timers) == 0;
    assert RemoveAt(st.timers, 0) == [EndAt1100];
  }

  lemma FireSecondEndCheck(st: SceneState)
    requires Beaten(st, GameScore(1, 0, 0), [EndAt1100])
    ensures Enabled(st, Fires)
    ensures Beaten(Step(AsWritten, st, Fires), GameScore(2, 0, 0), [])
  {
    assert NextTimer(st.timers) == 0;
    assert RemoveAt(st.timers, 0) == [];
  }

  /** The four pending calls fire: two clears, then two end checks that
      each count the match. */
  lemma FourFires(st: SceneState, actions: seq<Action>)
    requires Beaten(st, GameScore(0, 0, 0), [Timer(800, Top), EndAt1000, Timer(900, Top), EndAt1100])
    requires actions == [Fires, Fires, Fires, Fires]
    ensures Run(AsWritten, st, actions).score == GameScore(2, 0, 0)
  {
    FireFirstClear(st);
    var st3 := Step(AsWritten, st, Fires);
    FireSecondClear(st3);
    var st4 := Step(AsWritten, st3, Fires);
    FireFirstEndCheck(st4);
    var st5 := Step(AsWritten, st4, Fires);
    FireSecondEndCheck(st5);
    var st6 := Step(AsWritten, st5, Fires);
    RunFirst(AsWritten, st, actions);
    RunFirst(AsWritten, st3, actions[1..]);
    RunFirst(AsWritten, st4, actions[2..]);
    RunFirst(AsWritten, st5, actions[3..]);
    assert Run(AsWritten, st6, actions[4..]) == st6;
  }

  /** As written, a second click before the first clear re-counts the
      uncleared top row, and both end checks count the same match: two
      wins and no new game, where the corrected scene counts at most one
      from the same state. */
  lemma WinScoredTwice(st0: SceneState, actions: seq<Action>)
    requires AtTwoInARow(st0)
    requires actions == [Click(2, 0), Click(5, 100), Fires, Fires, Fires, Fires]
    ensures NewGames(actions) == 0
    ensures Wins(Run(AsWritten, st0, actions).score) == Wins(st0.score) + 2
  {
    NoNewGames(actions);
    FirstClick(st0);
    var st1 := Step(AsWritten, st0, actions[0]);
    SecondClick(st1);
    var st2 := Step(AsWritten, st1, actions[1]);
    FourFires(st2, actions[2..]);
    RunFirst(AsWritten, st0, actions);
    RunFirst(AsWritten, st1, actions[1..]);
    assert actions[1..][1..] == actions[2..];
  }

  /** The grid after a new game and one mark in the corner. */
  predicate CornerOnly(b: Board) {
    b[0] == Human && forall k :: 1 <= k < 9 ==> b[k] == Empty
  }

  lemma CornerOnlyNoLines(b: Board)
    requires CornerOnly(b)
    ensures NoLines(b) && !IsFull(b)
  {
    assert b[1] == Empty;
    NoCompletedMeansNoLines(b);
  }

  /** As written, the new-game button after the first click keeps the
      clear and the end check armed. */
  lemma NewGameKeepsTimers(st: SceneState)
    requires AfterFirstClick(st)
    ensures Enabled(st, NewGame(100))
    ensures var r := Step(AsWritten, st, NewGame(100));
            (forall k :: 0 <= k < 9 ==> r.gameBoard.board[k] == Empty)
            && r.currentState == WaitingPlayer && r.clock == 100
            && r.timers == [Timer(800, Top), EndAt1000]
  {
  }

  lemma CornerClick(st: SceneState)
    requires forall k :: 0 <= k < 9 ==> st.gameBoard.board[k] == Empty
    requires st.currentState == WaitingPlayer && st.clock == 100
    requires st.timers == [Timer(800, Top), EndAt1000]
    ensures Enabled(st, Click(0, 400))
    ensures var r := Step(AsWritten, st, Click(0, 400));
            CornerOnly(r.gameBoard.board) && r.currentState == AiThinking
            && r.timers == [Timer(800, Top), EndAt1000, Timer(900, AiMoveDue)]
  {
    var b := st.gameBoard.board[0 := Human];
    assert CornerOnly(b);
    CornerOnlyNoLines(b);
    MakeMoveOutcome(AsWritten, st.(clock := 400), 0, Human);
  }

  /** The stale clear fires before the computer's move and empties the
      corner the player has just marked in the new game. */
  lemma StaleClearFires(st: SceneState)
    requires CornerOnly(st.gameBoard.board)
    requires st.timers == [Timer(800, Top), EndAt1000, Timer(900, AiMoveDue)]
    ensures Enabled(st, Fires) && Step(AsWritten, st, Fires).gameBoard.board[0] == Empty
  {
    assert NextTimer(st.timers) == 0;
    assert Row0.a in [Row0][0].Cells();
  }

  /** A run ending in one more input is the run up to it, then that input. */
  lemma {:induction false} RunLast(v: Variant, st: SceneState, actions: seq<Action>, a: Action)
    ensures var mid := Run(v, st, actions);
            Run(v, st, actions + [a]) == if Enabled(mid, a) then Step(v, mid, a) else mid
    decreases |actions|
  {
    if |actions| > 0 {
      var next := if Enabled(st, actions[0]) then Step(v, st, actions[0]) else st;
      assert (actions + [a])[1..] == actions[1..] + [a];
      RunLast(v, next, actions[1..], a);
    } else {
      assert ([] + [a])[1..] == [];
    }
  }

  /** The winning click, the new-game button, and a mark in the corner. */
  lemma CornerAfterNewGame(st0: SceneState, actions: seq<Action>)
    requires AtTwoInARow(st0)
    requires actions == [Click(2, 0), NewGame(100), Click(0, 400)]
    ensures var r := Run(AsWritten, st0, actions);
            CornerOnly(r.gameBoard.board)
            && r.timers == [Timer(800, Top), EndAt1000, Timer(900, AiMoveDue)]
  {
    FirstClick(st0);
    var st1 := Step(AsWritten, st0, actions[0]);
    NewGameKeepsTimers(st1);
    var st2 := Step(AsWritten, st1, actions[1]);
    CornerClick(st2);
    var st3 := Step(AsWritten, st2, actions[2]);
    RunFirst(AsWritten, st0, actions);
    RunFirst(AsWritten, st1, actions[1..]);
    RunFirst(AsWritten, st2, actions[2..]);
    assert Run(AsWritten, st3, actions[3..]) == st3;
  }

  /** As written, a clear scheduled in one game fires in the next one: the
      player's first mark after the new-game button is wiped although it
      completes nothing. */
  lemma StaleClearWipesMark(st0: SceneState, actions: seq<Action>)
    requires AtTwoInARow(st0)
    requires actions == [Click(2, 0), NewGame(100), Click(0, 400), Fires]
    ensures Run(AsWritten, st0, actions[..3]).gameBoard.board[0] == Human
    ensures Run(AsWritten, st0, actions).gameBoard.board[0] == Empty
  {
    var prefix := actions[..3];
    CornerAfterNewGame(st0, prefix);
    StaleClearFires(Run(AsWritten, st0, prefix));
    assert actions == prefix + [Fires];
    RunLast(AsWritten, st0, prefix, Fires);
  }

  /** In the corrected scene the new-game button cancels every pending
      call, so nothing scheduled in the old game reaches the new one. */
  lemma NewGameStartsQuiet(st: SceneState, at: nat)
    requires QuietUntil(st, at)
    ensures var r := Step(Corrected, st, NewGame(at));
            r.timers == [] && Phases(r) && r.currentState == WaitingPlayer
  {
    EmptyGridNoLines(Step(Corrected, st, NewGame(at)).gameBoard);
  }
}
