# Tic-tac-toe roguelike: the rules engine in Dafny

This project models the rules core of a browser game that combines 3×3 tic-tac-toe with a small roguelike fight. The human plays X and the computer plays O. A completed line does not end the game. It deals 3 damage per line to the other side's character, and a timer clears the line's cells later, so play continues on the same grid. The player starts with 12 health and the enemy with 3. When either side's health is gone, the match is over. In the corrected scene exactly one win is counted for it; as written a match can count more than one (see "## Findings").

The modules follow the program's structure:

- `GameTypes` (game_types.dfy) holds the enums and records, with the presentation-only fields removed. The grid is a `Board`, a sequence of exactly nine `PlayerType` cells.
- `GameConstants` (game_constants.dfy) holds the eight win patterns and the damage per line.
- `BoardEngine` (board.dfy) is the grid. It covers reset, move validation, the available moves, `checkWinner`, which reports every completed pattern, `isFull`, `clearLines` and `clone`.
- `AI` (ai.dfy) is the computer's move selector. It is an exhaustive minimax with depth-adjusted scores and a left-to-right `reduce`, plus the random branch of `getBestMove` below the difficulty.
- `Cards` (cards.dfy) is the card system. Each side has a draw pile, a discard pile and a hand. It covers deck creation, Fisher–Yates shuffling, draw, play, discard and the refill after a score.
- `Scene` (scene.dfy) is the scene's turn and combat logic. The scene's delayed calls become pending timers, which fire in order of due time. A run of the scene is a sequence of inputs:
  - clicks on a cell;
  - clicks on the new-game button;
  - firings of the next timer.
- `Randomness` (random.dfy) turns a draw of `Math.random()` into an index.
- `Wrappers` (wrappers.dfy) holds `Option`.

Randomness is a parameter:

- `getBestMove` takes its two draws as reals in [0, 1);
- a shuffle takes a function from step number to draw.

The scene exists in two variants, selected by `Variant`:

- `AsWritten` does what the code does;
- `Corrected` applies the two fixes from "## Findings" below. To block input between a line completion and its end check, it reuses the `WAITING_END_TURN` state of `GameState`. The card variant of the game declares that state for its own end of turn, and the scene as written never enters it.

The ledger invariant `Scene.Inv` is proved for both variants. The scoring and phase properties are proved for `Corrected`, and the defects are exhibited on `AsWritten`.

## Model

| member | source | states |
|---|---|---|
| GameConstants.WinPatternsShape | src/game/constants/GameConstants.ts:25-34 | the table is the three rows, then the three columns, then the two diagonals, and nothing else |
| GameConstants.WinPatternsDistinct | src/game/constants/GameConstants.ts:25-34 | the eight patterns are pairwise different and each names three different cells |
| Randomness.RandomIndex | src/game/ai/AIPlayer.ts:14-16 | `Math.floor(random * n)` is a valid position in a non-empty list of length n |
| BoardEngine.Reset | src/game/board/GameBoard.ts:13-16 | all nine cells are empty and no cleared line is on record |
| BoardEngine.MakeMove | src/game/board/GameBoard.ts:18-24 | the result flag equals move validity; a valid move sets exactly that cell; an invalid one changes nothing |
| BoardEngine.AvailableFromSpec | src/game/board/GameBoard.ts:30-34 | the scan from a position lists exactly the empty cells at or above it |
| BoardEngine.AvailableFromAscending | src/game/board/GameBoard.ts:30-34 | the scan lists the empty cells in strictly ascending order |
| BoardEngine.AvailableMoves | src/game/board/GameBoard.ts:26-34 | a cell is listed if and only if `isValidMove` holds for it (in range and empty), and the list is ascending |
| BoardEngine.AvailableFromPlace | src/game/board/GameBoard.ts:18-34 | filling an empty cell leaves the scan below it unchanged and shortens the scan above it by one |
| BoardEngine.MoveRemovesOneAvailable | src/game/board/GameBoard.ts:18-34 | a valid move removes exactly its own cell from the available moves |
| BoardEngine.IsFull | src/game/board/GameBoard.ts:55-57 | the grid is full if and only if no cell is empty, which holds if and only if no move is available |
| BoardEngine.CompletedInMembers | src/game/board/GameBoard.ts:40-50 | the reference filter keeps exactly the completed patterns |
| BoardEngine.ScanLinesFilters | src/game/board/GameBoard.ts:40-50 | the loop appends exactly the filtered patterns, and the winner it reports is the mark of the last one |
| BoardEngine.ScanLinesSound | src/game/board/GameBoard.ts:36-53 | from an empty result, the loop finds exactly the completed patterns, and reports `Empty` when none is complete |
| BoardEngine.CheckWinner | src/game/board/GameBoard.ts:36-53 | a pattern is reported if and only if it is completed; the winner is `Empty` exactly when none is; otherwise the winner is the mark of the last pattern reported |
| BoardEngine.CheckWinnerInTableOrder | src/game/board/GameBoard.ts:36-53 | the reported lines equal the reference filter of the table, in table order |
| BoardEngine.NoCompletedMeansNoLines | src/game/board/GameBoard.ts:36-53 | a grid with no completed pattern reports no line |
| BoardEngine.LineCells | src/game/board/GameBoard.ts:60-65 | the set holds exactly the cells of the given lines |
| BoardEngine.ClearLines | src/game/board/GameBoard.ts:59-72 | every cell of a given line is emptied; every other cell is kept; the lines are appended to the record |
| BoardEngine.ClearLinesIdempotent | src/game/board/GameBoard.ts:59-72 | clearing the same lines twice leaves the grid as clearing them once |
| BoardEngine.ClearedLineEmpty | src/game/board/GameBoard.ts:59-72 | all three cells of a cleared line are empty afterwards |
| BoardEngine.ClearingCoversCompleted | src/game/board/GameBoard.ts:59-72 | clearing lines that include every completed pattern leaves no pattern completed |
| BoardEngine.ClearingCompletedLinesLeavesNone | src/game/board/GameBoard.ts:36-72 | after the lines `checkWinner` reports are cleared, it reports none |
| BoardEngine.Clone | src/game/board/GameBoard.ts:74-76 | the copy has the grid's nine cells |
| AI.SetDifficulty | src/game/ai/AIPlayer.ts:78-80 | the selector takes the given difficulty |
| AI.FirstWinnerInIsFirstCompleted | src/game/ai/AIPlayer.ts:64-76 | the early-return loop returns the mark of the first completed pattern, or `Empty` when there is none |
| AI.FirstWinnerIsFirstLine | src/game/ai/AIPlayer.ts:64-76 | the selector's winner is the mark of the first line the board engine reports |
| AI.CheckWinnerForBoardSpec | src/game/ai/AIPlayer.ts:64-76 | the result is `Empty` if and only if no pattern is completed; otherwise it is the mark of a completed pattern |
| AI.OnlyMoverCompletes | src/game/ai/AIPlayer.ts:64-76 | on a grid without a line, a move can only complete lines of the mover's mark |
| AI.ReduceFrom | src/game/ai/AIPlayer.ts:55-61 | the fold returns its seed or a later element, and neither the seed nor any later element strictly beats it |
| AI.Reduce | src/game/ai/AIPlayer.ts:55-61 | `reduce` returns one of the candidates, and no candidate strictly beats it |
| AI.ReduceFromFirstBest | src/game/ai/AIPlayer.ts:55-61 | the fold with a strict comparison returns the first element of best score |
| AI.ReduceFirstBest | src/game/ai/AIPlayer.ts:55-61 | `reduce` keeps the first element with the maximal (or minimal) score |
| AI.ChildrenFrom | src/game/ai/AIPlayer.ts:41-53 | the loop yields a result whenever an empty cell remains, and every result is tagged with an empty cell at or after the loop's start |
| AI.Minimax | src/game/ai/AIPlayer.ts:29-62 | a result carries a cell exactly when no pattern is completed and some cell is empty, and that cell is a valid move |
| AI.ChildrenIndices | src/game/ai/AIPlayer.ts:41-53 | the k-th child is tagged with the k-th available move |
| AI.ChildrenScores | src/game/ai/AIPlayer.ts:43-52 | each child carries the recursive score of the board after its move |
| AI.MinimaxTerminal | src/game/ai/AIPlayer.ts:34-39 | a line for the computer scores 10 - depth, a line for the human scores -10 + depth, a full grid scores 0; none of these carries an index |
| AI.MinimaxPicksFirstBest | src/game/ai/AIPlayer.ts:29-62 | at an inner node the chosen move is valid; its score is the maximum (computer) or minimum (human) over all valid moves; no lower cell reaches it |
| AI.MinimaxInnerScore | src/game/ai/AIPlayer.ts:41-61 | at an inner node the chosen move is a valid cell and the node's score is the score of the board after that move |
| AI.MinimaxScoreBound | src/game/ai/AIPlayer.ts:37-50 | a node at depth d scores between -(10 - d) and 10 - d |
| AI.InnerScoreBound | src/game/ai/AIPlayer.ts:41-61 | an inner node at depth d scores within 10 - (d + 1) |
| AI.ChildScoreBound | src/game/ai/AIPlayer.ts:43-52 | a child of a node at depth d scores within 10 - (d + 1) |
| AI.ImmediateWinChosen | src/game/ai/AIPlayer.ts:29-62 | with no line on the grid, the search picks the lowest cell that completes a line for the computer at once |
| AI.GetBestMove | src/game/ai/AIPlayer.ts:11-21 | above the difficulty: a valid random move, or none on a full grid. Otherwise: the minimax move, valid on a live grid, or 0 when minimax gives no index |
| AI.FullDifficultyAlwaysSearches | src/game/ai/AIPlayer.ts:11-21 | at difficulty 1 the random branch is never taken |
| AI.BestMoveTakesImmediateWin | src/game/ai/AIPlayer.ts:11-21 | on the search path, an immediately winning cell is always chosen, the lowest one first |
| Cards.NatToString | src/game/cards/CardSystem.ts:33 | the decimal text of a number is non-empty and made of digits |
| Cards.NatToStringInjective | src/game/cards/CardSystem.ts:33 | distinct numbers give distinct texts |
| Cards.SideCards | src/game/cards/CardSystem.ts:30-53 | a side's deck is pushed with `DECK_SIZE` cards |
| Cards.SideCardIdsDistinct | src/game/cards/CardSystem.ts:30-53 | card ids are unique, within a side and across the two sides |
| Cards.SideCardsBelongToSide | src/game/cards/CardSystem.ts:30-53 | each card of a side's deck has that side's type and owner |
| Cards.SideCardsDistinct | src/game/cards/CardSystem.ts:30-40 | the cards pushed for one side have pairwise different ids |
| Cards.ShuffleFrom | src/game/cards/CardSystem.ts:77-80 | each Fisher–Yates pass keeps the length and the multiset of cards |
| Cards.Shuffle | src/game/cards/CardSystem.ts:76-81 | the shuffle is a permutation |
| Cards.ShuffleDeck | src/game/cards/CardSystem.ts:76-81 | only the draw pile is reordered, as a permutation; the discard pile is kept |
| Cards.InitializeDecks | src/game/cards/CardSystem.ts:28-58 | each draw pile gains exactly its side's cards; hands and discard piles are kept |
| Cards.NewCardSystem | src/game/cards/CardSystem.ts:16-26 | each draw pile is a permutation of its side's cards; nothing is discarded; both hands are empty with the configured capacity |
| Cards.Reset | src/game/cards/CardSystem.ts:171-181 | whatever the system held, it is rebuilt as by the constructor |
| Cards.ReshuffleSide | src/game/cards/CardSystem.ts:102-111 | the draw pile becomes a permutation of the discard pile; the discard pile empties; the hand is kept; the side loses exactly its old draw pile |
| Cards.PopToHand | src/game/cards/CardSystem.ts:95-98 | the last card of the draw pile moves to the end of the hand, and nothing is lost |
| Cards.DrawFromSide | src/game/cards/CardSystem.ts:83-100 | a card is drawn if and only if the hand has room and the side has a card to draw. It comes from the end of the draw pile, or after a reshuffle when the pile is empty, and it is appended to the hand. A refusal changes nothing |
| Cards.DrawFromSideKeepsCards | src/game/cards/CardSystem.ts:83-100 | a draw keeps every card of the side |
| Cards.DrawFromSideCounts | src/game/cards/CardSystem.ts:83-100 | a successful draw takes one unit of room and one available card |
| Cards.DrawRepeatedlyKeepsCards | src/game/cards/CardSystem.ts:113-122 | repeated draws keep every card of the side and the hand's capacity |
| Cards.DrawRepeatedlyTakes | src/game/cards/CardSystem.ts:113-122 | n draws take min(n, room, available) cards, appended to the hand in draw order |
| Cards.FindCard | src/game/cards/CardSystem.ts:126 | the result is the first position with that id, or none when no card has it |
| Cards.PlayFromSide | src/game/cards/CardSystem.ts:124-135 | the first hand card with the id is removed and returned, the rest keeping their order. With no such card nothing changes. The piles are not touched |
| Cards.DiscardToSide | src/game/cards/CardSystem.ts:137-140 | the card is appended to the discard pile only |
| Cards.PlayThenDiscardKeepsPool | src/game/cards/CardSystem.ts:124-140 | playing a card and discarding it keeps every card of the side |
| Cards.FillHand | src/game/cards/CardSystem.ts:151-156 | the loop, given enough cards, fills the hand to the maximum with draws appended in order and keeps every card |
| Cards.RefillSide | src/game/cards/CardSystem.ts:142-160 | with more than one card in hand nothing happens. Otherwise the hand is filled to the maximum, the discard pile is emptied, and the side ends with every card except its old draw pile |
| Cards.RefillDropsDrawPile | src/game/cards/CardSystem.ts:147-148 | whenever the draw pile is non-empty, the refill loses exactly its cards |
| Cards.RefillLoopNeverExits | src/game/cards/CardSystem.ts:151-156 | with fewer cards than the hand needs, no number of passes fills the hand, so the loop does not end |
| Cards.ReshuffleKeepingPile | src/game/cards/CardSystem.ts:102-111 | the intended reshuffle keeps every card and empties the discard pile |
| Cards.RefillSideKeepingPile | src/game/cards/CardSystem.ts:142-160 | the intended refill keeps every card and fills the hand up to the maximum or until the cards run out |
| Cards.ReshuffleDeck | src/game/cards/CardSystem.ts:102-111 | only the chosen side is reshuffled; the other side and both capacities are kept |
| Cards.DrawCard | src/game/cards/CardSystem.ts:83-100 | the chosen side draws; the other side is untouched |
| Cards.DrawInitialHand | src/game/cards/CardSystem.ts:113-122 | min(`MAX_HAND_SIZE`, room, available) cards are drawn to the hand in order, and every card is kept |
| Cards.InitialHandOfFreshSystem | src/game/cards/CardSystem.ts:113-122 | from a fresh system, the opening hand holds three of the side's own cards and nine stay in the draw pile |
| Cards.PlayCard | src/game/cards/CardSystem.ts:124-135 | the chosen side plays the card; the other side is untouched |
| Cards.DiscardCard | src/game/cards/CardSystem.ts:137-140 | the chosen side discards the card; the other side is untouched |
| Cards.RefillHandAfterScore | src/game/cards/CardSystem.ts:142-160 | the chosen side is refilled as written; the other side is untouched |
| Cards.RefillHandKeepingPile | src/game/cards/CardSystem.ts:142-160 | the chosen side is refilled as intended; the other side is untouched |
| Scene.Create | src/game/scenes/TicTacToeScene.ts:249-277 | an empty grid, the player's turn, nothing pending, a zero score, healths 12 and 3 at their maximum, difficulty 1 |
| Scene.HandleLineCompletion | src/game/scenes/TicTacToeScene.ts:743-807 | the loser's health drops by 3 per line and the winner's damage rises by the same. The clear is scheduled at +800 and the end check at +1000. The grid and the score are kept. As written the state is kept |
| Scene.HandleTie | src/game/scenes/TicTacToeScene.ts:809-816 | only the board reset at +1500 is scheduled |
| Scene.MakeMove | src/game/scenes/TicTacToeScene.ts:696-741 | an invalid move changes nothing; a valid one places the mark and keeps the score; no pending delayed call is cancelled and the clock does not move |
| Scene.MakeMoveOutcome | src/game/scenes/TicTacToeScene.ts:720-740 | after a valid move: completed lines are handled; else a full grid schedules its reset; else the turn passes, and the computer's move is scheduled at +500 after the player's |
| Scene.HandlePlayerMove | src/game/scenes/TicTacToeScene.ts:680-688 | a click counts only while waiting for the player and only on a free cell |
| Scene.HandleAiMove | src/game/scenes/TicTacToeScene.ts:690-694 | only while the computer is thinking; at full difficulty on a live grid it plays the minimax move; no pending delayed call is cancelled |
| Scene.HandleGameEnd | src/game/scenes/TicTacToeScene.ts:879-901 | the game is over and exactly one win is counted: for the computer exactly when the player's health is gone |
| Scene.GameEndCheck | src/game/scenes/TicTacToeScene.ts:794-806 | with either health gone the game ends; otherwise it is the player's turn |
| Scene.ResetBoardOnly | src/game/scenes/TicTacToeScene.ts:903-918 | an empty grid and the player's turn; health, score and pending timers are kept |
| Scene.ResetGame | src/game/scenes/TicTacToeScene.ts:920-937 | an empty grid, fresh characters, the player's turn, the score kept. As written the pending timers stay armed; the corrected variant has none |
| Scene.SetAiDifficulty | src/game/scenes/TicTacToeScene.ts:1002-1004 | a new selector with the given difficulty; nothing else changes |
| Scene.Fire | src/game/scenes/TicTacToeScene.ts:734-836 | the clock moves to the earliest due time among the pending calls; that call leaves the list and its own callback runs on the advanced state; every other pending call stays pending, in order |
| Scene.Dispatch | src/game/scenes/TicTacToeScene.ts:734-836 | no callback moves the clock or cancels a pending call. The clear empties exactly the cells of its lines, records them, and keeps everything else. The end check ends the game with one win counted exactly when a health is gone, and otherwise only gives the player the turn; health, damage and timers are kept. The tie reset empties the grid for the player's turn and keeps everything else. The computer's move is ignored unless the computer is thinking |
| Scene.CreateEstablishes | src/game/scenes/TicTacToeScene.ts:441-463 | the fresh scene satisfies the ledger invariant |
| Scene.MakeMoveKeepsInvariant | src/game/scenes/TicTacToeScene.ts:696-741 | a move keeps the ledger (health + the opponent's damage = the maximum, damage a multiple of 3) and the score |
| Scene.LineCompletionKeepsInvariant | src/game/scenes/TicTacToeScene.ts:743-756 | the damage exchange keeps the ledger |
| Scene.FireKeepsInvariant | src/game/scenes/TicTacToeScene.ts:734-836 | a firing timer keeps the ledger and moves the score by at most one win |
| Scene.DispatchKeepsInvariant | src/game/scenes/TicTacToeScene.ts:734-836 | each delayed callback keeps the ledger and moves the score by at most one win |
| Scene.StepKeepsInvariant | src/game/scenes/TicTacToeScene.ts:680-937 | any input keeps the ledger and moves the score by at most one win |
| Scene.RunKeepsInvariant | src/game/scenes/TicTacToeScene.ts:680-937 | along any run the ledger holds, the counters never decrease, and ties stay at zero |
| Scene.CreatePhases | src/game/scenes/TicTacToeScene.ts:275-277 | the fresh scene is in a well-formed phase |
| Scene.MoveEntersPhase | src/game/scenes/TicTacToeScene.ts:720-740 | a valid move from a quiet grid lands in a well-formed phase |
| Scene.StepKeepsPhases | src/game/scenes/TicTacToeScene.ts:680-937 | in the corrected scene every input keeps the phase structure |
| Scene.AiMoveEntersPhase | src/game/scenes/TicTacToeScene.ts:690-694 | the computer's move on a live grid lands in a well-formed phase |
| Scene.FireKeepsPhases | src/game/scenes/TicTacToeScene.ts:734-836 | in the corrected scene, a firing timer keeps the phase structure |
| Scene.FireResetKeepsPhases | src/game/scenes/TicTacToeScene.ts:813-815 | the tie reset's firing lands in a well-formed phase |
| Scene.FireAiMoveKeepsPhases | src/game/scenes/TicTacToeScene.ts:734-736 | the computer move's firing lands in a well-formed phase |
| Scene.FireClearKeepsPhases | src/game/scenes/TicTacToeScene.ts:835-836 | the clear's firing lands in a well-formed phase |
| Scene.FireEndCheckKeepsPhases | src/game/scenes/TicTacToeScene.ts:794-806 | the end check's firing lands in a well-formed phase |
| Scene.ResetEntersPhase | src/game/scenes/TicTacToeScene.ts:903-918 | a board reset with nothing pending lands in a well-formed phase |
| Scene.ClearEntersPhase | src/game/scenes/TicTacToeScene.ts:835-836 | clearing the reported lines leaves a grid without lines and only the end check pending |
| Scene.EndCheckEntersPhase | src/game/scenes/TicTacToeScene.ts:794-806 | the end check leads to game over or to the player's turn, with nothing pending |
| Scene.RunKeepsPhases | src/game/scenes/TicTacToeScene.ts:680-937 | along any run of the corrected scene the phase structure holds |
| Scene.PendingClearIsCurrent | src/game/scenes/TicTacToeScene.ts:835-836 | in the corrected scene a pending clear carries exactly the lines completed on the current grid, which are not empty |
| Scene.StepScoresOnlyAtGameEnd | src/game/scenes/TicTacToeScene.ts:879-891 | in both variants the score moves only in a step that ends in game over, and then by exactly one win |
| Scene.StepScoresOncePerMatch | src/game/scenes/TicTacToeScene.ts:879-891 | in the corrected scene, wins plus the pending match credit never grow except by a new game |
| Scene.RunScoresOncePerMatch | src/game/scenes/TicTacToeScene.ts:794-807 | along any run of the corrected scene, wins counted are at most new games plus the match in play; with no new game, at most one win |
| Scene.WinScoredTwice | src/game/scenes/TicTacToeScene.ts:794-799 | as written, one winning match with a second click before its end check counts two wins |
| Scene.StaleClearWipesMark | src/game/scenes/TicTacToeScene.ts:835-836 | as written, a clear scheduled before the new-game button wipes the first mark of the next game |
| Scene.NewGameStartsQuiet | src/game/scenes/TicTacToeScene.ts:920-937 | in the corrected scene a new game has nothing pending and is in a well-formed phase |

## Left out

- Rendering, tweens, textures, status texts, resize handling and the damage animations. These are Phaser presentation that never feeds back into the rules.
- The scene's own copies of the board engine and the selector, at src/game/scenes/TicTacToeScene.ts:72-245. They behave the same as GameBoard.ts and AIPlayer.ts, so one model stands for both.
- The scene does not use the card system, so the two are modelled separately and never composed.
- Real time. Each delayed call becomes a timer due at its delay after the current event. Timers fire in due order, with ties in scheduling order, and frame granularity is ignored. Clicks are accepted only at times before every pending timer.
- `MAX_HAND_SIZE` and `DECK_SIZE`. src/game/constants/GameConstants.ts does not define them, so the card model takes them as the `Config` parameter. The intended 3 and 12 come from the card system's comments and are the `Intended` value.
- Character fields other than health, maximum health and damage, which are presentation only.
- The "tied" counter. The score's third counter is never incremented by the code: a full grid only resets the board. The model follows the code, so `Scene.RunKeepsInvariant` proves that it stays zero.
- `getHand` and `getDeckCount` return fields of the state. They are the `hand.cards` and `|deck.cards|` projections of a `Side`, not separate members.
- Scene.GetScore: returns a copy of the score, which as a value is the score itself, so it carries no contract.
- Cards.RefillSide: the loop's termination is demanded as a precondition: one card or less in hand must come with enough cards in hand and discard pile. The non-terminating case is exhibited by `Cards.RefillLoopNeverExits` instead of being modelled as a run.
- Cards.RefillHandAfterScore: carries the same termination precondition as `Cards.RefillSide`, for the same reason.
- AI.GetBestMove: an `undefined` index from the random branch on a full grid is modelled as `None`, which `makeMove`'s validity check rejects exactly as it rejects `undefined`.

## Findings

| source | as written | input that shows it | evidently intended | confidence | as-written member | corrected member |
|---|---|---|---|---|---|---|
| src/game/cards/CardSystem.ts:106 | `reshuffleDeck` overwrites the draw pile with the discard pile, so the refill after a score loses every card still in the draw pile | a side with one card in hand, three in the discard pile and eight in the draw pile: after the refill the side owns eight cards fewer | the discard pile shuffled into the remaining draw pile, so no card is lost | not executed | Cards.RefillDropsDrawPile | Cards.RefillSideKeepingPile |
| src/game/cards/CardSystem.ts:151-156 | the refill loop runs until the hand holds `MAX_HAND_SIZE` cards and `drawCard` returns `null` forever once both piles are empty | one card in hand, an empty discard pile and any draw pile, with a maximum of 3: after the reshuffle at most one card can be drawn, so the loop never exits | stop drawing when no card is left | not executed | Cards.RefillLoopNeverExits | Cards.RefillSideKeepingPile |
| src/game/scenes/TicTacToeScene.ts:743-807 | `handleLineCompletion` leaves the state at "waiting for the player", and the completed line stays on the grid until the clear at +800 | the player completes the top row at time 0 (enemy health 3 → 0) and clicks cell 5 at time 100: the top row is reported again, a second end check is scheduled, and the match counts two wins | input blocked until the end check, so one match counts one win | not executed | Scene.WinScoredTwice | Scene.RunScoresOncePerMatch |
| src/game/scenes/TicTacToeScene.ts:920-937 | `resetGame` does not cancel the pending delayed calls of the previous game | the player completes the top row at time 0, presses the new-game button at 100 and marks cell 0 at 400: the old clear fires at 800 and empties cell 0 in the new game | a new game cancels the pending calls | not executed | Scene.StaleClearWipesMark | Scene.PendingClearIsCurrent |
