# Tic-Tac-Toe game rules and opponent, in Dafny

This project models the rules engine and the computer opponent of a
single-player Tic-Tac-Toe app. The human plays crosses and the computer
plays circles on a 3x3 board. The view model keeps the board as nine
optional moves, a flag that locks input while the computer "thinks", and
an end-of-game alert.

The source's view model is a single class, `GameViewModel`. Here it is split by responsibility into `Rules`, `Opponent` and `Session`. The modules are:

- `Wrappers` (`wrappers.dfy`): the `Option` type standing in for Swift's optional.
- `GameModel` (`game_model.dfy`): `Player`, the immutable `Move` value and its `Indicator` symbol name.
- `Rules` (`rules.dfy`): the pure predicates of the view model, over a board snapshot `seq<Option<Move>>`.
  These are occupancy, the win-pattern table, the win check and the draw check.
  The module also holds the board invariant `WellFormed`: slot `i` is empty or holds a move placed at `i`.
- `Opponent` (`opponent.dfy`): `determineComputerMovePosition` as a method with loops over the pattern set.
  Its result is specified by `PolicyAllows`: a free cell chosen by the order win, then block, then centre, then any free cell.
- `Session` (`session.dfy`): the class `GameViewModel`.
  Its fields are `moves` (a 9-element array), `isGameBoardDisabled` and `alertItem` (an `Alert`, one of `HumanWin | AIWin | Draw`).
  Its methods are the human move, the computer's deferred reply and the reset.
  Each keeps `Valid()`, the board invariant on the array.

Points where the code behaves differently from what a reader might expect:

- `checkForDraw` only counts filled slots. A full board is a draw even when it contains a line (`Rules.FullBoardWithLineScenario`).
- The `return` inside the animation closure after a human win does not end the human move.
  On a full board the draw alert then replaces the win alert.
  On any other board the input is locked and the computer's reply is still scheduled.
  `ProcessPlayerMove` states exactly this.
- The win patterns are a Swift `Set<Set<Int>>`, which has no iteration order.
  When several lines qualify, the model only promises the missing cell of *some* qualifying line, not the first in a fixed table order.
- `processPlayerMove` never reads `isGameBoardDisabled`. The lock is enforced by the view alone.
- `resetGame` clears only the board. It leaves the lock and the alert as they were.

## Model

| member | source | states |
|---|---|---|
| GameModel.PlayerHasTwoCases | Tic-Tac-Toe/GameModel.swift:11-13 | a player is the human or the computer; there is no other case |
| GameModel.Move.Indicator | Tic-Tac-Toe/GameModel.swift:21-24 | the symbol is "xmark" exactly for a human move and "circle" exactly for a computer move |
| GameModel.IndicatorIgnoresBoardIndex | Tic-Tac-Toe/GameModel.swift:21-24 | the symbol depends only on the player, never on the board index |
| GameModel.IndicatorsTellPlayersApart | Tic-Tac-Toe/GameModel.swift:21-24 | two moves get the same symbol exactly when the same player made them |
| Rules.EmptyBoard | Tic-Tac-Toe/GameViewModel.swift:20 | the initial board has nine empty slots and satisfies the board invariant |
| Rules.IsSquareOccupied | Tic-Tac-Toe/GameViewModel.swift:69-72 | the slot scan is true iff some slot holds a move whose board index is the queried index |
| Rules.OccupiedIffSlotFilled | Tic-Tac-Toe/GameViewModel.swift:69-70 | on a board satisfying the invariant, cell `c` is occupied iff slot `c` is filled |
| Rules.Positions | Tic-Tac-Toe/GameViewModel.swift:140-143 | the set of board indices of a player's moves (also built at lines 86-87 and 102-103); on a board satisfying the invariant it is exactly the cells whose slot holds that player's move at that cell |
| Rules.PatternsAreLines | Tic-Tac-Toe/GameViewModel.swift:137 | the pattern set equals the eight lines built from the grid's geometry (rows `3r..3r+2`, columns `c, c+3, c+6`, the two diagonals), all within cells 0..8 |
| Rules.CheckWinCondition | Tic-Tac-Toe/GameViewModel.swift:135-149 | a player has won iff all three cells of some row, column or diagonal are among their positions |
| Rules.WinIffLineOwned | Tic-Tac-Toe/GameViewModel.swift:135-149 | a player has won iff they hold all three cells of one of the eight lines |
| Rules.FilledCount | Tic-Tac-Toe/GameViewModel.swift:155 | the count of non-empty slots is at most the board length, and equals it iff every slot is filled |
| Rules.CheckForDraw | Tic-Tac-Toe/GameViewModel.swift:151-156 | on a nine-slot board, the draw check is true iff all nine slots are filled, with no condition on winners |
| Rules.FilledCountUpdate | Tic-Tac-Toe/GameViewModel.swift:155 | filling one empty slot raises the filled count by exactly one |
| Rules.PlaceKeepsWellFormed | Tic-Tac-Toe/GameViewModel.swift:29 | a move written into its own free cell keeps the board invariant and fills one more slot |
| Rules.TopRowScenario | Tic-Tac-Toe/GameViewModel.swift:135-156 | after human 0, computer 4, human 1, computer 7, human 2, the human has won, the computer has not, and there is no draw |
| Rules.FullBoardWithoutLineScenario | Tic-Tac-Toe/GameViewModel.swift:135-156 | a full board without a line is a draw and neither player has won |
| Rules.FullBoardWithLineScenario | Tic-Tac-Toe/GameViewModel.swift:151-156 | a full board on which the human holds the top row still counts as a draw |
| Opponent.FindCompletion | Tic-Tac-Toe/GameViewModel.swift:91-99 | the pattern loop returns a free cell in 0..8 that completes some line of the given player, or nothing only when no such cell exists |
| Opponent.DetermineComputerMovePosition | Tic-Tac-Toe/GameViewModel.swift:81-133 | given a free cell, the result is a free cell in 0..8: a winning cell if one exists, else a blocking cell, else the centre if free |
| Opponent.PolicyPicksEmptySlot | Tic-Tac-Toe/GameViewModel.swift:96-97 | on a board satisfying the invariant, the chosen cell's slot is empty, so no move is ever overwritten |
| Opponent.EmptyBoardTakesCenter | Tic-Tac-Toe/GameViewModel.swift:117-121 | on an empty board the computer's move is the centre, cell 4 |
| Opponent.LinesShareAtMostOneCell | Tic-Tac-Toe/GameViewModel.swift:84 | two different win patterns have at most one cell in common |
| Opponent.WinningCellCompletesLine | Tic-Tac-Toe/GameViewModel.swift:91-97 | on a board satisfying the invariant, a cell that misses one of a player's patterns by one is empty, and playing it gives that player a won board |
| Opponent.WinFirst | Tic-Tac-Toe/GameViewModel.swift:91-99 | on every board where the computer can finish a line, the chosen cell finishes one, whatever the human threatens |
| Opponent.BlockSecond | Tic-Tac-Toe/GameViewModel.swift:101-115 | on every board where the computer cannot finish a line but the human can, the chosen cell is one where the human's move would have won |
| Opponent.WinBeforeBlock | Tic-Tac-Toe/GameViewModel.swift:91-115 | example: on `WinOrBlockBoard` (computer at 3 and 4, human at 0, 1 and 8), the human threatens 2 and the computer takes 5 |
| Opponent.BlockWhenNoWin | Tic-Tac-Toe/GameViewModel.swift:101-115 | example: on `BlockBoard` (human at 0 and 1, computer at 4), the computer cannot win and takes 2 |
| Session.GameViewModel.constructor | Tic-Tac-Toe/GameViewModel.swift:20-22 | a new session has an empty board, input unlocked and no alert |
| Session.GameViewModel.ProcessPlayerMove | Tic-Tac-Toe/GameViewModel.swift:24-47 | an occupied cell changes nothing; otherwise only slot `position` changes, receiving the human's move. A full board then gets the draw alert even after a win; otherwise a win gets the win alert, input is locked and the reply is scheduled |
| Session.GameViewModel.ComputerTurn | Tic-Tac-Toe/GameViewModel.swift:47-64 | the reply writes the computer's move into exactly one previously empty slot chosen by the policy, unlocks input, and raises the loss alert on a computer win, else the draw alert on a full board |
| Session.GameViewModel.ResetGame | Tic-Tac-Toe/GameViewModel.swift:158-160 | the board becomes nine empty slots whatever it was before, so a second reset changes nothing; the lock and the alert are unchanged |

## Left out

- The SwiftUI view (`GameView.swift`) is not modelled: layout, tap gestures, the reset button and the alert wiring. Taps call `ProcessPlayerMove`, the reset button and the alert's button call `ResetGame`, and the view honours `isGameBoardDisabled`.
- The alert templates (`Alerts.swift`) are not modelled: their titles, messages and ids. The `Alert` enum stands in for them.
- The grid column layout and the spring animation are left out. They are presentation only.
- The half-second delay of the computer's reply is left out. `ProcessPlayerMove` returns `scheduled` where the source dispatches the closure, and the caller runs `ComputerTurn` when it fires. Interleavings of that closure with a reset are whatever order the caller chooses.
- Opponent.DetermineComputerMovePosition: the random fallback is any free cell, chosen nondeterministically. Uniformity and the termination of the rejection loop are not modelled. The method therefore requires a free cell; on a full board the source's loop would never end, and the human step never schedules a reply on a full board.
- Opponent.FindCompletion: the source writes the win loop and the block loop out twice; the model runs one loop twice, once on the computer's positions and once on the human's.
- The alert's dismissal is not modelled. The view's `.alert(item:)` binding (`GameView.swift:82`) sets `alertItem` back to nil when the alert is dismissed; the model has no such step, so after a finished game and `ResetGame` its `alertItem` still holds the last outcome.
- Session.GameViewModel.ProcessPlayerMove: requires `0 <= position < 9`. The source would trap on an out-of-range index when writing the slot (`GameViewModel.swift:29`); the grid only ever passes 0..8 (`GameView.swift:30-36`), so the trap is not modelled.
- Session.GameViewModel.ComputerTurn: requires `Valid()` and a free slot, which every state the methods produce provides, except a full board, where the source's random loop would never end.
