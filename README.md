# Tic-tac-toe game state machine

A Dafny model of the game logic of a browser tic-tac-toe page (`script.js`).
The page keeps four pieces of state: the nine-cell board, the player to move,
a flag saying whether the round is still being played, and a score per player.
Five handlers change that state: a click on a cell, the check for a result after
each mark, the turn switch, "reset round" and "clear scores".

- `board.dfy`, module `Board`: players, cells, the row-major 3x3 grid, the eight
  winning lines in scan order (rows, columns, diagonals), the loop that finds the
  first complete line, and the facts about boards that the game relies on.
- `game.dfy`, module `Game`: the score record and the class `Game`, whose fields
  are the page's four state variables and whose methods are the handlers. The
  object invariant `Valid()` says that while a round is being played no line is
  complete, some cell is empty and the players have taken turns.
- `scenarios.dfy`, module `Scenarios`: whole games played as a client of the
  class, each returning what it ends with so that the result is checked.

The click is split as the page splits it: `Accepts` is the guard that runs on
the click, `Commit` is the body the page defers by 50 ms, and `Click` runs both
as one step. Every proof about the game is about `Click`; `Commit` on its own is
only used to show what the delay allows (see Findings).

Two consequences of the code are worth stating. A move into the centre can
complete a row and a column at once (`Scenarios.TwoLinesAtOnce`), so the scan
order of script.js:83-92 decides which line is reported and highlighted. A ninth
move that completes a line is a win, not a draw, because the line scan runs
before the full-board test of script.js:106 (`Scenarios.DiagonalOnLastMove`).

## Model

| member | source | states |
|---|---|---|
| `Board.Other` | script.js:115 | the next player is never the one who just moved (X and O swap) |
| `Board.Complete` | script.js:87 | the test `a && a === b && b === c` on a line holds exactly when one player's mark fills all three of its cells |
| `Board.Full` | script.js:106 | the board holds no empty cell exactly when every cell holds some player's mark |
| `Board.FindWinLine` | script.js:83-92 | returns nothing exactly when no winning line has three equal non-empty cells; otherwise the index of a complete line such that every line before it in the list of script.js:26-30 is incomplete |
| `Board.EmptyGridOpen` | script.js:20 | the initial and the reset board has no complete line, has an empty cell and holds no mark of either player |
| `Board.MoverOwnsEveryWin` | script.js:94-99 | when a mark goes on an empty cell of a board with no complete line, every line complete afterwards passes through that cell and holds the new mark, so crediting the player to move credits the true winner |
| `Board.CountAfterMark` | script.js:66 | writing the current player's mark into an empty cell adds one to that player's marks and leaves the other player's unchanged |
| `Board.MoveKeepsAlternating` | script.js:66-74 | a mark by the player to move followed by the turn switch keeps the turns alternating: the player to move has as many marks as the other, or one fewer |
| `Game.Scores.Credit` | script.js:99 | crediting a player adds exactly one to that player's score and leaves the other player's score unchanged |
| `Game.Game.constructor` | script.js:20-23 | the page starts with an empty board, X to move, the round active and both scores zero, and the object invariant holds |
| `Game.Game.Accepts` | script.js:60 | the guard: nothing is accepted once the round is over, and an accepted move changes the board without replacing any mark on it |
| `Game.Game.Click` | script.js:56-76 | a click on a taken cell or after the round ended changes nothing; otherwise exactly that cell gets the mover's mark; on a complete line the round ends, the mover gains one point, the turn stays and the reported line is the first complete one; on a full board without a line the round ends in a draw with scores unchanged; otherwise the round goes on and the turn passes; every complete line holds the credited player's mark; the object invariant is kept |
| `Game.Game.Commit` | script.js:65-75 | the deferred body alone: marks the cell whatever it held, then ends the round with a win (mover credited once, first complete line reported) or a draw, or leaves it open and passes the turn only if the round is still active |
| `Game.Game.ValidateResult` | script.js:79-112 | a complete line ends the round and credits the current player once, reporting the first complete line; else a full board ends the round as a draw; else nothing changes; the board and the player to move are never changed |
| `Game.Game.SwitchPlayer` | script.js:114-118 | the player to move becomes the other player |
| `Game.Game.ResetRound` | script.js:124-138 | the board becomes all empty and the round active, the player to move and the scores are kept, and the object invariant holds |
| `Game.Game.ClearScores` | script.js:141-149 | both scores become zero, the board all empty, the round active and X is to move |
| `Scenarios.TopRowTwice` | script.js:124-146 | X@0, O@3, X@1, O@4, X@2 wins for X; a further click is ignored; after a round reset the winner starts again, a second identical round leaves the scores at 2 to 0, and clearing gives 0 to 0 with X to move |
| `Scenarios.FullBoardDraw` | script.js:105-110 | X@0, O@1, X@2, O@4, X@3, O@5, X@7, O@6, X@8 fills the board without a line and ends in a draw with no points; a second click on cell 0 is ignored |
| `Scenarios.DiagonalOnLastMove` | script.js:83-110 | a ninth move that completes the diagonal 0-4-8 is a win for X with line 6, not a draw |
| `Scenarios.TwoLinesAtOnce` | script.js:83-92 | a move into the centre that completes the middle row and the middle column reports the row, the first in scan order |
| `Scenarios.RaceOnSameCell` | script.js:60-75 | two clicks on cell 0 that both pass the guard before either commit: O's mark replaces X's and X is to move again |
| `Scenarios.RaceAfterWin` | script.js:60-75 | after X@0, O@3, X@1, O@4, clicks on cells 2 and 8 that both pass the guard credit X twice for one round |

## Findings

| source | as written | input that shows it | evidently intended | confidence | as-written member | corrected member |
|---|---|---|---|---|---|---|
| script.js:60-75 | the guard runs when the cell is clicked, but the mark is written 50 ms later without checking the cell or the active flag again | X@0, O@3, X@1, O@4, then clicks on cells 2 and 8 within 50 ms: both pass the guard, the first wins the round and the second places another X after the round is over and credits X a second time (`Scenarios.RaceAfterWin`); two clicks on one empty cell let O overwrite X (`Scenarios.RaceOnSameCell`) | a click is judged against the state left by every earlier click, so a round credits at most one point and no mark is overwritten | medium, not executed | `Game.Game.Commit` | `Game.Game.Click` |

## Left out

- The page's view: cell text and classes, the winning-cell highlight, the status line, the score display, the active-player styling and the result modal (`Outcome` carries the winner, or the index of the line the page would highlight, instead).
- Event-listener wiring, the modal's close handlers and the window click handler: they change no game state.
- Reading and parsing the cell's `data-index` attribute: the index is the type `Index`, 0 to 8.
- Timing: `Click` runs the guard and the deferred commit as one step; interleavings of commits other than the two race scenarios are not modelled.
- Scores are unbounded naturals; the page's floating-point counters would stop counting exactly after 2^53 wins.
- Game.Game.Click: requires `Valid()`. The constructor, `Click`, `ResetRound` and `ClearScores` establish it; `Commit`, `ValidateResult` and `SwitchPlayer` do not promise it, and the page's deferred commit (the race under Findings) can leave it, so the requirement holds only when each click's guard and commit run as one step.
