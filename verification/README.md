# Tic-tac-toe game-state machine in Dafny

This project models `TicTacToeGame`, the game logic of a two-player
tic-tac-toe program, and proves properties of it. The GUI around it is not
modelled. The game keeps an N×N board of moves and a list of winning
combinations derived from the board geometry. It also keeps a cyclic rotation
over the players, a winner flag and the winning combination. It answers three
questions: is a move valid, has someone won, is the game tied. It changes
state in three ways: apply a move, hand the turn to the next player, reset.

Files and modules:

- `rules.dfy` (module `Rules`): the `Player` and `Move` records and the board
  as a value (`seq<seq<Move>>`). It derives the winning combinations the way
  the source does: row coordinates, then columns through a transpose, then the
  diagonal of the rows, then the diagonal of the reversed columns. It also
  holds the win test (the set of a combination's labels has one element and
  that element is not `""`) and `FirstWin`, the first won combination in
  combination order.
- `rotation.dfy` (module `Rotation`): the player cycle, as an index into the
  player list that advances with `(i + 1) % len`.
- `game.dfy` (module `Game`): class `TicTacToeGame`. The board is an
  `array2<Move>`. The winner flag, the winning combination, the current player
  and the rotation index are fields. Each method is proved against the `Rules`
  functions through the ghost view `Board()`.
- `properties.dfy` (module `Properties`): lemmas that relate operations. A new
  win lies on a combination through the cell just played, and all its cells
  carry that move's label. A win survives later plays on unplayed cells. When
  the game is over, no move is valid. Filling any row of a fresh board wins
  with that row's combination.
- `scenarios.dfy` (module `Scenarios`): two whole 3×3 games. One is won on the
  top row after X:(0,0), O:(1,1), X:(0,1), O:(2,2), X:(0,2). The other fills
  the board as X O X / X O O / O X X with no winner, which is a tie.

The source's `label` field is called `mark` here because `label` is a Dafny
keyword.

## Model

| member | source | states |
|---|---|---|
| `Rules.FreshBoard` | tictactoe.py:43-47 | the set-up board is n×n and cell (r, c) holds `Move(r, c, "")` |
| `Rules.Place` | tictactoe.py:82-84 | writing a move changes exactly the cell at the move's coordinates, which then holds the move; every other cell and the board's shape are unchanged |
| `Rules.WinningCombos` | tictactoe.py:54-62 | for size n there are exactly 2n+2 combinations, each n long: combination k is row k, (k, 0..n-1); combination n+k is column k, (0..n-1, k); then the diagonal (i, i); then the anti-diagonal (i, n-1-i). The source derives them through transpose and reverse; this contract gives the explicit geometry |
| `Rules.WinningCombosWellFormed` | tictactoe.py:54-62 | every coordinate of every combination is on the board, and no combination names a cell twice |
| `Rules.IsWinIffUniform` | tictactoe.py:86-87 | the source's set test (one distinct label, and it is not `""`) holds exactly when the combination is non-empty, its first label is played, and every label equals the first |
| `Rules.UnplayedCellBlocksWin` | tictactoe.py:86-87 | a combination that contains an unplayed cell is not won |
| `Rules.MixedLabelsBlockWin` | tictactoe.py:86-87 | a combination that contains two different labels is not won |
| `Rules.FirstWin` | tictactoe.py:85-91 | the scan returns the index of a won combination, and no earlier combination is won; or it returns None, and no combination is won |
| `Rules.FirstWinAt` | tictactoe.py:85-91 | if combination i is won and none before it is, the scan stops at i |
| `Rules.NoWin` | tictactoe.py:85-91 | if no combination is won, the scan finds none |
| `Rotation.Advance` | tictactoe.py:109-110 | one step of the cycle moves to the next index, and from the last index wraps to the first |
| `Rotation.AdvanceTimes` | tictactoe.py:109-110 | k steps of the cycle always stay within the player list |
| `Rotation.StepsWithinLap` | tictactoe.py:109-110 | k ≤ len steps from i reach i+k, or i+k-len once past the end |
| `Rotation.FullLap` | tictactoe.py:32-34 | as many steps as there are players bring the rotation back to its start |
| `Rotation.TwoPlayerSteps` | tictactoe.py:109-110 | with two players, k steps from i reach i when k is even and the other index when k is odd |
| `Rotation.TwoPlayersParity` | tictactoe.py:109-110 | with two distinct players, k toggles bring back the starting player if and only if k is even |
| `Game.TicTacToeGame.constructor` | tictactoe.py:31-48 | a new game has the given players and size, every cell `Move(r, c, "")`, the combinations derived for that size, no winner, an empty winning combination, and the first player to move |
| `Game.TicTacToeGame.IsValidMove` | tictactoe.py:69-73 | a move is valid if and only if no winner is recorded and its cell's label is `""`; as a function it changes no state |
| `Game.TicTacToeGame.HasWinner` | tictactoe.py:94-95 | the winner flag is set exactly when the winning combination is non-empty, and a recorded combination is one of the game's winning combinations |
| `Game.TicTacToeGame.RowPlayedFrom` | tictactoe.py:102-105 | the scan along row r from column c holds exactly when every cell there is labelled |
| `Game.TicTacToeGame.RowsPlayedFrom` | tictactoe.py:102-105 | the scan over the rows from row r holds exactly when every cell in those rows is labelled |
| `Game.TicTacToeGame.IsTied` | tictactoe.py:100-105 | the game is tied if and only if no winner is recorded and every cell's label is non-empty; as a function it changes no state |
| `Game.TicTacToeGame.ProcessMove` | tictactoe.py:82-91 | the move replaces its own cell and no other; the turn is unchanged; if some combination is won afterwards, the winner flag is set and the winning combination is the first won one in order; otherwise both winner fields keep their previous values |
| `Game.TicTacToeGame.FindFirstWin` | tictactoe.py:85-91 | the loop over the combinations, with early exit, yields the index of the first combination whose label set is one played label, or none when no combination is won |
| `Game.TicTacToeGame.LabelsOf` | tictactoe.py:86 | the label set built in the loop is exactly the set of labels on the combination's cells |
| `Game.TicTacToeGame.TogglePlayer` | tictactoe.py:109-110 | the rotation index advances one step of the cycle and the current player is the player at the new index; the winner fields are unchanged |
| `Game.TicTacToeGame.ResetGame` | tictactoe.py:115-120 | every cell becomes `Move(r, c, "")`, the winner flag is cleared and the winning combination emptied; the current player and rotation index are unchanged, and so are the size and the combinations |
| `Properties.ComboLabelsUntouched` | tictactoe.py:84-86 | playing a cell outside a combination leaves that combination's label set unchanged |
| `Properties.WinSurvivesPlay` | tictactoe.py:82-91 | a won combination is still won after a move on an unplayed cell |
| `Properties.NewWinGoesThroughMove` | tictactoe.py:82-91 | a win that appears with a move on a board with no won combination lies on a combination through that move's cell, and every cell of it carries the move's label |
| `Properties.NoWinBeforePlay` | tictactoe.py:82-91 | if nothing is won after a move on an unplayed cell, nothing was won before it |
| `Properties.GameOverAdmitsNoMove` | tictactoe.py:69-73 | once a winner is recorded or the game is tied, no move is valid |
| `Properties.TieExcludesWin` | tictactoe.py:100-105 | a tied game has no winner and every cell of its board is labelled |
| `Properties.FreshBoardIsOpen` | tictactoe.py:43-47 | a fresh board of size at least 1 (after construction or reset) is neither full nor won |
| `Properties.PlayAll` | tictactoe.py:82-84 | playing a sequence of moves keeps the board square and of the same size |
| `Properties.PlayAllSnoc` | tictactoe.py:82-84 | playing one more move after a sequence is placing it on the board the sequence produced |
| `Properties.PlayRowFrom` | tictactoe.py:82-84 | playing row r from column c onward with one label sets exactly those cells and leaves the rest unchanged |
| `Properties.CompletingRowWins` | tictactoe.py:82-91 | filling row r of a fresh board with a played label makes row r's combination the first won one, and that combination is (r, 0..n-1) |
| `Scenarios.Combos3` | tictactoe.py:54-62 | the eight 3×3 combinations, in order: three rows, three columns, the diagonal and the anti-diagonal |
| `Scenarios.TopRowAfterFourOpen` | tictactoe.py:85-91 | after X:(0,0), O:(1,1), X:(0,1), O:(2,2) no combination is won |
| `Scenarios.TopRowAfterFiveWon` | tictactoe.py:85-91 | after X then plays (0,2), the first won combination is combination 0 |
| `Scenarios.TopRowRest` | tictactoe.py:69-73 | from any point of the top-row game before its last move, nothing is won yet, every remaining move is valid when played, and the game ends on the board X X X / . O . / . . O |
| `Scenarios.TopRowGameIsWonByTopRow` | tictactoe.py:82-91 | in the five-move game every move is valid when played, and the recorded winning combination is [(0,0), (0,1), (0,2)] |
| `Scenarios.DrawnFinalOpen` | tictactoe.py:100-105 | the board X O X / X O O / O X X is full and no combination is won |
| `Scenarios.DrawnRest` | tictactoe.py:69-73 | from any point of the drawn game, every remaining move is valid when played, and the game ends on the full board with nothing won |
| `Scenarios.DrawnGameIsTied` | tictactoe.py:100-105 | the nine alternating moves are all valid, fill the board and leave no combination won, so the game is tied |

## Left out

- The tkinter GUI class `TicTacToeBoard` (tictactoe.py:127-248), `main` and the entry point (tictactoe.py:254-262). They are presentation and process start-up; they only call into the game.
- `Player.color`: carried as an uninterpreted string; the game never reads it.
- Python's lazy `itertools.cycle` is modelled as an index into the player list, advanced modulo its length. The list is fixed at construction, as the tuple the cycle was built from is.
- The constructor's default arguments (`DEFAULT_PLAYERS`, `BOARD_SIZE`) are the constants `Game.DefaultPlayers` and `Game.DefaultBoardSize`; Dafny has no default arguments, so callers pass them.
- `_setup_board` is folded into the constructor. It is only called from there.
- Game.TicTacToeGame.constructor: requires a non-empty player list. In the source an empty list makes the first `next` on the cycle raise `StopIteration`; that failure is not modelled.
- Game.TicTacToeGame.constructor: the board size is a `nat`. In the source a negative size gives empty ranges and behaves like size 0, apart from the stored attribute.
- Game.TicTacToeGame.IsValidMove: requires the row and column to be in [0, size). The source does no bounds checking: a negative index wraps around to the end of a Python list, and a too-large index raises `IndexError`.
- Game.TicTacToeGame.ProcessMove: requires the row and column to be in [0, size), for the same reason.
- `winner_combo` shares its list with the entry of `_winning_combos` in the source. No code mutates either list, so the model stores the combination as a value.
