# Connect Four game engine in Dafny

This project models the game-state engine of a browser Connect Four script
(`connect4.js`). Two players take turns dropping pieces into the seven
columns of a six-row board. A piece falls to the lowest empty cell of its
column. The first player with four pieces in a row (horizontally,
vertically or diagonally) wins. A full top row is a tie.

The script keeps its state in two globals: `const board` (rows of cells,
`board[y][x]`, row 0 at the top) and `let currPlayer` (1 or 2). Here they
are the fields of class `Connect4.Game`: a `const board: array2<int>` and a
`var currPlayer: int`. An empty cell is `EMPTY` (0), standing for the
script's `null`. Everything else is stated on `Grid` values, which are
board snapshots (`seq<seq<int>>`) that the class exposes through the ghost
function `Game.Cells`.

- `makeBoard` is `Game.MakeBoard`, a nested loop that empties every cell.
  The constructor plays the part of script start-up (`currPlayer = 1`,
  then `makeBoard()`).
- `findSpotForCol` is `Game.FindSpotForCol`, the down-counting loop with
  its early returns. `null` becomes `None`.
- `_win` is `Game.Win`, a short-circuiting loop over the four coordinates,
  as `every` is. It is specified by the predicate `Owns`.
- `checkForWin` is `Game.CheckForWin`, the nested row/column scan. It is
  specified by `HasWin`, and the fall-through `undefined` is `false`.
- The non-display part of `handleClick` is `Game.HandleClick`. The two
  `endGame` calls and the ignored click become an `Outcome`: `Ignored`,
  `Won(p)`, `Tied` or `NextTurn`.

The script has no game-over latch, and neither does the model. After a win,
`currPlayer` no longer changes, and every later successful click reports
the same win again (`WonStaysWon`). A full board makes every later click
`Ignored`.

The script has no game status. Nothing refuses a move after a win or a
tie, there is no reset, and the board is fixed at 6 × 7. The win scan
covers the whole board. `NewWinUsesLastPiece` shows that scanning only the
lines through the last piece would find the same new wins.

## Model

| member | source | states |
|---|---|---|
| `Connect4.Game.constructor` | connect4.js:8-12 | A new game has a HEIGHT × WIDTH board and player 1 to move (the declarations at lines 8-12). Its cells are all empty because it runs `MakeBoard`, as the script's start-up call `makeBoard()` at line 151 does. The new game satisfies the game invariant (gravity, legal cells, a player to move). |
| `Connect4.Game.MakeBoard` | connect4.js:17-25 | After the nested fill loops, the board equals the empty grid: every one of the HEIGHT × WIDTH cells is empty. |
| `Connect4.EmptyGrid` | connect4.js:17-25 | The starting board has exactly HEIGHT rows of WIDTH cells, and every cell is empty. |
| `Connect4.EmptyGridIsStart` | connect4.js:17-25 | The empty board respects gravity, holds only legal cells, does not have a full top row, is not full and contains no win for either player. |
| `Connect4.Game.FindSpotForCol` | connect4.js:59-74 | Returns None exactly when every cell of column x is occupied. Otherwise it returns the row that is empty with every cell below it occupied, i.e. the largest empty row. Under gravity, every cell above that row is empty, so the piece lands on top of the stack. The loop never runs past row 0. |
| `Connect4.Place` | connect4.js:107 | Writing a piece changes exactly one cell: cell (y, x) holds the player and every other cell keeps its value. |
| `Connect4.PlaceKeepsGravity` | connect4.js:98-107 | Writing a piece into the landing row of a column preserves the gravity invariant. |
| `Connect4.PlaceKeepsCellsOk` | connect4.js:107 | Writing a player's piece keeps every cell either empty or holding player 1 or 2. |
| `Connect4.Toggle` | connect4.js:123 | The turn switch always yields a player, and for a player it yields the other one. |
| `Connect4.Game.Win` | connect4.js:128-134 | True exactly when every given coordinate is on the board and holds the current player. |
| `Connect4.Game.CheckForWin` | connect4.js:127-149 | True exactly when some start cell and one of the four directions (0,+1), (+1,0), (+1,+1), (+1,−1) give four coordinates that are all on the board and all hold the current player. |
| `Connect4.OwnsLineIffRun` | connect4.js:139-142 | A listed line passes the `_win` test exactly when both of its ends are on the board and its four cells hold the player, so no line that leaves the board is accepted. |
| `Connect4.StraightRunIsFourInARow` | connect4.js:139-142 | A run of four in any of the eight directions is, read from whichever end points down or right, a run in one of the four scanned directions. |
| `Connect4.WinIffStraightRun` | connect4.js:137-148 | The scan reports a win exactly when four pieces of the player lie on a straight line of the board in any of the eight directions, so scanning only four directions misses nothing. |
| `Connect4.WinIffFourInARow` | connect4.js:137-148 | The bounds-checked scan reports a win exactly when four pieces of the player lie in a straight run whose ends are both on the board. Lines that would cross an edge never count. |
| `Connect4.NewWinUsesLastPiece` | connect4.js:137-148 | If the player had no win before a piece was placed and has one after, some winning line passes through the cell just filled. |
| `Connect4.Game.HandleClick` | connect4.js:92-124 | A click on a full column changes neither the board nor the player. Otherwise the current player's piece goes into the landing row and no other cell changes. The outcome is a win if the scan finds one, else a tie if row 0 has no empty cell, else the next turn. The player toggles only in the last case. The game invariant is preserved. |
| `Connect4.TopRowFullIffBoardFull` | connect4.js:114-120 | Under gravity, the tie test on row 0 is equivalent to every cell of the board being occupied. |
| `Connect4.TopRowFullNeedsGravity` | connect4.js:114-120 | Without gravity the row-0 shortcut fails: some board has a full top row but is not full. |
| `Connect4.WonStaysWon` | connect4.js:107-112 | Once the player has a win, any further piece of that player leaves the win in place and the click again reports that player as the winner, because nothing latches the game over. |
| `Connect4.DropsStackUp` | connect4.js:59-74 | In a new game, HEIGHT successive clicks on one column land in rows 5, 4, 3, 2, 1, 0, and the next click on that column is ignored. |

## Left out

- `makeHtmlBoard`, `placeInTable` and the final `makeHtmlBoard()` call build and update the page. They are display code with no effect on the game state.
- `endGame` only shows an `alert`. Its two call sites are modelled as the returned `Outcome` (`Won(p)` or `Tied`).
- Event handling in `handleClick` (`evt.target.id` and the unary `+` that turns the cell id into a number) is not modelled. `HandleClick` takes an integer column in `[0, WIDTH)`, which is what a click on one of the column-top cells gives. The listener sits on the whole `column-top` row (connect4.js:33-35). A click that reaches the row itself would give `+"column-top"`, which is NaN. `findSpotForCol(NaN)` returns 5, because `board[5][NaN]` is undefined. `placeInTable(5, NaN)` then throws at connect4.js:83, before the board write at connect4.js:107, so the state stays as it was. Whether such a click can happen depends on the page's styling, which is not part of this model.
- `makeBoard`'s return value (the global board itself) is dropped. The script never uses it.
- JavaScript's `null` and `undefined` are not modelled. A cell is an integer with 0 for empty, which has the same truthiness as `null` against players 1 and 2. `checkForWin`'s `undefined` result is `false`.
- The board is allocated once with its final shape. The script instead starts from an empty array and grows the rows in `makeBoard`. Only the filled board is ever read.
