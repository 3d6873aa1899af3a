# connect4app game engine in Dafny

This project models the `Game` class of connect4app (`src/util/Game.js`), the engine behind the app's Connect Four board. The class has three jobs:

- it keeps a 6-line by 7-column grid of numbers, where 0 is an empty cell, any other number a player's chip, and line 0 the top line;
- it drops a chip into a column under gravity;
- it decides whether some player has four chips in a row horizontally, vertically or along either diagonal.

The model is in three modules:

- `Grid` (grid.dfy) holds the board as a value (`seq<seq<int>>`) and the pure queries over it. These are the column fold of `getColumn`, the transpose, `getLine`, the loop of `getLowestEmptyLine` and the diagonal builders and collectors. It also states `playChip` as a function `Play` on board values, the specification the class method is proved against. Out-of-range reads that JavaScript answers with `undefined` are written as `Option`s. The thrown errors are a `Result`.
- `WinCheck` (win.dfy) models `isConnectArray`, `checkForWinInArray`, `getAllArrays` and `checkForWin` on board values. Its main theorem, `WinnerCharacterization`, says the result is non-zero exactly when the grid holds four equal non-zero cells in a row in one of the four directions, and that the result then names such a player.
- `Engine` (engine.dfy) holds the class `Game`, which keeps the grid in an `array2<int>`. `playChip` is a `modifies` method that overwrites one cell of that array. The read-only queries are the loops the source writes, each proved equal to the function from `Grid` or `WinCheck`. The ghost field `cells` is the array's contents as a value; `Valid()` ties the two together. The module ends with the move sequences the source's callers rely on, played through the class: a fresh game has no winner; three chips in column 0 are no win; the fourth one wins.

Two behaviours of the source are kept as written and stated only where they hold:

- `getLowestEmptyLine` returns the line just above the highest chip in the column. That line is the lowest empty cell only when the column obeys gravity. `LowestEmptyLineUnderGravity` states this under that condition, and `LowestEmptyLineIgnoresGapsBelow` shows a column without gravity where it fails.
- `checkForWinInArray` treats every non-zero value as a player, negative values included (`Winning`, `FourInARow`).

## Model

| member | source | states |
|---|---|---|
| Engine.Game.constructor | src/util/Game.js:8-15 | the game is 6 lines by 7 columns and every cell of the fresh grid is 0 |
| Grid.EmptyBoard | src/util/Game.js:11-14 | the board the constructor pushes has `h` lines of `w` cells, all of them 0 |
| Engine.Game.GetBoard | src/util/Game.js:17-19 | the value returned holds, line by line, exactly the cells of the array |
| Grid.Pick | src/util/Game.js:31-34 | the reduce in getColumn yields one entry per line, and entry `r` is cell `c` of line `r` |
| Grid.GetColumn | src/util/Game.js:29-35 | fails with "Column out of boundary" exactly when `c` is outside `[0, width)`; otherwise it returns `height` entries, and entry `r` is `board[r][c]` |
| Grid.Transposed | src/util/Game.js:21-27 | `width` columns of `height` cells, and column `c` is what getColumn(c) returns |
| Grid.TransposedAt | src/util/Game.js:21-27 | entry `[c][r]` of the transpose is cell `[r][c]` of the board, for every line `r` and column `c` |
| Grid.TransposedTwice | src/util/Game.js:21-27 | transposing the transpose gives the board back, so the column view loses nothing |
| Engine.Game.GetBoardTransposed | src/util/Game.js:21-27 | the loop of getColumn calls returns the transpose of the grid: entry `[c][r]` is `board[r, c]`, and the grid is not written |
| Grid.GetLineAsWritten | src/util/Game.js:37-40 | the guard as written fails exactly for indices outside `[0, width)`; it returns line `l` when `l < height` and `undefined` when `height <= l < width` |
| Grid.GetLineGuardLetsLineSixThrough | src/util/Game.js:38 | on the 6 x 7 board, index 6 passes the written guard and reads `undefined`, while the corrected getLine rejects it |
| Grid.GetLine | src/util/Game.js:37-40 | with the guard on `height`: fails exactly for indices outside `[0, height)`, and otherwise returns the `width` cells of line `l` |
| Grid.GetLineAgreesWithAsWritten | src/util/Game.js:37-40 | where both guards admit an index, the written and the corrected getLine return the same line |
| Grid.ScanDown | src/util/Game.js:45-52 | the loop from line `i` stops at the first line at or after `i` that is the last line or has a non-zero (or undefined) successor, and finds one exactly when `i < height` |
| Grid.LowestEmptyLine | src/util/Game.js:42-54 | null exactly when `column[0] !== 0` (or the height is 0); otherwise the least line that is the last one or whose successor is not 0 |
| Engine.Game.GetLowestEmptyLine | src/util/Game.js:42-54 | the loop with its early break returns what `LowestEmptyLine` specifies |
| Grid.LowestEmptyLineAboveIsEmpty | src/util/Game.js:45-52 | the line found and every line above it hold 0 |
| Grid.LowestEmptyLineUnderGravity | src/util/Game.js:42-54 | in a column under gravity, the line found is empty and every cell below it holds a chip: it is the lowest empty cell |
| Grid.LowestEmptyLineIgnoresGapsBelow | src/util/Game.js:45-52 | without gravity the line found need not be the lowest empty one: in `[0, 1, 0]` it is line 0 |
| Grid.SettledBelow | src/util/Game.js:45-52 | in a column under gravity, every cell below a chip holds a chip |
| Grid.GravitySettlesColumns | src/util/Game.js:56-64 | gravity on the board means gravity in each column getColumn returns |
| Grid.Play | src/util/Game.js:56-64 | a move fails exactly when the column is out of range ("Column out of boundary") or its top cell is not 0 ("Column is full"), and otherwise gives a board of the same shape |
| Grid.PlayChangesOneCell | src/util/Game.js:56-64 | a successful move writes `p` into the one cell `(l, c)`, where `l` is what getLowestEmptyLine returns for column `c`; that cell was empty and every other cell is unchanged |
| Grid.PlayLandsOnLowestEmpty | src/util/Game.js:56-64 | under gravity, the chip lands on the lowest empty cell of the column |
| Grid.PlayKeepsGravity | src/util/Game.js:56-64 | a move on a board under gravity gives a board under gravity |
| Grid.PlayColumnRoundTrip | src/util/Game.js:56-64 | after a move, getColumn(c) is the old column with `p` at line `l`, and every other column is as it was |
| Grid.PlayFillsOneEmptyCell | src/util/Game.js:56-64 | a move with a chip leaves its column with exactly one empty cell fewer |
| Engine.Game.PlayChip | src/util/Game.js:56-64 | the new grid is what `Play` gives, and on an error the array is unchanged; on success only `board[l, c]` changes, from 0 to `playerId`; gravity is kept |
| WinCheck.IsConnectArray | src/util/Game.js:139-141 | for four or more entries: true exactly when the first four are equal; false for one to three entries (undefined compared with a number); true for the empty array |
| WinCheck.ScanWindows | src/util/Game.js:69-74 | the loop from offset `k` returns the value of the first winning window at or after `k`, or 0 when there is none |
| WinCheck.WinInArray | src/util/Game.js:66-76 | 0 for fewer than four entries; non-zero exactly when some window of four is four equal non-zero values, and then the value of the first such window |
| Engine.Game.CheckForWinInArray | src/util/Game.js:66-76 | the loop over the windows, with its early return, computes `WinInArray` |
| Grid.Diagonal | src/util/Game.js:78-102 | null exactly when the run from `(l, c)` has fewer than four cells (`min(h-l, w-c)` to the right, `min(h-l, c+1)` to the left); otherwise exactly that many cells |
| Grid.DiagonalCells | src/util/Game.js:85-87 | cell `k` of the run is `board[l+k][c+k]` (right) or `board[l+k][c-k]` (left), and it lies on the board |
| Engine.Game.GetDiagonalByHighestCellDescendingRight | src/util/Game.js:78-89 | the push loop returns the descending-right run from `(l, c)` as `Diagonal` specifies it |
| Engine.Game.GetDiagonalByHighestCellDescendingLeft | src/util/Game.js:91-102 | the push loop returns the descending-left run from `(l, c)` as `Diagonal` specifies it |
| Grid.Starts | src/util/Game.js:107-113 | the starting cells the collectors visit, in order: along the top line, then down the first column (right) or the last column (left) |
| Grid.Collect | src/util/Game.js:104-130 | the collector loops over the first `n` starts keep at most one run per start |
| Grid.CollectStep | src/util/Game.js:108-109 | visiting one more start appends its run when it is not null, and adds nothing otherwise |
| Grid.CollectTopStep | src/util/Game.js:107-110 | one pass of the top-line loop appends the run from its start when that run is not null, and adds nothing otherwise |
| Grid.CollectSideStep | src/util/Game.js:111-114 | one pass of the side-column loop appends the run from its start when that run is not null, and adds nothing otherwise |
| Grid.CollectKeepsAll | src/util/Game.js:104-130 | when every start has a run of four or more, each start contributes its run, in order |
| Grid.CollectKeepsNone | src/util/Game.js:104-130 | when no start has a run of four, nothing is collected |
| Grid.CollectFromStart | src/util/Game.js:104-130 | every run collected is the run built from one of the visited starts |
| Grid.AllDiagonalsCount | src/util/Game.js:104-130 | on a board of at least 4 x 4 each direction yields `h + w - 7` runs of at least four cells; on a smaller board none |
| Engine.Game.GetAllDiagonalsDescendingRight | src/util/Game.js:104-116 | the two loops return the descending-right runs of every start, in visiting order |
| Engine.Game.GetAllDiagonalsDescendingLeft | src/util/Game.js:118-130 | the two loops return the descending-left runs of every start, in visiting order |
| Grid.AllDiagonals | src/util/Game.js:104-130 | getAllDiagonalsDescendingRight / Left: the non-null runs of the visited starts, in visiting order (its count and run lengths are stated by `AllDiagonalsCount`) |
| Grid.Diagonals | src/util/Game.js:132-137 | getAllDiagonals holds at most one run per start of either direction, the descending-left runs first |
| Grid.DiagonalsOnStandardBoard | src/util/Game.js:132-137 | on 6 x 7 each direction yields 6 runs, getAllDiagonals yields 12, all of at least four cells, the descending-left ones first |
| Engine.Game.GetAllDiagonals | src/util/Game.js:132-137 | the descending-left runs followed by the descending-right runs: `2 * (height + width - 7)` runs of at least four cells on a board of at least 4 x 4 |
| Engine.Game.GetAllLines | src/util/Game.js:143-149 | the loop of getLine calls, with the guard as written, returns the lines of the grid top to bottom; `Valid()` records that the grid is no taller than wide, so the width guard admits every line |
| Engine.Game.GetAllColumns | src/util/Game.js:151-157 | the columns of the grid, left to right: entry `[c][r]` is `board[r, c]` |
| WinCheck.AllArrays | src/util/Game.js:159-164 | the scan covers `height + width` lines and columns followed by all the diagonals |
| Engine.Game.GetAllArrays | src/util/Game.js:159-164 | the concatenation of getAllLines, getAllColumns and getAllDiagonals is `AllArrays` of the grid |
| WinCheck.ScanHoldsLine | src/util/Game.js:160 | array `r < height` of the scan is line `r` |
| WinCheck.ScanHoldsColumn | src/util/Game.js:161 | array `height + c` of the scan is column `c` |
| WinCheck.ScanHoldsDiagonal | src/util/Game.js:162 | array `height + width + m` of the scan is diagonal `m` of getAllDiagonals |
| WinCheck.Winner | src/util/Game.js:166-173 | checkForWin on the board value: a non-zero result is what some scanned array reports, and 0 means no scanned array reports a win |
| WinCheck.FirstWin | src/util/Game.js:168-171 | the loop from array `i` returns the non-zero result of the first array that has one, or 0 when none has |
| WinCheck.LineWindow | src/util/Game.js:160 | a winning window of a line is a horizontal four-in-a-row on the board |
| WinCheck.ColumnWindow | src/util/Game.js:161 | a winning window of a column is a vertical four-in-a-row on the board |
| WinCheck.DiagonalWindow | src/util/Game.js:78-102 | a winning window of a run is a diagonal four-in-a-row in the run's direction |
| WinCheck.CollectedRunWindow | src/util/Game.js:104-130 | a winning window of any collected run is a diagonal four-in-a-row |
| WinCheck.SlantRunWindow | src/util/Game.js:104-130 | a winning window of any run of one direction is a diagonal four-in-a-row |
| WinCheck.DiagonalsWindow | src/util/Game.js:132-137 | a winning window of any run of getAllDiagonals is a diagonal four-in-a-row |
| WinCheck.WinningArrayIsFourInARow | src/util/Game.js:159-164 | a winning window of any scanned array is four equal non-zero cells in a row on the board |
| WinCheck.LineArrayWindow | src/util/Game.js:160 | a winning window of a line array of the scan is a horizontal four-in-a-row |
| WinCheck.ColumnArrayWindow | src/util/Game.js:161 | a winning window of a column array of the scan is a vertical four-in-a-row |
| WinCheck.DiagonalArrayWindow | src/util/Game.js:162 | a winning window of a diagonal array of the scan is a diagonal four-in-a-row |
| WinCheck.WinnerHasFourInARow | src/util/Game.js:166-173 | a non-zero result of checkForWin is a player with four in a row on the board |
| WinCheck.WinningArrayReported | src/util/Game.js:166-173 | a winning window in any scanned array makes checkForWin non-zero |
| WinCheck.CellOfFour | src/util/Game.js:166-173 | each of the four cells of a four-in-a-row lies on the board and holds the player |
| WinCheck.RunHoldsFour | src/util/Game.js:78-102 | four equal cells down a diagonal from a run's start form a winning window of that run |
| WinCheck.RunOfStart | src/util/Game.js:104-130 | on a board of at least 4 x 4 the run from the `i`-th start is the `i`-th run collected |
| WinCheck.LeftRunInScan | src/util/Game.js:132-137 | the `i`-th descending-left run is array `height + width + i` of the scan |
| WinCheck.RightRunInScan | src/util/Game.js:132-137 | the `i`-th descending-right run is array `height + width + (height + width - 7) + i` of the scan, after all the descending-left runs |
| WinCheck.RightStartOf | src/util/Game.js:104-116 | a cell with three more cells down and to the right of it lies at offset `k` of the run from one of the visited starts, with four cells of that run from `k` on |
| WinCheck.LeftStartOf | src/util/Game.js:118-130 | a cell with three more cells down and to the left of it lies at offset `k` of the run from one of the visited starts, with four cells of that run from `k` on |
| WinCheck.RightRunWinning | src/util/Game.js:104-116 | a down-right four-in-a-row is a winning window of the run of some visited start |
| WinCheck.LeftRunWinning | src/util/Game.js:118-130 | a down-left four-in-a-row is a winning window of the run of some visited start |
| WinCheck.HorizontalCovered | src/util/Game.js:143-149 | a horizontal four-in-a-row makes checkForWin non-zero |
| WinCheck.VerticalCovered | src/util/Game.js:151-157 | a vertical four-in-a-row makes checkForWin non-zero |
| WinCheck.DownRightCovered | src/util/Game.js:104-116 | a down-right four-in-a-row makes checkForWin non-zero |
| WinCheck.DownLeftCovered | src/util/Game.js:118-130 | a down-left four-in-a-row makes checkForWin non-zero |
| WinCheck.FourInARowIsReported | src/util/Game.js:166-173 | every four-in-a-row on the board, in any direction, makes checkForWin non-zero |
| WinCheck.WinnerCharacterization | src/util/Game.js:166-173 | checkForWin is non-zero exactly when some line, column or diagonal holds four equal non-zero cells in a row, and it then returns a player who has four in a row |
| WinCheck.OnlyPlayerWins | src/util/Game.js:166-173 | when `p` is the only player with four in a row, checkForWin returns `p` |
| Engine.Game.CheckForWin | src/util/Game.js:166-173 | the loop with its early return computes the first hit in the order lines, columns, descending-left runs, descending-right runs; it is non-zero exactly when some player has four in a row, and then it names one |
| Engine.PlayOntoStack | src/util/Game.js:56-64 | dropping `p` into column 0 on a stack of `k < 6` chips of `p` gives the stack of `k + 1` |
| Engine.StackOfThreeHasNoFour | src/util/Game.js:166-173 | three stacked chips are no four-in-a-row in any direction |
| Engine.FreshBoardHasNoWinner | src/util/Game.js:166-173 | a grid of zeros has no winner |
| Engine.StackOfThreeHasNoWinner | src/util/Game.js:166-173 | checkForWin is 0 with three stacked chips of one player in column 0 |
| Engine.StackOfFourWins | src/util/Game.js:166-173 | checkForWin returns `p` with four stacked chips of `p` in column 0 |
| Engine.FreshGameHasNoWinner | src/util/Game.js:8-15 | checkForWin on a newly constructed game returns 0 |
| Engine.FourChipsInColumnZero | src/util/Game.js:56-64 | in a fresh game, after three playChip calls of `p` into column 0 checkForWin returns 0, and after the fourth it returns `p` |

## Left out

- `src/components/Board.js` is not part of this model. The React component alternates turns through `setState` callbacks, calls the synaptic and convnetjs neural networks for the bot and holds display state.
- `randomChoice` in `src/util/Helper.js` and the random-column retry loop in `Board.js` are not modelled: they depend on `Math.random`.
- `src/components/Score.js` and `src/components/BotChoice.js` are presentation only.
- `isBoardFull`, `getConvolutionnalVol` and `get1DArrayFormatted` are called by `Board.js` but are not defined in `Game.js`. They are not modelled.
- Engine.Game.GetBoard: returns the grid's contents as a value, while the source returns a reference to `this.board` that callers could write through. Aliasing through it (and through the rows `getLine` returns) is not modelled.
- Engine.Game.GetLowestEmptyLine: null and undefined are both `None`. `playChip` treats them alike.
- Engine.Game.GetDiagonalByHighestCellDescendingRight: requires a start with `lineIndex >= 0` and `columnIndex >= 0`, the only starts the source passes. With `lineIndex < 0` and a run of four or more, the source's first push reads `this.board[lineIndex]`, which is `undefined`, and indexing it throws a TypeError (`src/util/Game.js:86`). With `columnIndex < 0` it reads `undefined` cells. The model has neither behaviour.
- Engine.Game.GetDiagonalByHighestCellDescendingLeft: requires `lineIndex >= 0` and `columnIndex < width`, the only starts the source passes. With `lineIndex < 0` and a run of four or more, the source throws a TypeError on its first push (`src/util/Game.js:99`, `this.board[lineIndex]` is `undefined`). With `columnIndex >= width` it reads `undefined` cells. The model has neither behaviour.
- Numbers are unbounded integers. The source's cells only ever hold small player ids, so JavaScript's floating-point numbers add no behaviour here. Non-integer cell values are not modelled.
- Gravity is not part of `Valid()`. A caller holding the reference from `getBoard` could break it. It is proved as a property that `PlayChip` keeps.
- The three errors the source throws are `Err` results (`Grid.Error`), and `PlayChip` returns them as a `Fail` outcome. Exception propagation through callers is not modelled.

## Findings

| source | as written | input that shows it | evidently intended | confidence | as-written member | corrected member |
|---|---|---|---|---|---|---|
| src/util/Game.js:38 | `getLine` rejects `lineIndex >= this.width` | `getLine(6)` on the 6 x 7 board returns `undefined` instead of throwing "Line out of boundary" | reject `lineIndex >= this.height` | high, not executed | Grid.GetLineGuardLetsLineSixThrough | Grid.GetLine |
