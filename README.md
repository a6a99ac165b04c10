# Connect Four engine of connect4.js, in Dafny

This project models the game logic of a browser Connect Four game
(connect4.js). Two players take turns dropping pieces into the seven
columns of a six-row board. A piece falls to the lowest free cell of its
column. The first player with four pieces in a row (horizontally,
vertically or diagonally) wins.

The source keeps its state in two module-level variables: `board`, an
array of rows with `board[y][x]` (row 0 is the top), and `currPlayer`
(1 or 2). Here they are the fields of one `Game` object. `board` is a
`seq<seq<Cell>>` because the source builds it by pushing rows. A cell is
`Null` (the source's `null`) or `Piece(p)` for the player number written
into it.

- `grid.dfy`, module `Grid`: the board as a value. It holds the shape and
  cell invariants, the landing row of a drop, the placement
  `board[y][x] = currPlayer`, the four offset patterns of the win scan,
  `_win` (`Win`), one scan origin (`WinsAt`), the whole scan's verdict
  (`HasWin`), the player switch and the `allCells` flag.
- `connect4.dfy`, module `Connect4`: `class Game` with `makeBoard`,
  `findSpotForCol`, `checkForWin` and the board and turn logic of
  `handleClick` as methods. They keep the source's loops: nested `for`
  loops pushing nulls, the `while` loop scanning upward from row 5, and
  the nested origin loops with an early `return true`.
- `properties.dfy`, module `Properties`: lemmas about gravity, about what a
  reported win means, and worked board examples.
- `connect4.dfy` also plays one game through `HandleClick` alone
  (`VerticalWinGame`, split into the helper methods `OpeningClicks`,
  `MiddleClicks`, `QuietClick`, `WinningClicks`, `WinningClick` and
  `ClickAfterWin`).
  It shows that the method contracts determine every outcome of that game.

Behaviour kept as the source has it:

- `findSpotForCol` starts at the literal row 5, not at `HEIGHT - 1`. The
  two agree because `HEIGHT` is 6.
- The column index is never range-checked. `HandleClick` requires
  `0 <= x < WIDTH` instead.
- There is no game-over guard. `HandleClick` places a piece even after a
  win.
- The `allCells` tie flag is computed and then ignored. `HandleClick`
  returns it inside its `Continued` outcome, and nothing acts on it. There
  is no Tied status.
- A winning move does not switch `currPlayer`. Every other placed piece
  switches it with `currPlayer === 1 ? 2 : 1`.

Some things this model adds are not checks the source makes. `Valid()`
(every cell empty or a player's piece, no empty cell under a piece, the
player is 1 or 2) is a game invariant. The constructor establishes it and
`HandleClick` preserves it. The source's functions do not require it, so
only `Valid()`-dependent conclusions assume it.

## Model

| member | source | states |
|---|---|---|
| Grid.EmptyRow | connect4.js:19-22 | the row makeBoard pushes has exactly WIDTH cells, all null |
| Grid.EmptyBoard | connect4.js:17-25 | makeBoard on an empty board gives exactly HEIGHT rows of exactly WIDTH cells, all null |
| Connect4.Game.MakeBoard | connect4.js:17-25 | the new board is the old board followed by HEIGHT empty rows; currPlayer is untouched |
| Connect4.Game.constructor | connect4.js:11-12 | loading the script (these declarations, then the `makeBoard()` call at connect4.js:151) leaves an empty HEIGHT x WIDTH board, currPlayer 1, and the game invariant holding |
| Connect4.Game.FindSpotForCol | connect4.js:61-70 | the returned row is the largest y in 0..5 whose cell holds neither 1 nor 2, every row below it in column x is occupied, and null is returned exactly when all six cells are occupied; the board is only read |
| Properties.LandingRowUnique | connect4.js:61-70 | a column has at most one landing row, so the row findSpotForCol returns is determined by the board |
| Properties.NextDropLandsAbove | connect4.js:61-70 | on a stacked board, after a drop at row y the next drop into the same column lands at row y - 1, or the column is full when y was 0 |
| Grid.Place | connect4.js:102 | `board[y][x] = p` sets exactly that cell to p and leaves every other cell as it was |
| Properties.PlaceKeepsInvariants | connect4.js:94-102 | dropping a player's piece at the landing row keeps every cell empty-or-player and keeps every column stacked |
| Properties.PlaceKeepsWins | connect4.js:102 | pieces are never removed: a win for any player survives a drop into an empty cell |
| Connect4.Game.HandleClick | connect4.js:91-115 | a full column returns early with board and player unchanged; otherwise the current player's piece goes at the landing row and nowhere else; a win is reported with the mover as winner and no switch; otherwise allCells is reported and the player switches; the game invariant is preserved |
| Grid.NextPlayer | connect4.js:115 | the next player is 1 or 2, and differs from the current one when that is 1 or 2 |
| Grid.RowFilled | connect4.js:112 | `row.every(value => value !== null)` holds iff every cell of the row is non-null |
| Grid.AllCells | connect4.js:111-113 | the allCells flag holds iff every cell of every row is non-null |
| Properties.AllCellsIffNoRoom | connect4.js:111-113 | on a board of empty or player cells, allCells holds iff findSpotForCol would return null for every column |
| Connect4.Game.CheckForWin | connect4.js:119-148 | the result is true iff some origin (y, x) on the board and one of the four patterns give four cells that are all in bounds and all hold currPlayer |
| Grid.Win | connect4.js:120-133 | `_win` holds iff every listed (y, x) is in bounds and holds a piece of p; the bounds are tested before the cell is read |
| Properties.WinIffListed | connect4.js:120-133 | `_win` holds iff every cell in the list is on the board and holds a piece of p, so only which cells are listed matters, not their order |
| Properties.RayWinIffLine | connect4.js:120-142 | `_win` on a pattern holds iff its four cells, stepping from the origin by the pattern's unit step, are in bounds and hold the player |
| Properties.WinIsLine | connect4.js:137-148 | every win the scan reports is four of the player's pieces on a straight line |
| Properties.LineIsWin | connect4.js:137-148 | four of the player's pieces on a straight line in any of the eight compass directions are found by the scan |
| Properties.HasWinIffLine | connect4.js:119-148 | the scan reports a win iff four of the player's pieces stand on a straight line |
| Properties.WinNeedsFourPieces | connect4.js:119-148 | a reported win needs at least four pieces of the winner, so three in a row never counts |
| Properties.WinThroughLastPiece | connect4.js:104-107 | if the mover had no win before the drop, the full scan finds a win after it iff some winning pattern passes through the cell just filled |
| Properties.RayWinIsWin | connect4.js:144-145 | one winning pattern from an origin on the board makes the scan report a win |
| Properties.EmptyBoardHasNoWin | connect4.js:17-25 | the freshly built board has no win for any player |
| Properties.HorizontalWinExample | connect4.js:139 | pieces of player 1 at (5,0), (5,1), (5,2), (5,3) are a win |
| Properties.DiagonalWinExample | connect4.js:142 | pieces of player 1 at (5,0), (4,1), (3,2), (2,3) are a win; the down-left pattern from origin (2,3) holds four of them |
| Properties.FewPiecesNoWin | connect4.js:119-148 | a player whose pieces all lie within fewer than four cells has no win |
| Properties.ThreeInARowExample | connect4.js:137-148 | pieces of player 1 at (5,0), (5,1), (5,2) alone are not a win |
| Connect4.VerticalWinGame | connect4.js:89-148 | clicking columns 0, 1, 0, 1, 0, 1, 0 from the start makes player 1's fourth piece (row 2) a win; the turn stays with player 1, whose next click, into column 3, lands at row 5 and is announced as a win again |

## Left out

- makeHtmlBoard and placeInTable: they build and update the HTML table. They are presentation, not game logic.
- endGame: it shows an alert after a timeout. A win is modelled only as the `Won` outcome of `HandleClick`.
- Reading the column from the clicked element's id (`+evt.target.id`): this is event plumbing. The column is an integer parameter with the precondition `0 <= x < WIDTH`. The model does not cover what the source does with a non-numeric or out-of-range id.
- Connect4.Game.HandleClick: it states the new `board` as a whole value. The in-place update of one row array, and any aliasing of that array, is not modelled.
- Tie handling, game-over rejection, reset and error results for bad columns: the source has none of them, so the model has none.
