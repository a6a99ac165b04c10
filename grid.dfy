/** The in-memory Connect Four board of connect4.js: its cells, the four-cell
    rays the win scan tests, the placement of a piece and the "every cell is
    filled" flag. Everything here is a pure function of a board value. */
module Grid {

  const WIDTH := 7
  const HEIGHT := 6

  datatype Option<T> = None | Some(value: T)

  /** A board cell: `null` in the source, or the number of the player whose
      piece fills it (the source writes `currPlayer`, 1 or 2, into it). */
  datatype Cell = Null | Piece(player: int)

  /** Rows are indexed by y (0 is the top row), cells within a row by x. */
  type Board = seq<seq<Cell>>

  /** HEIGHT rows of WIDTH cells each: the shape makeBoard builds. */
  predicate WellFormed(b: Board) {
    |b| == HEIGHT && forall y :: 0 <= y < HEIGHT ==> |b[y]| == WIDTH
  }

  predicate IsPlayer(p: int) {
    p == 1 || p == 2
  }

  /** The test findSpotForCol applies to a cell: it holds 1 or 2. */
  predicate Occupied(c: Cell) {
    c == Piece(1) || c == Piece(2)
  }

  /** Every cell is empty or holds one of the two players. */
  predicate CellsValid(b: Board)
    requires WellFormed(b)
  {
    forall y, x :: 0 <= y < HEIGHT && 0 <= x < WIDTH ==> b[y][x] == Null || Occupied(b[y][x])
  }

  /** Gravity: every cell below (larger y than) a filled cell is filled too. */
  predicate Stacked(b: Board)
    requires WellFormed(b)
  {
    forall y1, y2, x :: 0 <= y1 <= y2 < HEIGHT && 0 <= x < WIDTH && b[y1][x] != Null ==> b[y2][x] != Null
  }

  /** The row findSpotForCol settles on: scanning up from row 5, the first
      cell that is not occupied. Row 5 is written as a literal in the source,
      not as HEIGHT - 1. */
  predicate IsLandingRow(b: Board, x: int, y: int)
    requires WellFormed(b) && 0 <= x < WIDTH
  {
    0 <= y <= 5 && !Occupied(b[y][x]) && forall y' :: y < y' <= 5 ==> Occupied(b[y'][x])
  }

  /** All six cells of column x are occupied: findSpotForCol returns null. */
  predicate ColumnFull(b: Board, x: int)
    requires WellFormed(b) && 0 <= x < WIDTH
  {
    forall y :: 0 <= y <= 5 ==> Occupied(b[y][x])
  }

  /** A row of WIDTH `null` cells, the row makeBoard pushes. */
  function EmptyRow(): (row: seq<Cell>)
    ensures |row| == WIDTH && forall x :: 0 <= x < WIDTH ==> row[x] == Null
  {
    seq(WIDTH, _ => Null)
  }

  /** The board makeBoard builds when it starts from an empty `board`. */
  function EmptyBoard(): (b: Board)
    ensures WellFormed(b)
    ensures forall y, x :: 0 <= y < HEIGHT && 0 <= x < WIDTH ==> b[y][x] == Null
  {
    seq(HEIGHT, _ => EmptyRow())
  }

  /** The board after `board[y][x] = p`: exactly one cell differs. */
  function Place(b: Board, y: int, x: int, p: int): (r: Board)
    requires WellFormed(b) && 0 <= y < HEIGHT && 0 <= x < WIDTH
    ensures WellFormed(r)
    ensures r[y][x] == Piece(p)
    ensures forall y', x' :: 0 <= y' < HEIGHT && 0 <= x' < WIDTH && (y', x') != (y, x) ==> r[y'][x'] == b[y'][x']
  {
    b[y := b[y][x := Piece(p)]]
  }

  /** The player who moves next: `currPlayer === 1 ? 2 : 1`. */
  function NextPlayer(p: int): (q: int)
    ensures IsPlayer(q)
    ensures IsPlayer(p) ==> q != p
  {
    if p == 1 then 2 else 1
  }

  /** The four offset patterns checkForWin builds at each origin. */
  datatype Direction = Horiz | Vert | DiagDR | DiagDL

  /** The four (y, x) coordinates of one pattern from origin (y, x); they may
      fall off the board. */
  function Ray(y: int, x: int, d: Direction): seq<(int, int)> {
    match d
    case Horiz => [(y, x), (y, x + 1), (y, x + 2), (y, x + 3)]
    case Vert => [(y, x), (y + 1, x), (y + 2, x), (y + 3, x)]
    case DiagDR => [(y, x), (y + 1, x + 1), (y + 2, x + 2), (y + 3, x + 3)]
    case DiagDL => [(y, x), (y + 1, x - 1), (y + 2, x - 2), (y + 3, x - 3)]
  }

  /** (y, x) is on the board and holds a piece of p. */
  predicate OwnedAt(b: Board, p: int, y: int, x: int)
    requires WellFormed(b)
  {
    0 <= y < HEIGHT && 0 <= x < WIDTH && b[y][x] == Piece(p)
  }

  /** The source's `_win`: `cells.every(...)` with the bounds tested before the
      cell is read, so no out-of-range cell is ever read. */
  predicate Win(b: Board, p: int, cells: seq<(int, int)>)
    requires WellFormed(b)
  {
    forall i :: 0 <= i < |cells| ==>
      0 <= cells[i].0 < HEIGHT && 0 <= cells[i].1 < WIDTH && b[cells[i].0][cells[i].1] == Piece(p)
  }

  /** One origin of the scan in checkForWin: any of its four patterns wins. */
  predicate WinsAt(b: Board, p: int, y: int, x: int)
    requires WellFormed(b)
  {
    Win(b, p, Ray(y, x, Horiz)) || Win(b, p, Ray(y, x, Vert)) ||
    Win(b, p, Ray(y, x, DiagDR)) || Win(b, p, Ray(y, x, DiagDL))
  }

  /** What checkForWin reports for player p: some origin on the board wins. */
  predicate HasWin(b: Board, p: int)
    requires WellFormed(b)
  {
    exists y, x :: 0 <= y < HEIGHT && 0 <= x < WIDTH && WinsAt(b, p, y, x)
  }

  /** `row.every((value) => value !== null)`. */
  function RowFilled(row: seq<Cell>): (r: bool)
    ensures r <==> forall i :: 0 <= i < |row| ==> row[i] != Null
  {
    row == [] || (row[0] != Null && RowFilled(row[1..]))
  }

  /** The `allCells` flag of handleClick: every cell of every row is non-null. */
  function AllCells(b: Board): (r: bool)
    ensures r <==> forall y, x :: 0 <= y < |b| && 0 <= x < |b[y]| ==> b[y][x] != Null
  {
    b == [] || (RowFilled(b[0]) && AllCells(b[1..]))
  }
}
