/** What the board logic of connect4.js guarantees: gravity in the drop, the
    placement keeping the board's invariants, and what a win reported by the
    origin-by-origin scan means geometrically. */
module Properties {
  import opened Grid

  /** A step of one cell in any of the eight compass directions. */
  predicate IsStep(dy: int, dx: int) {
    -1 <= dy <= 1 && -1 <= dx <= 1 && (dy != 0 || dx != 0)
  }

  /** Four cells on a straight line from (y, x) in direction (dy, dx), all on
      the board and all holding p. */
  predicate FourInLine(b: Board, p: int, y: int, x: int, dy: int, dx: int)
    requires WellFormed(b)
  {
    OwnedAt(b, p, y, x) && OwnedAt(b, p, y + dy, x + dx) &&
    OwnedAt(b, p, y + 2 * dy, x + 2 * dx) && OwnedAt(b, p, y + 3 * dy, x + 3 * dx)
  }

  /** The cells that hold a piece of p. */
  ghost function Pieces(b: Board, p: int): set<(int, int)>
    requires WellFormed(b)
  {
    set y, x | 0 <= y < HEIGHT && 0 <= x < WIDTH && b[y][x] == Piece(p) :: (y, x)
  }

  // ---------------------------------------------------------------- gravity

  /** Placing a player's piece at the landing row keeps every cell valid and
      keeps the column stacked. */
  lemma PlaceKeepsInvariants(b: Board, x: int, y: int, p: int)
    requires WellFormed(b) && 0 <= x < WIDTH && IsPlayer(p)
    requires CellsValid(b) && Stacked(b) && IsLandingRow(b, x, y)
    ensures CellsValid(Place(b, y, x, p)) && Stacked(Place(b, y, x, p))
  {
  }

  /** On a stacked board, dropping into column x again lands one row higher,
      or finds the column full once the top row is taken. */
  lemma NextDropLandsAbove(b: Board, x: int, y: int, p: int)
    requires WellFormed(b) && 0 <= x < WIDTH && IsPlayer(p)
    requires CellsValid(b) && Stacked(b) && IsLandingRow(b, x, y)
    ensures y == 0 ==> ColumnFull(Place(b, y, x, p), x)
    ensures y > 0 ==> IsLandingRow(Place(b, y, x, p), x, y - 1)
  {
  }

  /** A column has at most one landing row. */
  lemma LandingRowUnique(b: Board, x: int, y1: int, y2: int)
    requires WellFormed(b) && 0 <= x < WIDTH
    requires IsLandingRow(b, x, y1) && IsLandingRow(b, x, y2)
    ensures y1 == y2
  {
  }

  /** The tie flag holds exactly when no column has room left. */
  lemma AllCellsIffNoRoom(b: Board)
    requires WellFormed(b) && CellsValid(b)
    ensures AllCells(b) <==> forall x :: 0 <= x < WIDTH ==> ColumnFull(b, x)
  {
    if forall x :: 0 <= x < WIDTH ==> ColumnFull(b, x) {
      forall y, x | 0 <= y < |b| && 0 <= x < |b[y]| ensures b[y][x] != Null {
        assert ColumnFull(b, x);
      }
    }
  }

  // ---------------------------------------------------------------- wins

  /** A ray whose cells all lie outside the changed cell wins on the new board
      exactly when it won on the old one. */
  lemma WinAwayFromPlace(b: Board, y: int, x: int, p: int, q: int, cells: seq<(int, int)>)
    requires WellFormed(b) && 0 <= y < HEIGHT && 0 <= x < WIDTH
    requires (y, x) !in cells
    ensures Win(Place(b, y, x, p), q, cells) <==> Win(b, q, cells)
  {
  }

  /** `_win` depends only on which cells are listed, not on their order or
      repetition: it holds iff every listed cell is on the board and holds p. */
  lemma WinIffListed(b: Board, p: int, cells: seq<(int, int)>)
    requires WellFormed(b)
    ensures Win(b, p, cells) <==> forall c :: c in cells ==> OwnedAt(b, p, c.0, c.1)
  {
  }

  /** The empty board has no win for anyone. */
  lemma EmptyBoardHasNoWin(p: int)
    ensures !HasWin(EmptyBoard(), p)
  {
    var b := EmptyBoard();
    forall y, x, d | 0 <= y < HEIGHT && 0 <= x < WIDTH ensures !Win(b, p, Ray(y, x, d)) {
      assert !OwnedAt(b, p, Ray(y, x, d)[0].0, Ray(y, x, d)[0].1);
    }
  }

  /** The unit step of each offset pattern. */
  function StepOf(d: Direction): (int, int) {
    match d
    case Horiz => (0, 1)
    case Vert => (1, 0)
    case DiagDR => (1, 1)
    case DiagDL => (1, -1)
  }

  /** A pattern wins from origin (y, x) exactly when the four cells from
      (y, x) along its step all hold p. */
  lemma RayWinIffLine(b: Board, p: int, y: int, x: int, d: Direction)
    requires WellFormed(b)
    ensures Win(b, p, Ray(y, x, d)) <==> FourInLine(b, p, y, x, StepOf(d).0, StepOf(d).1)
  {
    var cells := Ray(y, x, d);
    var dy, dx := StepOf(d).0, StepOf(d).1;
    assert cells == [(y, x), (y + dy, x + dx), (y + 2 * dy, x + 2 * dx), (y + 3 * dy, x + 3 * dx)];
    if FourInLine(b, p, y, x, dy, dx) {
      forall i | 0 <= i < |cells| ensures OwnedAt(b, p, cells[i].0, cells[i].1) {
        if i == 0 {} else if i == 1 {} else if i == 2 {} else {}
      }
    } else if Win(b, p, cells) {
      assert OwnedAt(b, p, cells[0].0, cells[0].1);
      assert OwnedAt(b, p, cells[1].0, cells[1].1);
      assert OwnedAt(b, p, cells[2].0, cells[2].1);
      assert OwnedAt(b, p, cells[3].0, cells[3].1);
      assert false;
    }
  }

  /** Pieces are never removed, so a win already on the board survives any
      drop into an empty cell. */
  lemma PlaceKeepsWins(b: Board, y: int, x: int, p: int, q: int)
    requires WellFormed(b) && 0 <= y < HEIGHT && 0 <= x < WIDTH
    requires b[y][x] == Null && HasWin(b, q)
    ensures HasWin(Place(b, y, x, p), q)
  {
    var oy, ox :| 0 <= oy < HEIGHT && 0 <= ox < WIDTH && WinsAt(b, q, oy, ox);
    var d := WinningDirection(b, q, oy, ox);
    RayWinIffLine(b, q, oy, ox, d);
    LineSurvivesPlace(b, y, x, p, q, oy, ox, StepOf(d).0, StepOf(d).1);
    RayWinIffLine(Place(b, y, x, p), q, oy, ox, d);
    RayWinIsWin(Place(b, y, x, p), q, oy, ox, d);
  }

  /** The first of the four patterns that wins at a winning origin. */
  function WinningDirection(b: Board, p: int, y: int, x: int): (d: Direction)
    requires WellFormed(b) && WinsAt(b, p, y, x)
    ensures Win(b, p, Ray(y, x, d))
  {
    if Win(b, p, Ray(y, x, Horiz)) then Horiz
    else if Win(b, p, Ray(y, x, Vert)) then Vert
    else if Win(b, p, Ray(y, x, DiagDR)) then DiagDR
    else DiagDL
  }

  /** A line of q's pieces does not pass through an empty cell, so filling
      that cell leaves the line intact. */
  lemma LineSurvivesPlace(b: Board, y: int, x: int, p: int, q: int, oy: int, ox: int, dy: int, dx: int)
    requires WellFormed(b) && 0 <= y < HEIGHT && 0 <= x < WIDTH
    requires b[y][x] == Null && FourInLine(b, q, oy, ox, dy, dx)
    ensures FourInLine(Place(b, y, x, p), q, oy, ox, dy, dx)
  {
  }

  /** Some winning pattern for p passes through (y, x): the only lines an
      optimised check would look at after a drop into (y, x). */
  predicate WinsThrough(b: Board, p: int, y: int, x: int)
    requires WellFormed(b)
  {
    exists oy, ox, d :: 0 <= oy < HEIGHT && 0 <= ox < WIDTH && Win(b, p, Ray(oy, ox, d)) && (y, x) in Ray(oy, ox, d)
  }

  /** Checking only the lines through the piece just dropped is equivalent to
      the full scan, provided the mover had no win before the drop. */
  lemma WinThroughLastPiece(b: Board, y: int, x: int, p: int)
    requires WellFormed(b) && 0 <= y < HEIGHT && 0 <= x < WIDTH
    requires !HasWin(b, p)
    ensures HasWin(Place(b, y, x, p), p) <==> WinsThrough(Place(b, y, x, p), p, y, x)
  {
    var r := Place(b, y, x, p);
    if HasWin(r, p) {
      var oy, ox :| 0 <= oy < HEIGHT && 0 <= ox < WIDTH && WinsAt(r, p, oy, ox);
      var d := WinningDirection(r, p, oy, ox);
      if (y, x) !in Ray(oy, ox, d) {
        WinAwayFromPlace(b, y, x, p, p, Ray(oy, ox, d));
        RayWinIsWin(b, p, oy, ox, d);
        assert false;
      }
    } else if WinsThrough(r, p, y, x) {
      ThroughIsWin(r, p, y, x);
      assert false;
    }
  }

  /** One winning pattern from an origin on the board is a win. */
  lemma RayWinIsWin(b: Board, p: int, oy: int, ox: int, d: Direction)
    requires WellFormed(b) && 0 <= oy < HEIGHT && 0 <= ox < WIDTH && Win(b, p, Ray(oy, ox, d))
    ensures HasWin(b, p)
  {
    assert WinsAt(b, p, oy, ox) by {
      match d
      case Horiz =>
      case Vert =>
      case DiagDR =>
      case DiagDL =>
    }
  }

  /** A winning pattern through any cell is a win found by the full scan. */
  lemma ThroughIsWin(b: Board, p: int, y: int, x: int)
    requires WellFormed(b) && WinsThrough(b, p, y, x)
    ensures HasWin(b, p)
  {
    var oy, ox, d :| 0 <= oy < HEIGHT && 0 <= ox < WIDTH && Win(b, p, Ray(oy, ox, d)) && (y, x) in Ray(oy, ox, d);
    RayWinIsWin(b, p, oy, ox, d);
  }

  /** Every win the scan reports is a straight line of four. */
  lemma WinIsLine(b: Board, p: int)
    requires WellFormed(b) && HasWin(b, p)
    ensures exists y, x, dy, dx :: IsStep(dy, dx) && FourInLine(b, p, y, x, dy, dx)
  {
    var y, x :| 0 <= y < HEIGHT && 0 <= x < WIDTH && WinsAt(b, p, y, x);
    var d := WinningDirection(b, p, y, x);
    RayWinIffLine(b, p, y, x, d);
    assert IsStep(StepOf(d).0, StepOf(d).1);
  }

  /** A straight line of four in any of the eight compass directions is found
      by the scan: a line that runs left or upward is found from its far end. */
  lemma LineIsWin(b: Board, p: int, y: int, x: int, dy: int, dx: int)
    requires WellFormed(b) && IsStep(dy, dx) && FourInLine(b, p, y, x, dy, dx)
    ensures HasWin(b, p)
  {
    var oy, ox, d;
    if dy == 1 || (dy == 0 && dx == 1) {
      oy, ox := y, x;
      d := if dy == 0 then Horiz else if dx == 0 then Vert else if dx == 1 then DiagDR else DiagDL;
    } else {
      oy, ox := y + 3 * dy, x + 3 * dx;
      d := if dy == 0 then Horiz else if dx == 0 then Vert else if dx == -1 then DiagDR else DiagDL;
    }
    assert FourInLine(b, p, oy, ox, StepOf(d).0, StepOf(d).1);
    RayWinIffLine(b, p, oy, ox, d);
    RayWinIsWin(b, p, oy, ox, d);
  }

  /** The scan of checkForWin finds a win exactly when four pieces of p stand
      in a straight line in any of the eight compass directions. */
  lemma HasWinIffLine(b: Board, p: int)
    requires WellFormed(b)
    ensures HasWin(b, p) <==> exists y, x, dy, dx :: IsStep(dy, dx) && FourInLine(b, p, y, x, dy, dx)
  {
    if HasWin(b, p) {
      WinIsLine(b, p);
    } else if exists y, x, dy, dx :: IsStep(dy, dx) && FourInLine(b, p, y, x, dy, dx) {
      var y, x, dy, dx :| IsStep(dy, dx) && FourInLine(b, p, y, x, dy, dx);
      LineIsWin(b, p, y, x, dy, dx);
      assert false;
    }
  }

  /** A subset of a finite set is no larger than the set. */
  lemma {:induction false} SubsetCard<T>(s: set<T>, t: set<T>)
    requires s <= t
    ensures |s| <= |t|
    decreases s
  {
    if s != {} {
      var e :| e in s;
      SubsetCard(s - {e}, t - {e});
    }
  }

  /** Three in a row never counts: a win needs at least four pieces of the
      winner on the board. */
  lemma WinNeedsFourPieces(b: Board, p: int)
    requires WellFormed(b) && HasWin(b, p)
    ensures |Pieces(b, p)| >= 4
  {
    WinIsLine(b, p);
    var y, x, dy, dx :| IsStep(dy, dx) && FourInLine(b, p, y, x, dy, dx);
    var line := {(y, x), (y + dy, x + dx), (y + 2 * dy, x + 2 * dx), (y + 3 * dy, x + 3 * dx)};
    assert |line| == 4;
    SubsetCard(line, Pieces(b, p));
  }

  /** If p's pieces all lie within fewer than four cells, p has no win. */
  lemma FewPiecesNoWin(b: Board, p: int, cells: set<(int, int)>)
    requires WellFormed(b) && |cells| < 4
    requires forall y, x :: 0 <= y < HEIGHT && 0 <= x < WIDTH && b[y][x] == Piece(p) ==> (y, x) in cells
    ensures !HasWin(b, p)
  {
    SubsetCard(Pieces(b, p), cells);
    if HasWin(b, p) {
      WinNeedsFourPieces(b, p);
    }
  }

  // ---------------------------------------------------------------- scenarios

  /** The board holds player 1's pieces exactly on s1, player 2's exactly on
      s2, and nothing elsewhere. */
  predicate Holds(b: Board, s1: set<(int, int)>, s2: set<(int, int)>)
    requires WellFormed(b)
  {
    forall y, x :: 0 <= y < HEIGHT && 0 <= x < WIDTH ==>
      b[y][x] == if (y, x) in s1 then Piece(1) else if (y, x) in s2 then Piece(2) else Null
  }

  /** The empty board holds no pieces. */
  lemma HoldsEmpty()
    ensures Holds(EmptyBoard(), {}, {})
  {
  }

  /** Dropping p's piece on an empty cell adds that cell to p's set. */
  lemma HoldsPlace(b: Board, s1: set<(int, int)>, s2: set<(int, int)>, y: int, x: int, p: int)
    requires WellFormed(b) && 0 <= y < HEIGHT && 0 <= x < WIDTH && IsPlayer(p)
    requires Holds(b, s1, s2) && (y, x) !in s1 && (y, x) !in s2
    ensures Holds(Place(b, y, x, p), if p == 1 then s1 + {(y, x)} else s1, if p == 2 then s2 + {(y, x)} else s2)
  {
  }

  /** Under a known layout, column x lands at y when (y, x) is free and every
      cell below it, down to row 5, is taken. */
  lemma HoldsLanding(b: Board, s1: set<(int, int)>, s2: set<(int, int)>, x: int, y: int)
    requires WellFormed(b) && 0 <= x < WIDTH && 0 <= y <= 5 && Holds(b, s1, s2)
    requires (y, x) !in s1 && (y, x) !in s2
    requires forall y' :: y < y' <= 5 ==> (y', x) in s1 || (y', x) in s2
    ensures IsLandingRow(b, x, y)
  {
  }

  /** Under a known layout, a player with fewer than four pieces has no win. */
  lemma HoldsNoWin(b: Board, s1: set<(int, int)>, s2: set<(int, int)>, p: int)
    requires WellFormed(b) && Holds(b, s1, s2) && IsPlayer(p)
    requires |if p == 1 then s1 else s2| < 4
    ensures !HasWin(b, p)
  {
    FewPiecesNoWin(b, p, if p == 1 then s1 else s2);
  }


  /** Player 1's pieces on (5,0), (5,1), (5,2), (5,3) of an empty board. */
  function HorizontalBoard(): (b: Board)
    ensures WellFormed(b)
  {
    Place(Place(Place(Place(EmptyBoard(), 5, 0, 1), 5, 1, 1), 5, 2, 1), 5, 3, 1)
  }

  /** Player 1's pieces on (5,0), (4,1), (3,2), (2,3) of an empty board. */
  function DiagonalBoard(): (b: Board)
    ensures WellFormed(b)
  {
    Place(Place(Place(Place(EmptyBoard(), 5, 0, 1), 4, 1, 1), 3, 2, 1), 2, 3, 1)
  }

  /** Player 1's pieces on (5,0), (5,1), (5,2) of an empty board. */
  function ThreeInARowBoard(): (b: Board)
    ensures WellFormed(b)
  {
    Place(Place(Place(EmptyBoard(), 5, 0, 1), 5, 1, 1), 5, 2, 1)
  }

  /** Four in a row along the bottom row wins horizontally. */
  lemma HorizontalWinExample()
    ensures HasWin(HorizontalBoard(), 1)
  {
    LineIsWin(HorizontalBoard(), 1, 5, 0, 0, 1);
  }

  /** The rising diagonal from (5,0) to (2,3) wins: the scan finds it from
      origin (2,3) with the down-left pattern. */
  lemma DiagonalWinExample()
    ensures Win(DiagonalBoard(), 1, Ray(2, 3, DiagDL))
    ensures HasWin(DiagonalBoard(), 1)
  {
    LineIsWin(DiagonalBoard(), 1, 5, 0, -1, 1);
  }

  /** Three in a row is not a win. */
  lemma ThreeInARowExample()
    ensures !HasWin(ThreeInARowBoard(), 1)
  {
    FewPiecesNoWin(ThreeInARowBoard(), 1, {(5, 0), (5, 1), (5, 2)});
  }
}
