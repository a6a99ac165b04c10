/** The game state of connect4.js: the module-level `board` and `currPlayer`
    become the fields of one Game object, and makeBoard, findSpotForCol,
    checkForWin and the board/turn part of handleClick become its methods. */
module Connect4 {
  import opened Grid
  import Properties

  /** What a click on a column top leads to. The source returns early on a
      full column, announces a win, or else switches players; the `allCells`
      flag it computes on that last path is reported here and acted on by
      nobody, as in the source. */
  datatype Outcome =
    | Ignored
    | Won(row: int, winner: int)
    | Continued(row: int, allCells: bool)

  class Game {
    /** `board[y][x]`: HEIGHT rows of WIDTH cells once makeBoard has run. */
    var board: Board
    /** The active player, 1 or 2. */
    var currPlayer: int

    /** The state every click keeps: a full-size board whose cells are empty
        or hold a player, with no empty cell under a piece, and a player whose
        turn it is. */
    ghost predicate Valid()
      reads this
    {
      WellFormed(board) && CellsValid(board) && Stacked(board) && IsPlayer(currPlayer)
    }

    /** Loading the script: `currPlayer = 1`, `board = []`, then makeBoard(). */
    constructor ()
      ensures Valid()
      ensures board == EmptyBoard() && currPlayer == 1
    {
      board := [];
      currPlayer := 1;
      new;
      MakeBoard();
    }

    /** Pushes HEIGHT rows of WIDTH nulls onto `board`, whatever it held. */
    method MakeBoard()
      modifies this
      ensures board == old(board) + EmptyBoard()
      ensures currPlayer == old(currPlayer)
    {
      for i := 0 to HEIGHT
        invariant board == old(board) + EmptyBoard()[..i]
        invariant currPlayer == old(currPlayer)
      {
        var row := [];
        for j := 0 to WIDTH
          invariant row == EmptyRow()[..j]
        {
          row := row + [Null];
        }
        assert row == EmptyRow();
        assert EmptyBoard()[..i + 1] == EmptyBoard()[..i] + [row];
        board := board + [row];
      }
    }

    /** Scans column x from row 5 upward for the first cell that holds
        neither player; None when all six are occupied. It changes nothing. */
    method FindSpotForCol(x: int) returns (spot: Option<int>)
      requires WellFormed(board) && 0 <= x < WIDTH
      ensures spot.Some? ==> IsLandingRow(board, x, spot.value)
      ensures spot.None? <==> ColumnFull(board, x)
    {
      var y := 5;
      while y >= 0
        invariant -1 <= y <= 5
        invariant forall y' :: y < y' <= 5 ==> Occupied(board[y'][x])
      {
        if board[y][x] != Piece(1) && board[y][x] != Piece(2) {
          return Some(y);
        }
        y := y - 1;
      }
      return None;
    }

    /** Tries every origin, row by row, and stops at the first one where one
        of the four patterns holds four of currPlayer's pieces. */
    method CheckForWin() returns (won: bool)
      requires WellFormed(board)
      ensures won <==> HasWin(board, currPlayer)
    {
      for y := 0 to HEIGHT
        invariant forall y', x' :: 0 <= y' < y && 0 <= x' < WIDTH ==> !WinsAt(board, currPlayer, y', x')
      {
        for x := 0 to WIDTH
          invariant forall y', x' :: 0 <= y' < y && 0 <= x' < WIDTH ==> !WinsAt(board, currPlayer, y', x')
          invariant forall x' :: 0 <= x' < x ==> !WinsAt(board, currPlayer, y, x')
        {
          var horiz := [(y, x), (y, x + 1), (y, x + 2), (y, x + 3)];
          var vert := [(y, x), (y + 1, x), (y + 2, x), (y + 3, x)];
          var diagDR := [(y, x), (y + 1, x + 1), (y + 2, x + 2), (y + 3, x + 3)];
          var diagDL := [(y, x), (y + 1, x - 1), (y + 2, x - 2), (y + 3, x - 3)];
          if Win(board, currPlayer, horiz) || Win(board, currPlayer, vert) ||
             Win(board, currPlayer, diagDR) || Win(board, currPlayer, diagDL)
          {
            assert WinsAt(board, currPlayer, y, x);
            return true;
          }
        }
      }
      return false;
    }

    /** The board and turn logic of a click on the top of column x: drop the
        current player's piece at the landing row, report a win without
        switching players, otherwise compute the tie flag and switch players.
        A full column leaves everything as it was. Nothing stops a move after
        a win. */
    method HandleClick(x: int) returns (outcome: Outcome)
      requires WellFormed(board) && 0 <= x < WIDTH
      modifies this
      ensures WellFormed(board)
      ensures outcome.Ignored? <==> ColumnFull(old(board), x)
      ensures outcome.Ignored? ==> board == old(board) && currPlayer == old(currPlayer)
      ensures !outcome.Ignored? ==>
        IsLandingRow(old(board), x, outcome.row) &&
        board == Place(old(board), outcome.row, x, old(currPlayer))
      ensures outcome.Won? <==> !outcome.Ignored? && HasWin(board, old(currPlayer))
      ensures outcome.Won? ==> outcome.winner == old(currPlayer) && currPlayer == old(currPlayer)
      ensures outcome.Continued? ==>
        currPlayer == NextPlayer(old(currPlayer)) && (outcome.allCells <==> AllCells(board))
      ensures old(Valid()) ==> Valid()
    {
      var spot := FindSpotForCol(x);
      if spot.None? {
        return Ignored;
      }
      var y := spot.value;
      if Valid() {
        Properties.PlaceKeepsInvariants(board, x, y, currPlayer);
      }
      board := Place(board, y, x, currPlayer);
      var won := CheckForWin();
      if won {
        return Won(y, currPlayer);
      }
      var allCells := AllCells(board);
      currPlayer := NextPlayer(currPlayer);
      return Continued(y, allCells);
    }
  }

  /** A click that lands at row y of column x and does not win, on a board
      known cell by cell: the mover had at most two pieces before it. */
  method QuietClick(g: Game, x: int, y: int, ghost s1: set<(int, int)>, ghost s2: set<(int, int)>)
    returns (ghost t1: set<(int, int)>, ghost t2: set<(int, int)>)
    requires g.Valid() && 0 <= x < WIDTH && 0 <= y <= 5 && Properties.Holds(g.board, s1, s2)
    requires (y, x) !in s1 && (y, x) !in s2
    requires forall y' :: y < y' <= 5 ==> (y', x) in s1 || (y', x) in s2
    requires |if g.currPlayer == 1 then s1 else s2| < 3
    modifies g
    ensures g.Valid() && Properties.Holds(g.board, t1, t2)
    ensures t1 == if old(g.currPlayer) == 1 then s1 + {(y, x)} else s1
    ensures t2 == if old(g.currPlayer) == 2 then s2 + {(y, x)} else s2
    ensures g.currPlayer == NextPlayer(old(g.currPlayer))
  {
    ghost var b := g.board;
    ghost var p := g.currPlayer;
    Properties.HoldsLanding(b, s1, s2, x, y);
    var o := g.HandleClick(x);
    Properties.LandingRowUnique(b, x, o.row, y);
    Properties.HoldsPlace(b, s1, s2, y, x, p);
    t1 := if p == 1 then s1 + {(y, x)} else s1;
    t2 := if p == 2 then s2 + {(y, x)} else s2;
    Properties.HoldsNoWin(g.board, t1, t2, p);
  }

  /** A game played through HandleClick alone. Player 1 drops into column 0
      and player 2 into column 1, three times each; player 1's fourth piece,
      at row 2, wins vertically. Nothing ends the game and the turn does not
      pass, so player 1 moves again, into column 3, and is announced the
      winner a second time. */
  method VerticalWinGame() returns (win: Outcome, again: Outcome)
    ensures win == Won(2, 1)
    ensures again == Won(5, 1)
  {
    var g := new Game();
    Properties.HoldsEmpty();
    OpeningClicks(g);
    MiddleClicks(g);
    win, again := WinningClicks(g, {(5, 0), (4, 0), (3, 0)}, {(5, 1), (4, 1), (3, 1)});
  }

  /** Columns 0, 1, 0, 1 on the empty board: rows 5 and 4 of each fill. */
  method OpeningClicks(g: Game)
    requires g.Valid() && g.currPlayer == 1 && Properties.Holds(g.board, {}, {})
    modifies g
    ensures g.Valid() && g.currPlayer == 1
    ensures Properties.Holds(g.board, {(5, 0), (4, 0)}, {(5, 1), (4, 1)})
  {
    ghost var s1, s2 := QuietClick(g, 0, 5, {}, {});
    s1, s2 := QuietClick(g, 1, 5, s1, s2);
    s1, s2 := QuietClick(g, 0, 4, s1, s2);
    s1, s2 := QuietClick(g, 1, 4, s1, s2);
    assert s1 == {(5, 0), (4, 0)} && s2 == {(5, 1), (4, 1)};
  }

  /** Columns 0 and 1 once more: row 3 of each fills. */
  method MiddleClicks(g: Game)
    requires g.Valid() && g.currPlayer == 1
    requires Properties.Holds(g.board, {(5, 0), (4, 0)}, {(5, 1), (4, 1)})
    modifies g
    ensures g.Valid() && g.currPlayer == 1
    ensures Properties.Holds(g.board, {(5, 0), (4, 0), (3, 0)}, {(5, 1), (4, 1), (3, 1)})
  {
    ghost var s1, s2 := QuietClick(g, 0, 3, {(5, 0), (4, 0)}, {(5, 1), (4, 1)});
    s1, s2 := QuietClick(g, 1, 3, s1, s2);
    assert s1 == {(5, 0), (4, 0), (3, 0)} && s2 == {(5, 1), (4, 1), (3, 1)};
  }

  /** Player 1's fourth piece in column 0 wins; player 1 then moves again. */
  method WinningClicks(g: Game, ghost s1: set<(int, int)>, ghost s2: set<(int, int)>)
    returns (win: Outcome, again: Outcome)
    requires g.Valid() && g.currPlayer == 1 && Properties.Holds(g.board, s1, s2)
    requires s1 == {(5, 0), (4, 0), (3, 0)} && s2 == {(5, 1), (4, 1), (3, 1)}
    modifies g
    ensures win == Won(2, 1) && again == Won(5, 1)
  {
    win := WinningClick(g, s1, s2);
    again := ClickAfterWin(g, s1 + {(2, 0)}, s2);
  }

  /** Player 1's fourth piece in column 0 lands at row 2 and wins. */
  method WinningClick(g: Game, ghost s1: set<(int, int)>, ghost s2: set<(int, int)>)
    returns (win: Outcome)
    requires g.Valid() && g.currPlayer == 1 && Properties.Holds(g.board, s1, s2)
    requires s1 == {(5, 0), (4, 0), (3, 0)} && s2 == {(5, 1), (4, 1), (3, 1)}
    modifies g
    ensures win == Won(2, 1)
    ensures g.Valid() && g.currPlayer == 1 && Properties.Holds(g.board, s1 + {(2, 0)}, s2)
    ensures HasWin(g.board, 1)
  {
    ghost var b := g.board;
    Properties.HoldsLanding(b, s1, s2, 0, 2);
    win := g.HandleClick(0);
    Properties.LandingRowUnique(b, 0, win.row, 2);
    Properties.HoldsPlace(b, s1, s2, 2, 0, 1);
    assert Properties.FourInLine(g.board, 1, 2, 0, 1, 0);
    Properties.LineIsWin(g.board, 1, 2, 0, 1, 0);
  }

  /** With the win on the board and the turn still player 1's, a click into
      column 3 lands at row 5 and is reported as a win again. */
  method ClickAfterWin(g: Game, ghost s1: set<(int, int)>, ghost s2: set<(int, int)>)
    returns (again: Outcome)
    requires g.Valid() && g.currPlayer == 1 && Properties.Holds(g.board, s1, s2) && HasWin(g.board, 1)
    requires s1 == {(5, 0), (4, 0), (3, 0), (2, 0)} && s2 == {(5, 1), (4, 1), (3, 1)}
    modifies g
    ensures again == Won(5, 1)
  {
    ghost var b := g.board;
    Properties.HoldsLanding(b, s1, s2, 3, 5);
    again := g.HandleClick(3);
    Properties.LandingRowUnique(b, 3, again.row, 5);
    Properties.PlaceKeepsWins(b, 5, 3, 1, 1);
  }
}
