/** The game-state engine of the Connect Four page script: the in-memory
    board, the gravity rule that picks the row a piece lands in, the move
    step of the click handler and the four-direction win scan.

    The script keeps its state in two globals, a `const board` (an array of
    HEIGHT rows of WIDTH cells, row 0 at the top) and `let currPlayer`; here
    they are the fields of class Game. A cell holds EMPTY (the script's
    `null`) or the number of the player whose piece is in it.
    The specification is stated on snapshots of the board (Grid values),
    which the class exposes through the ghost function Game.Cells. */
module Connect4 {

  const WIDTH: int := 7
  const HEIGHT: int := 6

  /** An unoccupied cell; the script stores `null`, which is falsy. */
  const EMPTY: int := 0

  datatype Option<T> = None | Some(value: T)

  /** A board coordinate, row first: (y, x) addresses board[y][x]. */
  type Coord = (int, int)

  /** A snapshot of the board, as rows of cells. */
  type Grid = seq<seq<int>>

  /** What one click does: ignored (full column), a win or a tie announced
      by `endGame`, or the turn passing to the other player. */
  datatype Outcome = Ignored | Won(player: int) | Tied | NextTurn

  /** The four lines tested from each start cell. */
  datatype Direction = Horiz | Vert | DiagDR | DiagDL

  predicate IsPlayer(p: int) { p == 1 || p == 2 }

  predicate InBounds(y: int, x: int) { 0 <= y < HEIGHT && 0 <= x < WIDTH }

  predicate WellFormed(g: Grid) {
    |g| == HEIGHT && forall y :: 0 <= y < HEIGHT ==> |g[y]| == WIDTH
  }

  /** Every cell is empty or holds one of the two players. */
  ghost predicate CellsOk(g: Grid)
    requires WellFormed(g)
  {
    forall y, x :: 0 <= y < HEIGHT && 0 <= x < WIDTH ==> g[y][x] == EMPTY || IsPlayer(g[y][x])
  }

  /** The gravity invariant: a cell is occupied only if every cell below it
      in the same column is occupied too. */
  ghost predicate Gravity(g: Grid)
    requires WellFormed(g)
  {
    forall y, y', x :: 0 <= y < y' < HEIGHT && 0 <= x < WIDTH && g[y][x] != EMPTY ==> g[y'][x] != EMPTY
  }

  ghost predicate ColumnFull(g: Grid, x: int)
    requires WellFormed(g) && 0 <= x < WIDTH
  {
    forall y :: 0 <= y < HEIGHT ==> g[y][x] != EMPTY
  }

  /** Row y is where a piece dropped into column x comes to rest: it is empty
      and every cell below it is occupied, so it is the largest empty row. */
  ghost predicate IsLandingRow(g: Grid, x: int, y: int)
    requires WellFormed(g) && 0 <= x < WIDTH
  {
    0 <= y < HEIGHT && g[y][x] == EMPTY &&
    forall y' :: y < y' < HEIGHT ==> g[y'][x] != EMPTY
  }

  /** The tie test of the click handler: row 0 contains no empty cell. */
  ghost predicate TopRowFull(g: Grid)
    requires WellFormed(g)
  {
    forall x :: 0 <= x < WIDTH ==> g[0][x] != EMPTY
  }

  ghost predicate BoardFull(g: Grid)
    requires WellFormed(g)
  {
    forall y, x :: 0 <= y < HEIGHT && 0 <= x < WIDTH ==> g[y][x] != EMPTY
  }

  /** The board the script builds before the first move: HEIGHT rows of
      WIDTH empty cells. */
  function EmptyGrid(): (g: Grid)
    ensures WellFormed(g)
    ensures forall y, x :: 0 <= y < HEIGHT && 0 <= x < WIDTH ==> g[y][x] == EMPTY
  {
    seq(HEIGHT, _ => seq(WIDTH, _ => EMPTY))
  }

  /** The board after writing p into cell (y, x). */
  function Place(g: Grid, y: int, x: int, p: int): (h: Grid)
    requires WellFormed(g) && InBounds(y, x)
    ensures WellFormed(h)
    ensures h[y][x] == p
    ensures forall y', x' :: 0 <= y' < HEIGHT && 0 <= x' < WIDTH && (y', x') != (y, x) ==> h[y'][x'] == g[y'][x']
  {
    g[y := g[y][x := p]]
  }

  /** The turn switch: 1 becomes 2, anything else becomes 1. */
  function Toggle(p: int): (q: int)
    ensures IsPlayer(q)
    ensures IsPlayer(p) ==> q != p
  {
    if p == 1 then 2 else 1
  }

  /** The four coordinates of the line that starts at (y, x) and runs in
      direction d, exactly as the win scan lists them. */
  function Line(y: int, x: int, d: Direction): seq<Coord> {
    match d
    case Horiz => [(y, x), (y, x + 1), (y, x + 2), (y, x + 3)]
    case Vert => [(y, x), (y + 1, x), (y + 2, x), (y + 3, x)]
    case DiagDR => [(y, x), (y + 1, x + 1), (y + 2, x + 2), (y + 3, x + 3)]
    case DiagDL => [(y, x), (y + 1, x - 1), (y + 2, x - 2), (y + 3, x - 3)]
  }

  /** The test of `_win`: every coordinate is on the board and holds p. */
  ghost predicate Owns(g: Grid, p: int, cells: seq<Coord>)
    requires WellFormed(g)
  {
    forall i :: 0 <= i < |cells| ==> InBounds(cells[i].0, cells[i].1) && g[cells[i].0][cells[i].1] == p
  }

  /** A win for p starts at (y, x) in one of the four directions. */
  ghost predicate WinStartsAt(g: Grid, p: int, y: int, x: int)
    requires WellFormed(g)
  {
    Owns(g, p, Line(y, x, Horiz)) || Owns(g, p, Line(y, x, Vert)) ||
    Owns(g, p, Line(y, x, DiagDR)) || Owns(g, p, Line(y, x, DiagDL))
  }

  /** What `checkForWin` scans for: a win starting at some cell of the board. */
  ghost predicate HasWin(g: Grid, p: int)
    requires WellFormed(g)
  {
    exists y, x :: 0 <= y < HEIGHT && 0 <= x < WIDTH && WinStartsAt(g, p, y, x)
  }

  /** The step from one cell of a line to the next. */
  function Delta(d: Direction): Coord {
    match d
    case Horiz => (0, 1)
    case Vert => (1, 0)
    case DiagDR => (1, 1)
    case DiagDL => (1, -1)
  }

  /** Four pieces of p in a row from (y, x) in direction d, with both ends
      on the board and no test on the cells in between. */
  ghost predicate RunOfFour(g: Grid, p: int, y: int, x: int, d: Direction)
    requires WellFormed(g)
  {
    var (dy, dx) := Delta(d);
    InBounds(y, x) && InBounds(y + 3 * dy, x + 3 * dx) &&
    g[y][x] == p && g[y + dy][x + dx] == p && g[y + 2 * dy][x + 2 * dx] == p && g[y + 3 * dy][x + 3 * dx] == p
  }

  /** An independent statement of four in a row: a run whose two ends lie on
      the board, so it can never run off an edge. */
  ghost predicate FourInARow(g: Grid, p: int)
    requires WellFormed(g)
  {
    exists y, x, d :: RunOfFour(g, p, y, x, d)
  }

  /** What the click handler reports once the piece of p is on board g:
      a win is tested first, then the full top row, else the turn passes. */
  ghost function Verdict(g: Grid, p: int): Outcome
    requires WellFormed(g)
  {
    if HasWin(g, p) then Won(p) else if TopRowFull(g) then Tied else NextTurn
  }

  /** Two boards with the same cells are the same board. */
  lemma SameCells(g: Grid, h: Grid)
    requires WellFormed(g) && WellFormed(h)
    requires forall y, x :: 0 <= y < HEIGHT && 0 <= x < WIDTH ==> g[y][x] == h[y][x]
    ensures g == h
  {
    forall y | 0 <= y < HEIGHT
      ensures g[y] == h[y]
    {
      assert forall x :: 0 <= x < WIDTH ==> g[y][x] == h[y][x];
    }
  }

  /** The starting board is a legal position: it respects gravity, holds
      no piece, has room in row 0 and contains no win for anyone. */
  lemma EmptyGridIsStart(p: int)
    requires IsPlayer(p)
    ensures Gravity(EmptyGrid()) && CellsOk(EmptyGrid())
    ensures !TopRowFull(EmptyGrid()) && !BoardFull(EmptyGrid())
    ensures !HasWin(EmptyGrid(), p)
  {
    var g := EmptyGrid();
    assert g[0][0] == EMPTY;
    forall y, x | 0 <= y < HEIGHT && 0 <= x < WIDTH
      ensures !WinStartsAt(g, p, y, x)
    {
      forall d: Direction ensures !Owns(g, p, Line(y, x, d)) {
        assert Line(y, x, d)[0] == (y, x);
      }
    }
  }

  /** A piece written into the landing row keeps the gravity invariant. */
  lemma PlaceKeepsGravity(g: Grid, x: int, y: int, p: int)
    requires WellFormed(g) && 0 <= x < WIDTH
    requires Gravity(g) && IsLandingRow(g, x, y) && p != EMPTY
    ensures Gravity(Place(g, y, x, p))
  {
  }

  /** Writing a legal piece keeps every cell empty or owned by a player. */
  lemma PlaceKeepsCellsOk(g: Grid, y: int, x: int, p: int)
    requires WellFormed(g) && InBounds(y, x) && CellsOk(g) && IsPlayer(p)
    ensures CellsOk(Place(g, y, x, p))
  {
  }

  /** The tie test looks only at row 0; under gravity a full top row is the
      same as a full board. */
  lemma TopRowFullIffBoardFull(g: Grid)
    requires WellFormed(g) && Gravity(g)
    ensures TopRowFull(g) <==> BoardFull(g)
  {
    if TopRowFull(g) {
      forall y, x | 0 <= y < HEIGHT && 0 <= x < WIDTH
        ensures g[y][x] != EMPTY
      {
        if y > 0 {
          assert g[0][x] != EMPTY;
        }
      }
    }
  }

  /** Without gravity the shortcut is wrong: a board whose top row is full
      can still have holes below it. */
  lemma TopRowFullNeedsGravity()
    ensures exists g: Grid :: WellFormed(g) && TopRowFull(g) && !BoardFull(g)
  {
    var row := seq(WIDTH, _ => 1);
    var g := [row] + seq(HEIGHT - 1, _ => seq(WIDTH, _ => EMPTY));
    assert g[1][0] == EMPTY;
    assert WellFormed(g) && TopRowFull(g) && !BoardFull(g);
  }

  /** A line passes `_win` exactly when it is a run of four whose ends are
      on the board. */
  lemma OwnsLineIffRun(g: Grid, p: int, y: int, x: int, d: Direction)
    requires WellFormed(g)
    ensures Owns(g, p, Line(y, x, d)) <==> RunOfFour(g, p, y, x, d)
  {
    var cells := Line(y, x, d);
    var (dy, dx) := Delta(d);
    assert cells == [(y, x), (y + dy, x + dx), (y + 2 * dy, x + 2 * dx), (y + 3 * dy, x + 3 * dx)];
    if Owns(g, p, cells) {
      assert InBounds(cells[0].0, cells[0].1) && g[cells[0].0][cells[0].1] == p;
      assert InBounds(cells[1].0, cells[1].1) && g[cells[1].0][cells[1].1] == p;
      assert InBounds(cells[2].0, cells[2].1) && g[cells[2].0][cells[2].1] == p;
      assert InBounds(cells[3].0, cells[3].1) && g[cells[3].0][cells[3].1] == p;
    }
  }

  /** The bounds-checked scan finds a win exactly when four pieces of p lie
      in a row on the board: lines that would leave the board never count. */
  lemma WinIffFourInARow(g: Grid, p: int)
    requires WellFormed(g)
    ensures HasWin(g, p) <==> FourInARow(g, p)
  {
    if HasWin(g, p) {
      var y, x :| 0 <= y < HEIGHT && 0 <= x < WIDTH && WinStartsAt(g, p, y, x);
      var d :| Owns(g, p, Line(y, x, d));
      OwnsLineIffRun(g, p, y, x, d);
    }
    if FourInARow(g, p) {
      var y, x, d :| RunOfFour(g, p, y, x, d);
      OwnsLineIffRun(g, p, y, x, d);
      assert WinStartsAt(g, p, y, x);
    }
  }

  /** Four pieces of p on a straight line of the board in any of the eight
      directions: a unit step (dy, dx), both ends on the board. */
  ghost predicate StraightRun(g: Grid, p: int, y: int, x: int, dy: int, dx: int)
    requires WellFormed(g)
  {
    -1 <= dy <= 1 && -1 <= dx <= 1 && (dy, dx) != (0, 0) &&
    InBounds(y, x) && InBounds(y + 3 * dy, x + 3 * dx) &&
    g[y][x] == p && g[y + dy][x + dx] == p && g[y + 2 * dy][x + 2 * dx] == p && g[y + 3 * dy][x + 3 * dx] == p
  }

  /** A run in any of the eight directions, read from its other end when
      it points up or left, is a run in one of the four scanned directions. */
  lemma StraightRunIsFourInARow(g: Grid, p: int, y: int, x: int, dy: int, dx: int)
    requires WellFormed(g) && StraightRun(g, p, y, x, dy, dx)
    ensures FourInARow(g, p)
  {
    if (dy, dx) == (0, 1) {
      assert RunOfFour(g, p, y, x, Horiz);
    } else if (dy, dx) == (0, -1) {
      assert RunOfFour(g, p, y, x - 3, Horiz);
    } else if (dy, dx) == (1, 0) {
      assert RunOfFour(g, p, y, x, Vert);
    } else if (dy, dx) == (-1, 0) {
      assert RunOfFour(g, p, y - 3, x, Vert);
    } else if (dy, dx) == (1, 1) {
      assert RunOfFour(g, p, y, x, DiagDR);
    } else if (dy, dx) == (-1, -1) {
      assert RunOfFour(g, p, y - 3, x - 3, DiagDR);
    } else if (dy, dx) == (1, -1) {
      assert RunOfFour(g, p, y, x, DiagDL);
    } else {
      assert RunOfFour(g, p, y - 3, x + 3, DiagDL);
    }
  }

  /** The scan of four directions misses no line: it reports a win exactly
      when four pieces of p lie on a straight line of the board in any of
      the eight directions. */
  lemma WinIffStraightRun(g: Grid, p: int)
    requires WellFormed(g)
    ensures HasWin(g, p) <==> exists y, x, dy, dx :: StraightRun(g, p, y, x, dy, dx)
  {
    WinIffFourInARow(g, p);
    if HasWin(g, p) {
      var y, x, d :| RunOfFour(g, p, y, x, d);
      assert StraightRun(g, p, y, x, Delta(d).0, Delta(d).1);
    }
    if exists y, x, dy, dx :: StraightRun(g, p, y, x, dy, dx) {
      var y, x, dy, dx :| StraightRun(g, p, y, x, dy, dx);
      StraightRunIsFourInARow(g, p, y, x, dy, dx);
    }
  }

  /** A piece of p never breaks a line of p: the cell it lands in, if it is
      part of that line, already held p. So once p has won, every further
      move of p reports Won(p) again; the script keeps no game-over flag. */
  lemma WonStaysWon(g: Grid, p: int, y: int, x: int)
    requires WellFormed(g) && InBounds(y, x) && HasWin(g, p)
    ensures HasWin(Place(g, y, x, p), p)
    ensures Verdict(Place(g, y, x, p), p) == Won(p)
  {
    var h := Place(g, y, x, p);
    var a, b :| 0 <= a < HEIGHT && 0 <= b < WIDTH && WinStartsAt(g, p, a, b);
    forall d: Direction | Owns(g, p, Line(a, b, d))
      ensures Owns(h, p, Line(a, b, d))
    {
      var cells := Line(a, b, d);
      forall i | 0 <= i < |cells|
        ensures InBounds(cells[i].0, cells[i].1) && h[cells[i].0][cells[i].1] == p
      {
        if cells[i] != (y, x) {
          assert h[cells[i].0][cells[i].1] == g[cells[i].0][cells[i].1];
        }
      }
    }
    assert WinStartsAt(h, p, a, b);
  }

  /** A line that avoids cell (y, x) is owned by p after a piece of p goes
      to (y, x) only if it was owned by p before. */
  lemma OwnsAvoidingCell(g: Grid, p: int, y: int, x: int, cells: seq<Coord>)
    requires WellFormed(g) && InBounds(y, x)
    ensures (y, x) !in cells && Owns(Place(g, y, x, p), p, cells) ==> Owns(g, p, cells)
  {
  }

  /** If p had no win before its piece went to (y, x) and has one after,
      the new winning line passes through (y, x): the whole-board scan
      finds nothing a scan of the lines through the last piece would miss. */
  lemma NewWinUsesLastPiece(g: Grid, p: int, y: int, x: int)
    requires WellFormed(g) && InBounds(y, x) && !HasWin(g, p)
    requires HasWin(Place(g, y, x, p), p)
    ensures exists a, b, d :: InBounds(a, b) && Owns(Place(g, y, x, p), p, Line(a, b, d)) && (y, x) in Line(a, b, d)
  {
    var h := Place(g, y, x, p);
    var a, b :| 0 <= a < HEIGHT && 0 <= b < WIDTH && WinStartsAt(h, p, a, b);
    var d :| Owns(h, p, Line(a, b, d));
    OwnsAvoidingCell(g, p, y, x, Line(a, b, d));
    assert !WinStartsAt(g, p, a, b);
    assert InBounds(a, b) && Owns(h, p, Line(a, b, d)) && (y, x) in Line(a, b, d);
  }

  /** The game: the board and the player whose turn it is. */
  class Game {
    /** The board; the reference never changes, only its cells. */
    const board: array2<int>
    /** The player to move, 1 or 2. */
    var currPlayer: int

    /** The board has HEIGHT rows and WIDTH columns. */
    ghost predicate Shaped() {
      board.Length0 == HEIGHT && board.Length1 == WIDTH
    }

    /** The state every sequence of moves keeps: a player to move, legal
        cells and no piece floating above an empty cell. */
    ghost predicate Valid()
      reads this, board
    {
      Shaped() && IsPlayer(currPlayer) && CellsOk(Cells()) && Gravity(Cells())
    }

    /** The current contents of the board as a value. */
    ghost function Cells(): (g: Grid)
      reads board
      requires Shaped()
      ensures WellFormed(g)
      ensures forall y, x :: 0 <= y < HEIGHT && 0 <= x < WIDTH ==> g[y][x] == board[y, x]
    {
      seq(HEIGHT, y requires 0 <= y < HEIGHT reads board =>
        seq(WIDTH, x requires 0 <= x < WIDTH reads board => board[y, x]))
    }

    /** Script start-up: player 1 moves first and `makeBoard` empties the
        board. */
    constructor ()
      ensures Valid() && fresh(board)
      ensures currPlayer == 1 && Cells() == EmptyGrid()
    {
      board := new int[HEIGHT, WIDTH];
      currPlayer := 1;
      new;
      MakeBoard();
      EmptyGridIsStart(1);
    }

    /** `makeBoard`: sets every cell of the board to empty, row by row. */
    method MakeBoard()
      requires Shaped()
      modifies board
      ensures Cells() == EmptyGrid()
    {
      for y := 0 to HEIGHT
        invariant forall y', x' :: 0 <= y' < y && 0 <= x' < WIDTH ==> board[y', x'] == EMPTY
      {
        for x := 0 to WIDTH
          invariant forall y', x' :: 0 <= y' < y && 0 <= x' < WIDTH ==> board[y', x'] == EMPTY
          invariant forall x' :: 0 <= x' < x ==> board[y, x'] == EMPTY
        {
          board[y, x] := EMPTY;
        }
      }
      SameCells(Cells(), EmptyGrid());
    }

    /** `findSpotForCol`: scans column x from the bottom row upwards and
        returns the first empty row, or None when the column is full. */
    method FindSpotForCol(x: int) returns (spot: Option<int>)
      requires Shaped() && 0 <= x < WIDTH
      ensures spot.None? <==> ColumnFull(Cells(), x)
      ensures spot.Some? ==> IsLandingRow(Cells(), x, spot.value)
      ensures spot.Some? && Gravity(Cells()) ==>
        forall y :: 0 <= y < spot.value ==> Cells()[y][x] == EMPTY
    {
      var y := HEIGHT - 1;
      while y >= 0
        invariant 0 <= y < HEIGHT
        invariant forall y' :: y < y' < HEIGHT ==> board[y', x] != EMPTY
      {
        if board[y, x] != EMPTY && y == 0 {
          return None;
        } else if board[y, x] != EMPTY {
        } else {
          return Some(y);
        }
        y := y - 1;
      }
    }

    /** `_win`: whether every coordinate of cells is on the board and holds
        the current player; stops at the first cell that fails, like
        `every`. */
    method Win(cells: seq<Coord>) returns (ok: bool)
      requires Shaped()
      ensures ok <==> Owns(Cells(), currPlayer, cells)
    {
      for i := 0 to |cells|
        invariant forall j :: 0 <= j < i ==>
          InBounds(cells[j].0, cells[j].1) && board[cells[j].0, cells[j].1] == currPlayer
      {
        var (y, x) := cells[i];
        if !(0 <= y < HEIGHT && 0 <= x < WIDTH && board[y, x] == currPlayer) {
          return false;
        }
      }
      return true;
    }

    /** `checkForWin`: tries every start cell, row by row, and the four
        lines from it; true as soon as one belongs wholly to the current
        player. The script's fall-through `undefined` is false here. */
    method CheckForWin() returns (won: bool)
      requires Shaped()
      ensures won <==> HasWin(Cells(), currPlayer)
    {
      for y := 0 to HEIGHT
        invariant forall y', x' :: 0 <= y' < y && 0 <= x' < WIDTH ==> !WinStartsAt(Cells(), currPlayer, y', x')
      {
        for x := 0 to WIDTH
          invariant forall y', x' :: 0 <= y' < y && 0 <= x' < WIDTH ==> !WinStartsAt(Cells(), currPlayer, y', x')
          invariant forall x' :: 0 <= x' < x ==> !WinStartsAt(Cells(), currPlayer, y, x')
        {
          var w := Win(Line(y, x, Horiz));
          if !w {
            w := Win(Line(y, x, Vert));
          }
          if !w {
            w := Win(Line(y, x, DiagDR));
          }
          if !w {
            w := Win(Line(y, x, DiagDL));
          }
          if w {
            assert WinStartsAt(Cells(), currPlayer, y, x);
            return true;
          }
        }
      }
      return false;
    }

    /** The non-display part of `handleClick` for a click on column x.
        A full column is ignored. Otherwise the current player's piece is
        written into the landing row, then the win test and the top-row
        tie test run, and only when both fail does the turn pass. Nothing
        stops a click after a win or a tie. The landing row is returned as
        the ghost `row` (-1 for an ignored click). */
    method HandleClick(x: int) returns (outcome: Outcome, ghost row: int)
      requires Shaped() && 0 <= x < WIDTH
      modifies board, this`currPlayer
      ensures old(ColumnFull(Cells(), x)) ==>
        outcome == Ignored && row == -1 && Cells() == old(Cells()) && currPlayer == old(currPlayer)
      ensures !old(ColumnFull(Cells(), x)) ==>
        && IsLandingRow(old(Cells()), x, row)
        && Cells() == Place(old(Cells()), row, x, old(currPlayer))
        && outcome == Verdict(Cells(), old(currPlayer))
        && currPlayer == (if outcome == NextTurn then Toggle(old(currPlayer)) else old(currPlayer))
      ensures old(Valid()) ==> Valid()
    {
      ghost var before := Cells();
      var spot := FindSpotForCol(x);
      if spot.None? {
        return Ignored, -1;
      }
      var y := spot.value;
      row := y;
      board[y, x] := currPlayer;
      SameCells(Cells(), Place(before, y, x, currPlayer));
      if old(Valid()) {
        PlaceKeepsGravity(before, x, y, currPlayer);
        PlaceKeepsCellsOk(before, y, x, currPlayer);
      }
      var won := CheckForWin();
      if won {
        return Won(currPlayer), row;
      }
      var tied := forall c | 0 <= c < WIDTH :: board[0, c] != EMPTY;
      if tied {
        return Tied, row;
      }
      currPlayer := Toggle(currPlayer);
      outcome := NextTurn;
    }
  }

  /** A client of the game: before each of HEIGHT clicks on one column of a
      new game it asks for the landing row, which rises from the bottom row
      to row 0 one row at a time; the next click on that column is
      ignored. */
  method DropsStackUp(x: int) returns (rows: seq<int>, last: Outcome)
    requires 0 <= x < WIDTH
    ensures rows == [5, 4, 3, 2, 1, 0] && last == Ignored
  {
    var game := new Game();
    rows := [];
    var k := 0;
    while k < HEIGHT
      invariant 0 <= k <= HEIGHT && game.Valid()
      invariant rows == seq(k, i => HEIGHT - 1 - i)
      invariant forall y :: 0 <= y < HEIGHT ==> (game.Cells()[y][x] != EMPTY <==> y >= HEIGHT - k)
    {
      assert game.Cells()[HEIGHT - 1 - k][x] == EMPTY;
      var spot := game.FindSpotForCol(x);
      assert spot == Some(HEIGHT - 1 - k);
      rows := rows + [spot.value];
      var outcome;
      ghost var row;
      outcome, row := game.HandleClick(x);
      assert row == HEIGHT - 1 - k;
      k := k + 1;
    }
    ghost var row;
    last, row := game.HandleClick(x);
  }
}
