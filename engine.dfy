/*
 * The game state of one tic-tac-toe game: a board updated in place, the
 * two players' line counters, whose turn it is and how many pieces are on
 * the board. MakeMove validates a move, places the piece, bumps the
 * mover's counters, evaluates the result and rotates the turn.
 */
module Engine {
  import opened Rules
  import opened Play

  /**
   * A board: BoardSize x BoardSize cells held in one array, shared by
   * reference with the game that owns it. cells is its contents as a value.
   */
  class Board {
    const squares: array2<Piece>
    ghost var cells: Grid

    ghost predicate Valid()
      reads this, squares
    {
      && squares.Length0 == BoardSize && squares.Length1 == BoardSize
      && IsGrid(cells)
      && forall i, j :: 0 <= i < BoardSize && 0 <= j < BoardSize ==> squares[i, j] == cells[i][j]
    }

    /**
     * A fresh board whose cells are not yet initialised, so Valid() does
     * not hold yet; InitBoard writes every cell and establishes it.
     */
    constructor ()
      ensures fresh(squares)
      ensures squares.Length0 == BoardSize && squares.Length1 == BoardSize
    {
      squares := new Piece[BoardSize, BoardSize];
      cells := [];
    }

    /** Writes piece p into cell (x, y) and nothing else. */
    method Set(x: int, y: int, p: Piece)
      requires Valid() && InRange(x, y)
      modifies this, squares
      ensures Valid()
      ensures cells == Place(old(cells), x, y, p)
    {
      squares[x, y] := p;
      cells := Place(cells, x, y, p);
    }
  }

  /** Fills a board with blanks, one cell at a time. */
  method InitBoard(board: Board)
    requires board.squares.Length0 == BoardSize && board.squares.Length1 == BoardSize
    modifies board, board.squares
    ensures board.Valid() && board.cells == EmptyGrid()
  {
    var i := 0;
    while i < BoardSize
      invariant 0 <= i <= BoardSize
      invariant forall a, b :: 0 <= a < i && 0 <= b < BoardSize ==> board.squares[a, b] == B
    {
      var j := 0;
      while j < BoardSize
        invariant 0 <= j <= BoardSize
        invariant forall a, b :: 0 <= a < i && 0 <= b < BoardSize ==> board.squares[a, b] == B
        invariant forall b :: 0 <= b < j ==> board.squares[i, b] == B
      {
        board.squares[i, j] := B;
        j := j + 1;
      }
      i := i + 1;
    }
    board.cells := EmptyGrid();
  }

  class GameState {
    /** The game's board, allocated by startGame and never replaced. */
    var board: Board
    /** The piece to be placed next. */
    var currPiece: Piece
    /** The user who must make the next move. */
    var currPlayer: string
    /** The user who moves after that. */
    var nextPlayer: string
    var oCounts: PlayerCounts
    var xCounts: PlayerCounts
    var totalPieces: int

    /** The game this object holds, as a value. */
    ghost function State(): Game
      reads this, board
    {
      Game(board.cells, Turn(currPiece, currPlayer, nextPlayer), oCounts, xCounts, totalPieces)
    }

    /**
     * The object invariant: the board holds the cells of State() and that
     * game is well shaped. That its bookkeeping is exact (Good) is
     * established by the constructor and kept by MakeMove.
     */
    ghost predicate Valid()
      reads this, board, board.squares
    {
      board.Valid() && WellShaped(State())
    }

    /** startGame's new game. */
    constructor (userA: string, userB: string)
      ensures Valid() && fresh(board) && fresh(board.squares)
      ensures State() == Start(userA, userB) && Good(State())
    {
      var b := new Board();
      InitBoard(b);
      board := b;
      currPiece := O;
      currPlayer := userA;
      nextPlayer := userB;
      oCounts := ZeroCounts();
      xCounts := ZeroCounts();
      totalPieces := 0;
      StartIsGood(userA, userB);
    }

    /**
     * makeMove, in place: the new state, the error and the result are those
     * of Move on the old state, and the board object stays the same.
     */
    method MakeMove(user: string, x: int, y: int) returns (err: Option<MoveError>, result: GameResult)
      requires Valid()
      modifies this, board, board.squares
      ensures Valid() && board == old(board)
      ensures Move(old(State()), user, x, y) == Outcome(State(), err, result)
      ensures err.Some? ==> unchanged(board.squares)
      ensures Good(old(State())) ==> Good(State())
    {
      if user != currPlayer {
        return Some(WrongTurn), Pending;
      }
      if x < 0 || x >= BoardSize || y < 0 || y >= BoardSize {
        return Some(OutOfRange), Pending;
      }
      if board.squares[x, y] != B {
        return Some(CellOccupied), Pending;
      }
      err := None;
      result := Accept(user, x, y);
    }

    /** The accepted half of makeMove: place, count, evaluate, rotate. */
    method Accept(user: string, x: int, y: int) returns (result: GameResult)
      requires Valid() && Validate(State(), user, x, y) == None
      modifies this, board, board.squares
      ensures Valid() && board == old(board)
      ensures Move(old(State()), user, x, y) == Outcome(State(), None, result)
      ensures Good(old(State())) ==> Good(State())
    {
      ghost var g := State();
      if Good(g) {
        MoveKeepsGood(g, user, x, y);
      }
      var p := currPiece;
      board.Set(x, y, p);
      totalPieces := totalPieces + 1;
      if p == O {
        oCounts := Bump(oCounts, x, y);
      } else {
        xCounts := Bump(xCounts, x, y);
      }

      result := CheckGameOver(if p == O then oCounts else xCounts, p, x, y, totalPieces);
      if result == Pending {
        currPiece := if p == O then X else O;
        currPlayer := nextPlayer;
        nextPlayer := user;
      }
    }
  }
}
