/*
 * A whole game as a value, and makeMove as a function on it. The class in
 * module Engine updates the same state in place and is specified by these
 * functions; the properties of a game are proved here.
 */
module Play {
  import opened Rules

  /**
   * Everything a GameState holds: the board's cells, whose turn it is, both
   * players' counters and the number of pieces placed.
   */
  datatype Game = Game(cells: Grid, turn: Turn, oCounts: PlayerCounts, xCounts: PlayerCounts, total: int)

  /** The shapes every operation relies on: a square board and full-length counters. */
  predicate WellShaped(g: Game) {
    IsGrid(g.cells) && Shaped(g.oCounts) && Shaped(g.xCounts)
  }

  /**
   * A game whose bookkeeping is exact: a real piece is to move, each counter
   * is that player's count on its line and total counts the non-blank cells.
   */
  ghost predicate Good(g: Game) {
    g.turn.piece != B && Consistent(g.cells, g.oCounts, g.xCounts, g.total)
  }

  /**
   * Whose turn it is agrees with the pieces on the board: with O to move
   * both players have placed the same number of pieces, with X to move O
   * has placed one more.
   */
  ghost predicate Balanced(g: Game)
    requires IsGrid(g.cells)
  {
    BalancedFor(g.cells, g.turn.piece)
  }

  /** The balance of a board with piece p to move. */
  ghost predicate BalancedFor(cells: Grid, p: Piece)
    requires IsGrid(cells)
  {
    var o, x := CountOnLine(cells, O, Whole), CountOnLine(cells, X, Whole);
    (p == O ==> o == x) && (p == X ==> o == x + 1)
  }

  /** Placing the mover's piece on a blank cell and passing the turn keeps the balance. */
  lemma PlaceKeepsBalanced(cells: Grid, x: int, y: int, p: Piece)
    requires IsGrid(cells) && InRange(x, y) && cells[x][y] == B && p != B
    requires BalancedFor(cells, p)
    ensures BalancedFor(Place(cells, x, y, p), Opponent(p))
  {
    PlaceCount(cells, x, y, p, O, Whole);
    PlaceCount(cells, x, y, p, X, Whole);
  }

  /** The counters of the player with piece p; every piece other than O is X's. */
  function CountsOf(g: Game, p: Piece): PlayerCounts {
    if p == O then g.oCounts else g.xCounts
  }

  /** startGame: blank board, zero counters, O to move, userA first and userB after. */
  function Start(userA: string, userB: string): (g: Game)
    ensures WellShaped(g)
    ensures g.turn.piece == O && g.turn.current == userA && g.turn.next == userB
    ensures g.total == 0 && forall i, j :: InRange(i, j) ==> g.cells[i][j] == B
  {
    Game(EmptyGrid(), InitialTurn(userA, userB), ZeroCounts(), ZeroCounts(), 0)
  }

  /** The outcome of one makeMove call: the new game, the error if any, the result. */
  datatype Outcome = Outcome(game: Game, err: Option<MoveError>, result: GameResult)

  /**
   * makeMove's checks in the order it makes them: the wrong user, then a
   * position off the board, then a cell that is not blank.
   */
  function Validate(g: Game, user: string, x: int, y: int): (e: Option<MoveError>)
    requires WellShaped(g)
    ensures e == None <==> user == g.turn.current && InRange(x, y) && g.cells[x][y] == B
    ensures user != g.turn.current ==> e == Some(WrongTurn)
    ensures user == g.turn.current && !InRange(x, y) ==> e == Some(OutOfRange)
    ensures user == g.turn.current && InRange(x, y) && g.cells[x][y] != B ==> e == Some(CellOccupied)
  {
    if user != g.turn.current then Some(WrongTurn)
    else if x < 0 || x >= BoardSize || y < 0 || y >= BoardSize then Some(OutOfRange)
    else if g.cells[x][y] != B then Some(CellOccupied)
    else None
  }

  /**
   * makeMove: a refused move leaves the game as it was and reports Pending;
   * an accepted one places the current piece, bumps its owner's counters,
   * counts the piece, evaluates the result and, when the game goes on,
   * rotates the turn.
   */
  function Move(g: Game, user: string, x: int, y: int): (o: Outcome)
    requires WellShaped(g)
    ensures WellShaped(o.game)
    ensures o.err == Validate(g, user, x, y)
    ensures o.err.Some? ==> o.game == g && o.result == Pending
    ensures o.err.None? ==> o.game.total == g.total + 1 && o.game.cells == Place(g.cells, x, y, g.turn.piece)
  {
    var e := Validate(g, user, x, y);
    if e.Some? then Outcome(g, e, Pending)
    else
      var p := g.turn.piece;
      var oc := if p == O then Bump(g.oCounts, x, y) else g.oCounts;
      var xc := if p == O then g.xCounts else Bump(g.xCounts, x, y);
      var total := g.total + 1;
      var r := CheckGameOver(if p == O then oc else xc, p, x, y, total);
      var turn := if r == Pending then AfterPending(g.turn, user) else g.turn;
      Outcome(Game(Place(g.cells, x, y, p), turn, oc, xc, total), None, r)
  }

  /* ---------------------------------------------------------------------
   * Properties of games
   * ------------------------------------------------------------------- */

  /** A new game's bookkeeping is exact, and O is to move with userA first and userB after. */
  lemma StartIsGood(userA: string, userB: string)
    ensures Good(Start(userA, userB))
    ensures Start(userA, userB).turn == Turn(O, userA, userB)
  {
    StartConsistent();
  }

  /** Every move keeps the bookkeeping exact, and the total never passes the number of cells. */
  lemma MoveKeepsGood(g: Game, user: string, x: int, y: int)
    requires WellShaped(g) && Good(g)
    ensures Good(Move(g, user, x, y).game)
    ensures Move(g, user, x, y).game.total <= BoardSize * BoardSize
  {
    if Validate(g, user, x, y).Some? {
      PlacedPartition(g.cells);
    } else {
      MoveKeepsConsistent(g.cells, g.oCounts, g.xCounts, g.total, x, y, g.turn.piece);
    }
  }

  /** A new game is balanced: no pieces on the board and O to move. */
  lemma StartBalanced(userA: string, userB: string)
    ensures Balanced(Start(userA, userB))
  {
    EmptyGridCounts(O, Whole);
    EmptyGridCounts(X, Whole);
  }

  /**
   * A move that leaves the game Pending keeps it balanced: an accepted move
   * adds one piece of the mover's and hands the turn to the other piece,
   * a refused move changes nothing. There is no terminal flag, so after a
   * win the winner keeps the turn and the balance is no longer promised.
   */
  lemma PendingKeepsBalanced(g: Game, user: string, x: int, y: int)
    requires WellShaped(g) && Good(g) && Balanced(g)
    requires Move(g, user, x, y).result == Pending
    ensures Balanced(Move(g, user, x, y).game)
  {
    if Validate(g, user, x, y) == None {
      var o := Move(g, user, x, y);
      MoveTurn(g, user, x, y);
      PlaceKeepsBalanced(g.cells, x, y, g.turn.piece);
      assert o.game.cells == Place(g.cells, x, y, g.turn.piece) && o.game.turn.piece == Opponent(g.turn.piece);
    }
  }

  /**
   * On an exact game, the result of an accepted move is what rescanning the
   * new board for the mover gives: a full row, column or diagonal through
   * the cell wins, otherwise a full board ties, otherwise the game is pending.
   */
  lemma MoveResultIsScan(g: Game, user: string, x: int, y: int)
    requires WellShaped(g) && Good(g)
    requires Move(g, user, x, y).err == None
    ensures var o := Move(g, user, x, y);
            o.result == ScanResult(o.game.cells, g.turn.piece, x, y)
  {
    var p := g.turn.piece;
    var o := Move(g, user, x, y);
    MoveKeepsGood(g, user, x, y);
    GoodCounts(o.game, p);
    MoveResultIsCheck(g, user, x, y);
    CheckGameOverMatchesScan(o.game.cells, p, x, y);
  }

  /** On an exact game, a player's counters are that player's counts on the board. */
  lemma GoodCounts(g: Game, p: Piece)
    requires Good(g) && p != B
    ensures CountsOf(g, p) == CountsFor(g.cells, p) && g.total == Placed(g.cells)
  {
  }

  /** An accepted move reports what CheckGameOver says of the mover's new counters. */
  lemma MoveResultIsCheck(g: Game, user: string, x: int, y: int)
    requires WellShaped(g) && g.turn.piece != B
    requires Move(g, user, x, y).err == None
    ensures var o := Move(g, user, x, y);
            o.result == CheckGameOver(CountsOf(o.game, g.turn.piece), g.turn.piece, x, y, o.game.total)
  {
  }

  /**
   * The counters of an accepted move: the mover's are bumped at (x, y),
   * which raises its row, its column and each diagonal through the cell by
   * one and nothing else; the opponent's stay as they were.
   */
  lemma MoveCountsMover(g: Game, user: string, x: int, y: int)
    requires WellShaped(g) && g.turn.piece != B
    requires Move(g, user, x, y).err == None
    ensures var o := Move(g, user, x, y);
            && CountsOf(o.game, g.turn.piece) == Bump(CountsOf(g, g.turn.piece), x, y)
            && CountsOf(o.game, Opponent(g.turn.piece)) == CountsOf(g, Opponent(g.turn.piece))
    ensures var c, c' := CountsOf(g, g.turn.piece), CountsOf(Move(g, user, x, y).game, g.turn.piece);
            && (forall i :: 0 <= i < BoardSize ==> c'.rows[i] == c.rows[i] + (if i == x then 1 else 0))
            && (forall j :: 0 <= j < BoardSize ==> c'.cols[j] == c.cols[j] + (if j == y then 1 else 0))
            && (forall d :: 0 <= d < 2 ==> c'.diags[d] == c.diags[d] + (if OnDiagonal(d, x, y) then 1 else 0))
  {
    BumpLines(CountsOf(g, g.turn.piece), x, y);
  }

  /**
   * The turn after an accepted move: it rotates exactly when the result is
   * Pending and stays put once the game has been decided.
   */
  lemma MoveTurn(g: Game, user: string, x: int, y: int)
    requires WellShaped(g)
    requires Move(g, user, x, y).err == None
    ensures var o := Move(g, user, x, y);
            && (o.result == Pending ==> o.game.turn == Turn(Opponent(g.turn.piece), g.turn.next, g.turn.current))
            && (o.result != Pending ==> o.game.turn == g.turn)
  {
  }

  /** On a full board every move is refused, so the total stays at the number of cells. */
  lemma FullBoardRefusesEveryMove(g: Game, user: string, x: int, y: int)
    requires WellShaped(g) && Good(g) && g.total == BoardSize * BoardSize
    ensures Move(g, user, x, y).err.Some?
  {
    PlacedPartition(g.cells);
  }

  /**
   * The first user completes row 0 with the third O: moves at (0, 0),
   * (1, 0), (0, 1), (1, 1), (0, 2) in turn give OWin on the fifth.
   */
  lemma FirstUserWinsRow(userA: string, userB: string)
    requires userA != userB
    ensures var o1 := Move(Start(userA, userB), userA, 0, 0);
            var o2 := Move(o1.game, userB, 1, 0);
            var o3 := Move(o2.game, userA, 0, 1);
            var o4 := Move(o3.game, userB, 1, 1);
            var o5 := Move(o4.game, userA, 0, 2);
            && o1.result == o2.result == o3.result == o4.result == Pending
            && o5.err == None && o5.result == OWin
  {
    var o3 := Move(Move(Move(Start(userA, userB), userA, 0, 0).game, userB, 1, 0).game, userA, 0, 1);
    assert o3.game.turn == Turn(X, userB, userA) && o3.game.oCounts.rows == [2, 0, 0];
  }

  /**
   * Nothing ends a game: after the first user's win on row 0, the same user
   * still holds the turn, a sixth move at (2, 2) is accepted and reported
   * Pending although row 0 is still full, and the turn passes to userB.
   */
  lemma WinnerMovesAgain(userA: string, userB: string)
    requires userA != userB
    ensures var o1 := Move(Start(userA, userB), userA, 0, 0);
            var o2 := Move(o1.game, userB, 1, 0);
            var o3 := Move(o2.game, userA, 0, 1);
            var o4 := Move(o3.game, userB, 1, 1);
            var o5 := Move(o4.game, userA, 0, 2);
            var o6 := Move(o5.game, userA, 2, 2);
            && o5.result == OWin && o5.game.turn == Turn(O, userA, userB)
            && o6.err == None && o6.result == Pending && o6.game.turn == Turn(X, userB, userA)
  {
    var o3 := Move(Move(Move(Start(userA, userB), userA, 0, 0).game, userB, 1, 0).game, userA, 0, 1);
    assert o3.game.turn == Turn(X, userB, userA) && o3.game.oCounts.rows == [2, 0, 0];
  }

  /**
   * The first user completes the main diagonal with the third O, the
   * centre among them: moves at (0, 0), (0, 1), (1, 1), (0, 2), (2, 2) in
   * turn give OWin on the fifth.
   */
  lemma FirstUserWinsDiagonal(userA: string, userB: string)
    requires userA != userB
    ensures var o1 := Move(Start(userA, userB), userA, 0, 0);
            var o2 := Move(o1.game, userB, 0, 1);
            var o3 := Move(o2.game, userA, 1, 1);
            var o4 := Move(o3.game, userB, 0, 2);
            var o5 := Move(o4.game, userA, 2, 2);
            && o1.result == o2.result == o3.result == o4.result == Pending
            && o5.err == None && o5.result == OWin
  {
    var o3 := Move(Move(Move(Start(userA, userB), userA, 0, 0).game, userB, 0, 1).game, userA, 1, 1);
    assert o3.game.turn == Turn(X, userB, userA) && o3.game.oCounts.diags == [2, 1];
  }

  /**
   * A move by a user whose turn it is not is refused with WrongTurn, on any
   * game and at any position, and changes nothing.
   */
  lemma WrongUserRefused(g: Game, user: string, x: int, y: int)
    requires WellShaped(g) && user != g.turn.current
    ensures Move(g, user, x, y) == Outcome(g, Some(WrongTurn), Pending)
  {
  }
}
