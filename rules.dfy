/*
 * The pure part of the tic-tac-toe game-state engine: pieces, the board as a
 * value, the diagonal classifier, the per-player line counters, the O(1)
 * game-over test and the turn rotation, with the facts that tie the
 * counters to the board they summarise.
 */
module Rules {

  /** Side length of the square board, fixed at build time. */
  const BoardSize: nat := 3

  /** Index of the last row and of the last column. */
  const Last: int := BoardSize - 1

  /** O moves first, X second, B marks a blank cell. */
  datatype Piece = O | X | B

  /** The outcome reported for a move; only Pending is not terminal. */
  datatype GameResult = OWin | XWin | Tie | Pending

  /** Why a move is refused. */
  datatype MoveError = WrongTurn | OutOfRange | CellOccupied

  datatype Option<T> = None | Some(value: T)

  /** The board as a value: Grid[x][y] is the cell in row x, column y. */
  type Grid = seq<seq<Piece>>

  predicate IsGrid(g: Grid) {
    |g| == BoardSize && forall i :: 0 <= i < |g| ==> |g[i]| == BoardSize
  }

  predicate InRange(x: int, y: int) {
    0 <= x < BoardSize && 0 <= y < BoardSize
  }

  /** The board that initBoard leaves behind: blank everywhere. */
  function EmptyGrid(): (g: Grid)
    ensures IsGrid(g)
    ensures forall i, j :: InRange(i, j) ==> g[i][j] == B
  {
    seq(BoardSize, _ => seq(BoardSize, _ => B))
  }

  /** The board after writing p into cell (x, y). */
  function Place(g: Grid, x: int, y: int, p: Piece): (g': Grid)
    requires IsGrid(g) && InRange(x, y)
    ensures IsGrid(g')
    ensures g'[x][y] == p
    ensures forall i, j :: InRange(i, j) && (i != x || j != y) ==> g'[i][j] == g[i][j]
  {
    g[x := g[x][y := p]]
  }

  /*
   * Diagonal classification, as game-state.go writes it: only the four
   * corner cells are recognised. Index 0 is the top-left to bottom-right
   * diagonal, index 1 the top-right to bottom-left one, -1 "not a diagonal".
   */
  function GetDiag(x: int, y: int): (r: int)
    ensures r == -1 || r == 0 || r == 1
    ensures r == 0 ==> OnDiagonal(0, x, y)
    ensures r == 1 ==> OnDiagonal(1, x, y)
  {
    if (x == 0 && y == 0) || (x == Last && y == Last) then 0
    else if (x == Last && y == 0) || (x == 0 && y == Last) then 1
    else -1
  }

  /**
   * The diagonals as the counters are meant to track them: diagonal 0 holds
   * the cells with x == y, diagonal 1 those with x + y == Last.
   */
  predicate OnDiagonal(d: int, x: int, y: int) {
    (d == 0 && x == y) || (d == 1 && x + y == Last)
  }

  /**
   * GetDiag answers -1, 0 or 1. A classified cell really lies on the
   * diagonal it is assigned to, but only the two ends of each diagonal are
   * classified.
   */
  lemma GetDiagClassifiesCorners(x: int, y: int)
    ensures GetDiag(x, y) == 0 <==> x == y && (x == 0 || x == Last)
    ensures GetDiag(x, y) == 1 <==> x + y == Last && x != y && (x == 0 || x == Last)
  {
  }

  /** The centre cell lies on both diagonals, yet GetDiag classifies it on neither. */
  lemma CentreNotClassified()
    ensures OnDiagonal(0, 1, 1) && OnDiagonal(1, 1, 1) && GetDiag(1, 1) == -1
  {
  }

  /*
   * Lines a counter can track. Row(r) and Col(c) are the board's rows and
   * columns, Diag(d) the cells of diagonal d, Corner(d) the cells GetDiag
   * assigns to d, Whole the whole board.
   */
  datatype Line = Row(r: int) | Col(c: int) | Diag(d: int) | Corner(d: int) | Whole

  predicate OnLine(line: Line, i: int, j: int) {
    match line
    case Row(r) => i == r
    case Col(c) => j == c
    case Diag(d) => OnDiagonal(d, i, j)
    case Corner(d) => GetDiag(i, j) == d
    case Whole => true
  }

  /** Number of cells (i, j) with j < m that lie on line and hold p. */
  function CountInRow(g: Grid, p: Piece, line: Line, i: nat, m: nat): (n: nat)
    requires i < |g| && m <= |g[i]|
    ensures n <= m
    decreases m
  {
    if m == 0 then 0
    else CountInRow(g, p, line, i, m - 1) + (if OnLine(line, i, m - 1) && g[i][m - 1] == p then 1 else 0)
  }

  /** Number of cells in rows i < n that lie on line and hold p. */
  function CountInRows(g: Grid, p: Piece, line: Line, n: nat): nat
    requires n <= |g|
    decreases n
  {
    if n == 0 then 0
    else CountInRows(g, p, line, n - 1) + CountInRow(g, p, line, n - 1, |g[n - 1]|)
  }

  /** Number of cells of the board that lie on line and hold p. */
  function CountOnLine(g: Grid, p: Piece, line: Line): nat
    requires IsGrid(g)
  {
    CountInRows(g, p, line, BoardSize)
  }

  /** Number of non-blank cells. */
  function Placed(g: Grid): nat
    requires IsGrid(g)
  {
    CountOnLine(g, O, Whole) + CountOnLine(g, X, Whole)
  }

  /* ---------------------------------------------------------------------
   * How writing one blank cell changes the counts
   * ------------------------------------------------------------------- */

  /**
   * What rewriting one cell from before to after does to p's count on a
   * line: +1, -1 or 0, and 0 when the cell is not on the line.
   */
  function CellDelta(on: bool, before: Piece, after: Piece, p: Piece): int {
    (if on && after == p then 1 else 0) - (if on && before == p then 1 else 0)
  }

  /**
   * Row i of two boards that agree everywhere except possibly at (x, y):
   * their counts over the first m cells differ only by what (x, y) holds.
   */
  lemma {:induction false} ChangeInRow(g: Grid, h: Grid, x: int, y: int, p: Piece, line: Line, i: nat, m: nat)
    requires i < |g| && i < |h| && m <= |g[i]| && m <= |h[i]|
    requires i == x ==> 0 <= y < |g[i]| && y < |h[i]|
    requires forall j :: 0 <= j < m && (i != x || j != y) ==> h[i][j] == g[i][j]
    ensures CountInRow(h, p, line, i, m)
            == CountInRow(g, p, line, i, m) + if i == x && y < m then CellDelta(OnLine(line, x, y), g[x][y], h[x][y], p) else 0
    decreases m
  {
    if m > 0 {
      ChangeInRow(g, h, x, y, p, line, i, m - 1);
    }
  }

  /**
   * Two boards that agree everywhere except possibly at (x, y): their
   * counts over the first n rows differ only by what (x, y) holds.
   */
  lemma {:induction false} ChangeInRows(g: Grid, h: Grid, x: int, y: int, p: Piece, line: Line, n: nat)
    requires n <= |g| == |h| && 0 <= x < |g| && 0 <= y < |g[x]|
    requires forall i :: 0 <= i < |g| ==> |h[i]| == |g[i]|
    requires forall i, j :: 0 <= i < |g| && 0 <= j < |g[i]| && (i != x || j != y) ==> h[i][j] == g[i][j]
    ensures CountInRows(h, p, line, n)
            == CountInRows(g, p, line, n) + if x < n then CellDelta(OnLine(line, x, y), g[x][y], h[x][y], p) else 0
    decreases n
  {
    if n > 0 {
      var r := n - 1;
      ChangeInRows(g, h, x, y, p, line, r);
      assert forall j :: 0 <= j < |g[r]| && (r != x || j != y) ==> h[r][j] == g[r][j];
      ChangeInRow(g, h, x, y, p, line, r, |g[r]|);
    }
  }

  /**
   * Placing a piece on a blank cell adds one to that piece's count on
   * every line through the cell and changes no other count.
   */
  lemma PlaceCount(g: Grid, x: int, y: int, v: Piece, p: Piece, line: Line)
    requires IsGrid(g) && InRange(x, y) && g[x][y] == B && v != B && p != B
    ensures CountOnLine(Place(g, x, y, v), p, line)
            == CountOnLine(g, p, line) + (if v == p && OnLine(line, x, y) then 1 else 0)
  {
    ChangeInRows(g, Place(g, x, y, v), x, y, p, line, BoardSize);
  }

  /** Placing a piece on a blank cell adds exactly one placed piece. */
  lemma PlaceIncrementsPlaced(g: Grid, x: int, y: int, v: Piece)
    requires IsGrid(g) && InRange(x, y) && g[x][y] == B && v != B
    ensures Placed(Place(g, x, y, v)) == Placed(g) + 1
  {
    PlaceCount(g, x, y, v, O, Whole);
    PlaceCount(g, x, y, v, X, Whole);
  }

  /* ---------------------------------------------------------------------
   * What the counts mean
   * ------------------------------------------------------------------- */

  predicate RowFull(g: Grid, p: Piece, r: int)
    requires IsGrid(g) && 0 <= r < BoardSize
  {
    forall j :: 0 <= j < BoardSize ==> g[r][j] == p
  }

  predicate ColFull(g: Grid, p: Piece, c: int)
    requires IsGrid(g) && 0 <= c < BoardSize
  {
    forall i :: 0 <= i < BoardSize ==> g[i][c] == p
  }

  predicate BoardFull(g: Grid)
    requires IsGrid(g)
  {
    forall i, j :: 0 <= i < BoardSize && 0 <= j < BoardSize ==> g[i][j] != B
  }

  lemma {:induction false} RowSegmentOffLine(g: Grid, p: Piece, r: int, i: nat, m: nat)
    requires IsGrid(g) && i < BoardSize && m <= BoardSize && i != r
    ensures CountInRow(g, p, Row(r), i, m) == 0
    decreases m
  {
    if m > 0 {
      RowSegmentOffLine(g, p, r, i, m - 1);
    }
  }

  lemma {:induction false} RowSegmentFull(g: Grid, p: Piece, r: nat, m: nat)
    requires IsGrid(g) && r < BoardSize && m <= BoardSize
    ensures CountInRow(g, p, Row(r), r, m) == m <==> forall j :: 0 <= j < m ==> g[r][j] == p
    decreases m
  {
    if m > 0 {
      RowSegmentFull(g, p, r, m - 1);
    }
  }

  lemma {:induction false} RowsOnRow(g: Grid, p: Piece, r: nat, n: nat)
    requires IsGrid(g) && r < BoardSize && n <= BoardSize
    ensures CountInRows(g, p, Row(r), n) == if r < n then CountInRow(g, p, Row(r), r, BoardSize) else 0
    decreases n
  {
    if n > 0 {
      RowsOnRow(g, p, r, n - 1);
      if n - 1 != r {
        RowSegmentOffLine(g, p, r, n - 1, BoardSize);
      }
    }
  }

  /** A row counter reaches BoardSize exactly when the row is all p. */
  lemma RowCountFull(g: Grid, p: Piece, r: nat)
    requires IsGrid(g) && r < BoardSize
    ensures CountOnLine(g, p, Row(r)) == BoardSize <==> RowFull(g, p, r)
  {
    RowsOnRow(g, p, r, BoardSize);
    RowSegmentFull(g, p, r, BoardSize);
  }

  lemma {:induction false} ColSegment(g: Grid, p: Piece, c: nat, i: nat, m: nat)
    requires IsGrid(g) && c < BoardSize && i < BoardSize && m <= BoardSize
    ensures CountInRow(g, p, Col(c), i, m) == if c < m && g[i][c] == p then 1 else 0
    decreases m
  {
    if m > 0 {
      ColSegment(g, p, c, i, m - 1);
    }
  }

  lemma {:induction false} ColsFull(g: Grid, p: Piece, c: nat, n: nat)
    requires IsGrid(g) && c < BoardSize && n <= BoardSize
    ensures CountInRows(g, p, Col(c), n) <= n
    ensures CountInRows(g, p, Col(c), n) == n <==> forall i :: 0 <= i < n ==> g[i][c] == p
    decreases n
  {
    if n > 0 {
      ColsFull(g, p, c, n - 1);
      ColSegment(g, p, c, n - 1, BoardSize);
    }
  }

  /** A column counter reaches BoardSize exactly when the column is all p. */
  lemma ColCountFull(g: Grid, p: Piece, c: nat)
    requires IsGrid(g) && c < BoardSize
    ensures CountOnLine(g, p, Col(c)) == BoardSize <==> ColFull(g, p, c)
  {
    ColsFull(g, p, c, BoardSize);
  }

  /** The column where row i meets diagonal d. */
  function DiagColumn(d: int, i: int): int {
    if d == 0 then i else Last - i
  }

  /** Every cell of diagonal d holds p. */
  predicate DiagFull(g: Grid, p: Piece, d: int)
    requires IsGrid(g)
  {
    forall i, j :: 0 <= i < BoardSize && 0 <= j < BoardSize && OnDiagonal(d, i, j) ==> g[i][j] == p
  }

  lemma {:induction false} DiagSegment(g: Grid, p: Piece, d: int, i: nat, m: nat)
    requires IsGrid(g) && 0 <= d < 2 && i < BoardSize && m <= BoardSize
    ensures CountInRow(g, p, Diag(d), i, m) == if DiagColumn(d, i) < m && g[i][DiagColumn(d, i)] == p then 1 else 0
    decreases m
  {
    if m > 0 {
      DiagSegment(g, p, d, i, m - 1);
    }
  }

  lemma {:induction false} DiagsFull(g: Grid, p: Piece, d: int, n: nat)
    requires IsGrid(g) && 0 <= d < 2 && n <= BoardSize
    ensures CountInRows(g, p, Diag(d), n) <= n
    ensures CountInRows(g, p, Diag(d), n) == n <==> forall i :: 0 <= i < n ==> g[i][DiagColumn(d, i)] == p
    decreases n
  {
    if n > 0 {
      DiagsFull(g, p, d, n - 1);
      DiagSegment(g, p, d, n - 1, BoardSize);
    }
  }

  /** A diagonal counter reaches BoardSize exactly when the diagonal is all p. */
  lemma DiagCountFull(g: Grid, p: Piece, d: int)
    requires IsGrid(g) && 0 <= d < 2
    ensures CountOnLine(g, p, Diag(d)) == BoardSize <==> DiagFull(g, p, d)
  {
    DiagsFull(g, p, d, BoardSize);
  }

  /** Each row holds at most one cell that GetDiag assigns to d; the middle row none. */
  lemma CornerRowAtMostOne(g: Grid, p: Piece, d: int, i: nat)
    requires IsGrid(g) && i < BoardSize && 0 <= d < 2
    ensures CountInRow(g, p, Corner(d), i, BoardSize) <= if i == 0 || i == Last then 1 else 0
  {
    assert CountInRow(g, p, Corner(d), i, 1) <= if GetDiag(i, 0) == d then 1 else 0;
    assert GetDiag(i, 1) != d;
    assert CountInRow(g, p, Corner(d), i, 2) == CountInRow(g, p, Corner(d), i, 1);
    assert CountInRow(g, p, Corner(d), i, 3) <= CountInRow(g, p, Corner(d), i, 2) + if GetDiag(i, 2) == d then 1 else 0;
  }

  /**
   * A corner count never exceeds 2, so it never reaches BoardSize: with
   * the corner-only classifier no diagonal win can be detected.
   */
  lemma CornerCountBounded(g: Grid, p: Piece, d: int)
    requires IsGrid(g) && 0 <= d < 2
    ensures CountOnLine(g, p, Corner(d)) <= 2 < BoardSize
  {
    CornerRowAtMostOne(g, p, d, 0);
    CornerRowAtMostOne(g, p, d, 1);
    CornerRowAtMostOne(g, p, d, 2);
    assert CountInRows(g, p, Corner(d), 1) == CountInRow(g, p, Corner(d), 0, BoardSize);
  }

  lemma {:induction false} RowPartition(g: Grid, i: nat, m: nat)
    requires IsGrid(g) && i < BoardSize && m <= BoardSize
    ensures CountInRow(g, O, Whole, i, m) + CountInRow(g, X, Whole, i, m) + CountInRow(g, B, Whole, i, m) == m
    ensures CountInRow(g, B, Whole, i, m) == 0 <==> forall j :: 0 <= j < m ==> g[i][j] != B
    decreases m
  {
    if m > 0 {
      RowPartition(g, i, m - 1);
    }
  }

  lemma {:induction false} RowsPartition(g: Grid, n: nat)
    requires IsGrid(g) && n <= BoardSize
    ensures CountInRows(g, O, Whole, n) + CountInRows(g, X, Whole, n) + CountInRows(g, B, Whole, n) == n * BoardSize
    decreases n
  {
    if n > 0 {
      RowsPartition(g, n - 1);
      RowPartition(g, n - 1, BoardSize);
    }
  }

  lemma {:induction false} RowsNoBlank(g: Grid, n: nat)
    requires IsGrid(g) && n <= BoardSize
    ensures CountInRows(g, B, Whole, n) == 0 <==> forall i, j :: 0 <= i < n && 0 <= j < BoardSize ==> g[i][j] != B
    decreases n
  {
    if n > 0 {
      RowsNoBlank(g, n - 1);
      RowPartition(g, n - 1, BoardSize);
      if CountInRows(g, B, Whole, n) == 0 {
        forall i, j | 0 <= i < n && 0 <= j < BoardSize
          ensures g[i][j] != B
        {
          if i == n - 1 {
            var row := g[n - 1];
            assert forall j' :: 0 <= j' < BoardSize ==> row[j'] != B;
          }
        }
      }
    }
  }

  /**
   * Every cell holds exactly one piece, so at most BoardSize^2 pieces are
   * placed, and exactly that many when no blank is left.
   */
  lemma PlacedPartition(g: Grid)
    requires IsGrid(g)
    ensures Placed(g) <= BoardSize * BoardSize
    ensures Placed(g) == BoardSize * BoardSize <==> BoardFull(g)
  {
    RowsPartition(g, BoardSize);
    RowsNoBlank(g, BoardSize);
  }

  lemma {:induction false} AbsentFromRow(g: Grid, p: Piece, line: Line, i: nat, m: nat)
    requires IsGrid(g) && i < BoardSize && m <= BoardSize
    requires forall j :: 0 <= j < m ==> g[i][j] != p
    ensures CountInRow(g, p, line, i, m) == 0
    decreases m
  {
    if m > 0 {
      AbsentFromRow(g, p, line, i, m - 1);
    }
  }

  lemma {:induction false} AbsentFromRows(g: Grid, p: Piece, line: Line, n: nat)
    requires IsGrid(g) && n <= BoardSize
    requires forall i, j :: InRange(i, j) ==> g[i][j] != p
    ensures CountInRows(g, p, line, n) == 0
    decreases n
  {
    if n > 0 {
      AbsentFromRows(g, p, line, n - 1);
      var row := g[n - 1];
      forall j | 0 <= j < BoardSize
        ensures row[j] != p
      {
        assert InRange(n - 1, j);
      }
      AbsentFromRow(g, p, line, n - 1, BoardSize);
    }
  }

  /** On the empty board every player count is zero. */
  lemma EmptyGridCounts(p: Piece, line: Line)
    requires p != B
    ensures CountOnLine(EmptyGrid(), p, line) == 0
  {
    AbsentFromRows(EmptyGrid(), p, line, BoardSize);
  }

  /* ---------------------------------------------------------------------
   * Per-player line counters
   * ------------------------------------------------------------------- */

  /** Counts of one player's pieces per row, per column and per diagonal. */
  datatype PlayerCounts = PlayerCounts(rows: seq<int>, cols: seq<int>, diags: seq<int>)

  predicate Shaped(c: PlayerCounts) {
    |c.rows| == BoardSize && |c.cols| == BoardSize && |c.diags| == 2
  }

  /** The zero value a new game starts from. */
  function ZeroCounts(): (c: PlayerCounts)
    ensures Shaped(c)
    ensures forall i :: 0 <= i < BoardSize ==> c.rows[i] == 0 && c.cols[i] == 0
    ensures forall d :: 0 <= d < 2 ==> c.diags[d] == 0
  {
    PlayerCounts(seq(BoardSize, _ => 0), seq(BoardSize, _ => 0), [0, 0])
  }

  /** The counters that are exact for p on board g. */
  function CountsFor(g: Grid, p: Piece): (c: PlayerCounts)
    requires IsGrid(g)
    ensures Shaped(c)
  {
    PlayerCounts(seq(BoardSize, i => CountOnLine(g, p, Row(i))),
                 seq(BoardSize, j => CountOnLine(g, p, Col(j))),
                 seq(2, d => CountOnLine(g, p, Diag(d))))
  }

  /**
   * The counter update for a piece placed at (x, y): its row, its column
   * and every diagonal through the cell go up by one; the centre is on both.
   */
  function Bump(c: PlayerCounts, x: int, y: int): (c': PlayerCounts)
    requires Shaped(c) && InRange(x, y)
    ensures Shaped(c')
  {
    PlayerCounts(c.rows[x := c.rows[x] + 1],
                 c.cols[y := c.cols[y] + 1],
                 [c.diags[0] + (if OnDiagonal(0, x, y) then 1 else 0),
                  c.diags[1] + (if OnDiagonal(1, x, y) then 1 else 0)])
  }

  /**
   * Bump raises exactly the counters of row x, column y and of each
   * diagonal through (x, y), each by one.
   */
  lemma BumpLines(c: PlayerCounts, x: int, y: int)
    requires Shaped(c) && InRange(x, y)
    ensures forall i :: 0 <= i < BoardSize ==> Bump(c, x, y).rows[i] == c.rows[i] + (if i == x then 1 else 0)
    ensures forall j :: 0 <= j < BoardSize ==> Bump(c, x, y).cols[j] == c.cols[j] + (if j == y then 1 else 0)
    ensures forall d :: 0 <= d < 2 ==> Bump(c, x, y).diags[d] == c.diags[d] + (if OnDiagonal(d, x, y) then 1 else 0)
  {
  }

  /**
   * The counter update as game-state.go writes it: the diagonal counter
   * goes up only when GetDiag classifies the cell.
   */
  function BumpAsWritten(c: PlayerCounts, x: int, y: int): (c': PlayerCounts)
    requires Shaped(c) && InRange(x, y)
    ensures Shaped(c')
    ensures c'.rows == Bump(c, x, y).rows && c'.cols == Bump(c, x, y).cols
    ensures c'.diags[0] == c.diags[0] + (if GetDiag(x, y) == 0 then 1 else 0)
    ensures c'.diags[1] == c.diags[1] + (if GetDiag(x, y) == 1 then 1 else 0)
    ensures (x, y) == (1, 1) ==> c'.diags == c.diags
  {
    var d := GetDiag(x, y);
    PlayerCounts(c.rows[x := c.rows[x] + 1],
                 c.cols[y := c.cols[y] + 1],
                 if d >= 0 then c.diags[d := c.diags[d] + 1] else c.diags)
  }

  /** On the empty board every player's counters are zero. */
  lemma EmptyGridCountsZero(p: Piece)
    requires p != B
    ensures CountsFor(EmptyGrid(), p) == ZeroCounts()
  {
    var c, z := CountsFor(EmptyGrid(), p), ZeroCounts();
    forall i | 0 <= i < BoardSize
      ensures c.rows[i] == 0 && c.cols[i] == 0
    {
      EmptyGridCounts(p, Row(i));
      EmptyGridCounts(p, Col(i));
    }
    forall d | 0 <= d < 2
      ensures c.diags[d] == 0
    {
      EmptyGridCounts(p, Diag(d));
    }
    assert c.rows == z.rows && c.cols == z.cols && c.diags == z.diags;
  }

  /** A move raises the mover's exact row and column counters as Bump does. */
  lemma PlaceBumpsRowsCols(g: Grid, x: int, y: int, p: Piece)
    requires IsGrid(g) && InRange(x, y) && g[x][y] == B && p != B
    ensures CountsFor(Place(g, x, y, p), p).rows == Bump(CountsFor(g, p), x, y).rows
    ensures CountsFor(Place(g, x, y, p), p).cols == Bump(CountsFor(g, p), x, y).cols
  {
    var c, c' := Bump(CountsFor(g, p), x, y), CountsFor(Place(g, x, y, p), p);
    assert c'.rows == c.rows by {
      forall i | 0 <= i < BoardSize
        ensures c'.rows[i] == c.rows[i]
      {
        PlaceCount(g, x, y, p, p, Row(i));
      }
    }
    assert c'.cols == c.cols by {
      forall j | 0 <= j < BoardSize
        ensures c'.cols[j] == c.cols[j]
      {
        PlaceCount(g, x, y, p, p, Col(j));
      }
    }
  }

  /** The mover's exact counters after a move are its old ones bumped at (x, y). */
  lemma PlaceBumpsMoverCounts(g: Grid, x: int, y: int, p: Piece)
    requires IsGrid(g) && InRange(x, y) && g[x][y] == B && p != B
    ensures CountsFor(Place(g, x, y, p), p) == Bump(CountsFor(g, p), x, y)
  {
    var c, c' := Bump(CountsFor(g, p), x, y), CountsFor(Place(g, x, y, p), p);
    PlaceBumpsRowsCols(g, x, y, p);
    assert c'.diags == c.diags by {
      forall d | 0 <= d < 2
        ensures c'.diags[d] == c.diags[d]
      {
        PlaceCount(g, x, y, p, p, Diag(d));
      }
    }
  }

  /**
   * The source's own diagonal update keeps its diagonal counters equal to
   * the number of p's pieces on the corners GetDiag classifies.
   */
  lemma PlaceBumpsCornerCounts(g: Grid, x: int, y: int, p: Piece, c: PlayerCounts)
    requires IsGrid(g) && InRange(x, y) && g[x][y] == B && p != B && Shaped(c)
    requires c.diags[0] == CountOnLine(g, p, Corner(0)) && c.diags[1] == CountOnLine(g, p, Corner(1))
    ensures BumpAsWritten(c, x, y).diags[0] == CountOnLine(Place(g, x, y, p), p, Corner(0))
    ensures BumpAsWritten(c, x, y).diags[1] == CountOnLine(Place(g, x, y, p), p, Corner(1))
  {
    PlaceCount(g, x, y, p, p, Corner(0));
    PlaceCount(g, x, y, p, p, Corner(1));
  }

  /** Every other player's exact counters are unchanged by a move. */
  lemma PlaceKeepsOtherCounts(g: Grid, x: int, y: int, v: Piece, p: Piece)
    requires IsGrid(g) && InRange(x, y) && g[x][y] == B && v != B && p != B && p != v
    ensures CountsFor(Place(g, x, y, v), p) == CountsFor(g, p)
  {
    var g' := Place(g, x, y, v);
    var c, c' := CountsFor(g, p), CountsFor(g', p);
    forall i | 0 <= i < BoardSize
      ensures c'.rows[i] == c.rows[i]
    {
      PlaceCount(g, x, y, v, p, Row(i));
    }
    forall j | 0 <= j < BoardSize
      ensures c'.cols[j] == c.cols[j]
    {
      PlaceCount(g, x, y, v, p, Col(j));
    }
    forall d | 0 <= d < 2
      ensures c'.diags[d] == c.diags[d]
    {
      PlaceCount(g, x, y, v, p, Diag(d));
    }
    assert c'.rows == c.rows && c'.cols == c.cols && c'.diags == c.diags;
  }

  /**
   * What a game's bookkeeping must satisfy: each player's counters are
   * exact for the board, and total is the number of non-blank cells.
   */
  ghost predicate Consistent(g: Grid, oc: PlayerCounts, xc: PlayerCounts, total: int) {
    && IsGrid(g)
    && oc == CountsFor(g, O)
    && xc == CountsFor(g, X)
    && total == Placed(g)
  }

  /** A new game's bookkeeping is consistent. */
  lemma StartConsistent()
    ensures Consistent(EmptyGrid(), ZeroCounts(), ZeroCounts(), 0)
  {
    EmptyGridCountsZero(O);
    EmptyGridCountsZero(X);
    EmptyGridCounts(O, Whole);
    EmptyGridCounts(X, Whole);
  }

  /**
   * A move onto a blank cell keeps the bookkeeping consistent when only the
   * mover's counters are bumped and the total goes up by one; the total
   * stays within the number of cells.
   */
  lemma MoveKeepsConsistent(g: Grid, oc: PlayerCounts, xc: PlayerCounts, total: int, x: int, y: int, p: Piece)
    requires Consistent(g, oc, xc, total) && InRange(x, y) && g[x][y] == B && p != B
    ensures Consistent(Place(g, x, y, p),
                       if p == O then Bump(oc, x, y) else oc,
                       if p == X then Bump(xc, x, y) else xc,
                       total + 1)
    ensures total + 1 <= BoardSize * BoardSize
  {
    PlaceIncrementsPlaced(g, x, y, p);
    PlacedPartition(Place(g, x, y, p));
    PlaceBumpsMoverCounts(g, x, y, p);
    if p == O {
      PlaceKeepsOtherCounts(g, x, y, O, X);
    } else {
      PlaceKeepsOtherCounts(g, x, y, X, O);
    }
  }

  /* ---------------------------------------------------------------------
   * Game-over test
   * ------------------------------------------------------------------- */

  function WinFor(p: Piece): GameResult {
    if p == O then OWin else XWin
  }

  /**
   * checkGameOver for piece p just placed at (x, y), with its counters c and
   * total pieces on the board: one function for both players, reading
   * cols[y] in both branches and testing every diagonal through the cell.
   * Only the mover can win, a full row or column through the cell always
   * wins, and a tie needs every cell filled.
   */
  function CheckGameOver(c: PlayerCounts, p: Piece, x: int, y: int, total: int): (r: GameResult)
    requires Shaped(c) && InRange(x, y)
    ensures r != WinFor(Opponent(p))
    ensures c.rows[x] == BoardSize || c.cols[y] == BoardSize ==> r == WinFor(p)
    ensures r == Tie ==> total == BoardSize * BoardSize
  {
    var diagWin := (OnDiagonal(0, x, y) && c.diags[0] == BoardSize)
                || (OnDiagonal(1, x, y) && c.diags[1] == BoardSize);
    var rowWin := c.rows[x] == BoardSize;
    var colWin := c.cols[y] == BoardSize;
    if diagWin || rowWin || colWin then WinFor(p)
    else if total == BoardSize * BoardSize then Tie
    else Pending
  }

  /**
   * checkGameOver as game-state.go writes it: the diagonal is the one
   * GetDiag names, and X's column test reads cols[x]. Only the mover can
   * win, a full row through the cell wins, a tie needs every cell filled.
   */
  function CheckGameOverAsWritten(c: PlayerCounts, p: Piece, x: int, y: int, total: int): (r: GameResult)
    requires Shaped(c) && InRange(x, y)
    ensures r != WinFor(Opponent(p))
    ensures c.rows[x] == BoardSize ==> r == WinFor(p)
    ensures r == Tie ==> total == BoardSize * BoardSize
  {
    if p == O && (var d := GetDiag(x, y);
                  (d >= 0 && c.diags[d] == BoardSize) || c.rows[x] == BoardSize || c.cols[y] == BoardSize)
    then OWin
    else if p != O && (var d := GetDiag(x, y);
                       (d >= 0 && c.diags[d] == BoardSize) || c.rows[x] == BoardSize || c.cols[x] == BoardSize)
    then XWin
    else if total == BoardSize * BoardSize then Tie
    else Pending
  }

  /**
   * The result a rescan of the board gives for p just placed at (x, y): a
   * win when the row, the column or a diagonal through the cell is all p,
   * a tie when the board is full, and pending otherwise.
   */
  function ScanResult(g: Grid, p: Piece, x: int, y: int): GameResult
    requires IsGrid(g) && InRange(x, y)
  {
    if RowFull(g, p, x) || ColFull(g, p, y)
       || (OnDiagonal(0, x, y) && DiagFull(g, p, 0)) || (OnDiagonal(1, x, y) && DiagFull(g, p, 1))
    then WinFor(p)
    else if BoardFull(g) then Tie
    else Pending
  }

  /**
   * The O(1) test on exact counters gives the same answer as rescanning
   * every line through the placed cell and the whole board.
   */
  lemma CheckGameOverMatchesScan(g: Grid, p: Piece, x: int, y: int)
    requires IsGrid(g) && InRange(x, y)
    ensures CheckGameOver(CountsFor(g, p), p, x, y, Placed(g)) == ScanResult(g, p, x, y)
  {
    var c := CountsFor(g, p);
    assert c.rows[x] == CountOnLine(g, p, Row(x)) && c.cols[y] == CountOnLine(g, p, Col(y));
    assert c.diags[0] == CountOnLine(g, p, Diag(0)) && c.diags[1] == CountOnLine(g, p, Diag(1));
    RowCountFull(g, p, x);
    ColCountFull(g, p, y);
    DiagCountFull(g, p, 0);
    DiagCountFull(g, p, 1);
    PlacedPartition(g);
  }

  /**
   * With the column typo, X completing column 1 by a move at (0, 1) is not
   * reported as a win; the corrected test reports it.
   */
  lemma ColumnTypoMissesWin()
    ensures var c := PlayerCounts([1, 1, 1], [0, 3, 0], [0, 0]);
            && CheckGameOverAsWritten(c, X, 0, 1, 6) == Pending
            && CheckGameOver(c, X, 0, 1, 6) == XWin
  {
  }

  /**
   * With getDiag as written, O completing the main diagonal at (2, 2) after
   * O at (0, 0) and (1, 1) and X at (0, 1) and (0, 2) is reported Pending:
   * the source's update never counted the centre. The corrected update
   * reaches BoardSize and reports OWin, as a rescan of the board does.
   */
  lemma DiagonalWinMissedAsWritten()
    ensures var asWritten := BumpAsWritten(BumpAsWritten(BumpAsWritten(ZeroCounts(), 0, 0), 1, 1), 2, 2);
            var corrected := Bump(Bump(Bump(ZeroCounts(), 0, 0), 1, 1), 2, 2);
            && CheckGameOverAsWritten(asWritten, O, 2, 2, 5) == Pending
            && CheckGameOver(corrected, O, 2, 2, 5) == OWin
            && ScanResult([[O, X, X], [B, O, B], [B, B, O]], O, 2, 2) == OWin
  {
  }

  /**
   * On counters that count corners only, as the source's update keeps
   * them, its test never reports a diagonal: every win it reports has a
   * full row, or a full column (cols[x] for X).
   */
  lemma AsWrittenWinsOnlyByRowOrColumn(g: Grid, p: Piece, x: int, y: int, c: PlayerCounts, total: int)
    requires IsGrid(g) && InRange(x, y) && Shaped(c)
    requires c.rows[x] == CountOnLine(g, p, Row(x))
    requires c.cols[x] == CountOnLine(g, p, Col(x)) && c.cols[y] == CountOnLine(g, p, Col(y))
    requires c.diags[0] == CountOnLine(g, p, Corner(0)) && c.diags[1] == CountOnLine(g, p, Corner(1))
    ensures CheckGameOverAsWritten(c, p, x, y, total) == WinFor(p)
            ==> RowFull(g, p, x) || ColFull(g, p, if p == O then y else x)
  {
    RowCountFull(g, p, x);
    ColCountFull(g, p, y);
    ColCountFull(g, p, x);
    CornerCountBounded(g, p, 0);
    CornerCountBounded(g, p, 1);
  }

  /**
   * For O the two tests read the same counters the same way everywhere but
   * the centre: the column typo is confined to X's branch, and GetDiag
   * names the diagonal of every other cell correctly.
   */
  lemma AsWrittenAgreesForOAwayFromCentre(c: PlayerCounts, x: int, y: int, total: int)
    requires Shaped(c) && InRange(x, y) && (x, y) != (1, 1)
    ensures CheckGameOverAsWritten(c, O, x, y, total) == CheckGameOver(c, O, x, y, total)
  {
  }

  /* ---------------------------------------------------------------------
   * Turn rotation
   * ------------------------------------------------------------------- */

  /** Whose turn it is: the piece to place, who places it, who moves after. */
  datatype Turn = Turn(piece: Piece, current: string, next: string)

  function Opponent(p: Piece): Piece {
    if p == O then X else O
  }

  /** The turn a new game starts with, nextPlayer set to the second user. */
  function InitialTurn(userA: string, userB: string): (t: Turn)
    ensures t.piece == O && t.current == userA && t.next == userB
  {
    Turn(O, userA, userB)
  }

  /**
   * The turn startGame leaves as written: O and userA to move, and
   * nextPlayer keeps the zero value "", whoever userB is.
   */
  function InitialTurnAsWritten(userA: string, userB: string): (t: Turn)
    ensures t.piece == O && t.current == userA
    ensures t.next == ""
  {
    Turn(O, userA, "")
  }

  /**
   * The rotation after a Pending result: the piece flips between O and X,
   * the waiting user moves next and the mover waits.
   */
  function AfterPending(t: Turn, mover: string): (t': Turn)
    ensures t.piece != B ==> t'.piece != B && t'.piece != t.piece
    ensures t'.current == t.next && t'.next == mover
  {
    Turn(Opponent(t.piece), t.next, mover)
  }

  /** Two pending moves by the current and then the next player restore the turn. */
  lemma TurnsAlternate(t: Turn)
    requires t.piece != B
    ensures AfterPending(t, t.current).current == t.next
    ensures AfterPending(t, t.current).piece != t.piece
    ensures AfterPending(AfterPending(t, t.current), t.next) == t
  {
  }

  /** From the corrected start the second user moves second, then the first again. */
  lemma InitialTurnAlternates(userA: string, userB: string)
    ensures AfterPending(InitialTurn(userA, userB), userA) == Turn(X, userB, userA)
    ensures AfterPending(Turn(X, userB, userA), userB) == InitialTurn(userA, userB)
  {
  }

  /** From the start as written, after the first pending move the second user is refused. */
  lemma SecondPlayerLockedOutAsWritten(userA: string, userB: string)
    requires userB != ""
    ensures AfterPending(InitialTurnAsWritten(userA, userB), userA).current != userB
  {
  }
}
