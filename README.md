# Tic-tac-toe game state, modelled and verified in Dafny

This project models the game-state engine of a two-player tic-tac-toe
service (`game-state.go`). The board is fixed at 3 x 3 (`boardSize`). Each
player keeps line counters: per row, per column and for two diagonals. These
let a move be judged in constant time. A move is validated, placed and
counted, the game is judged, and the turn passes to the other user. Games
are kept in a table keyed by the unordered pair of user names.

Modules:

- `Rules` (`rules.dfy`) holds the pure vocabulary:
  - pieces, results and errors;
  - the board as a value (`Grid`);
  - `getDiag` as written (`GetDiag`) and the diagonals as intended (`OnDiagonal`);
  - the counters (`PlayerCounts`, `Bump`, and `BumpAsWritten` for the source's update);
  - `checkGameOver` (`CheckGameOver`, and `CheckGameOverAsWritten`);
  - the turn rotation.

  It also defines what the counters are meant to be. `CountOnLine` counts a
  player's pieces on a line of the board, and `Consistent` says that the
  counters and the piece total agree with the board. `ScanResult` is a
  reference game-over test that rescans the lines through the placed cell
  and looks for a blank cell anywhere on the board.
- `Play` (`play.dfy`) holds a whole game as a value (`Game`). `Move` is
  `makeMove` as a function on it. The properties of moves are proved here.
- `Engine` (`engine.dfy`) is the imperative part:
  - `Board` wraps the `array2<Piece>` that `*Board` points to;
  - `InitBoard` fills it with nested loops;
  - `GameState` is a class with the Go struct's fields.

  `GameState.MakeMove` updates the board cell, the counters, the total and
  the turn in place. Its contract ties the new state, the error and the
  result to `Move` applied to the old state.
- `Registry` (`registry.dfy`) holds `getUserPairKey`. It also holds
  `GameRegistry`, a class whose `currentGames` map field is updated by
  `StartGame` and `ClearGame`.

How the source is read:

- The source spells some fields two ways. `currentPiece`, `currentPlayer`
  and `totalCount` are read as the declared `currPiece`, `currPlayer` and
  `totalPieces`. `*board[x][y]` is read as a write to the board that the
  game points to.
- Errors are the enum `MoveError` (`WrongTurn`, `OutOfRange`,
  `CellOccupied`), wrapped in `Option`; `None` is Go's `nil`.
- Go's `<=` on strings compares UTF-8 bytes. Here it is `LexLessEq`, which
  compares characters by code point. For valid Unicode text the two orders
  agree, because UTF-8 keeps code-point order.
- `getDiag` as written classifies only the four corners, so the centre is
  on neither diagonal. The counters it feeds never exceed 2 on a diagonal
  (`CornerCountBounded`), and no diagonal win is ever reported. This is
  recorded under "Findings". `GetDiag`, `BumpAsWritten` and
  `CheckGameOverAsWritten` keep the code as written. The game itself (`Bump`,
  `CheckGameOver`, `Move`, `MakeMove`) counts every cell of a diagonal, with
  the centre on both, as the comments at game-state.go:24-30 and 131-135 say.
- There is no terminal flag, as in the source. Moves after a win are
  accepted while blank cells remain, and the winner keeps the turn
  (`WinnerMovesAgain`). A full board refuses every move
  (`FullBoardRefusesEveryMove`).
- Whose turn it is agrees with the board (`Balanced`): with O to move both
  players have placed the same number of pieces, with X to move O has one
  more. A new game is balanced and every move that returns Pending keeps
  it. A win leaves the turn with the winner, so the balance holds only up
  to the first win.

## Model

| member | source | states |
|---|---|---|
| Rules.GetDiag | game-state.go:117-129 | getDiag answers -1 (no diagonal), 0 or 1. A cell it assigns to diagonal 0 has x == y, and a cell it assigns to diagonal 1 has x + y == last. |
| Rules.GetDiagClassifiesCorners | game-state.go:117-129 | getDiag is 0 exactly for (0,0) and (last,last), and 1 exactly for the other two corners (x + y == last, x != y); every other cell, the centre included, gets -1 |
| Rules.CentreNotClassified | game-state.go:117-129 | the centre cell (1,1) lies on both diagonals but getDiag gives it -1 |
| Rules.CornerCountBounded | game-state.go:117-129 | a count of the corners getDiag assigns to one diagonal is at most 2 < boardSize, so a diagonal win is never detected |
| Rules.EmptyGrid | game-state.go:89-96 | the board initBoard produces: 3 x 3, every cell B |
| Engine.InitBoard | game-state.go:89-96 | after the nested loops every cell of the array is B, and the board's value is EmptyGrid |
| Rules.Place | game-state.go:185 | writing p at (x, y) sets that cell to p and leaves every other cell as it was |
| Engine.Board.Set | game-state.go:185 | the in-place write of one array cell, keeping the array in step with its value |
| Rules.PlaceCount | game-state.go:185-202 | placing v on a blank cell raises v's count on every line through the cell by one. No other count changes. |
| Rules.PlaceIncrementsPlaced | game-state.go:185-186 | placing a piece on a blank cell raises the number of non-blank cells by exactly one, matching totalPieces++ |
| Rules.ZeroCounts | game-state.go:100-109 | the counters a new GameState starts with: three rows, three columns and two diagonals, all zero |
| Rules.Bump | game-state.go:188-202 | the counter update keeps the counters' shape: three rows, three columns, two diagonals |
| Rules.BumpLines | game-state.go:188-202 | the counter update raises rows[x], cols[y] and each diagonal through (x, y) by one. It changes nothing else. |
| Rules.BumpAsWritten | game-state.go:188-202 | the update as written changes rows and columns as Bump does. A diagonal counter goes up only when getDiag names it, so a move at the centre changes no diagonal counter. |
| Rules.EmptyGridCountsZero | game-state.go:100-109 | on the blank board the exact counters are the zero counters a new GameState starts with |
| Rules.PlaceBumpsRowsCols | game-state.go:188-190 | after a move the mover's exact row and column counters are the old ones raised at row x and column y |
| Rules.PlaceBumpsMoverCounts | game-state.go:188-202 | after a move the mover's exact counters are the old ones bumped at (x, y) |
| Rules.PlaceBumpsCornerCounts | game-state.go:188-202 | the update as written keeps its diagonal counters equal to the mover's pieces on the corners getDiag classifies |
| Rules.PlaceKeepsOtherCounts | game-state.go:188-202 | after a move the other player's exact counters are unchanged |
| Rules.RowCountFull | game-state.go:131-140 | a row counter equals boardSize exactly when the whole row holds the player's piece |
| Rules.ColCountFull | game-state.go:131-141 | a column counter equals boardSize exactly when the whole column holds the player's piece |
| Rules.DiagCountFull | game-state.go:24-30 | a diagonal counter equals boardSize exactly when the whole diagonal holds the player's piece |
| Rules.PlacedPartition | game-state.go:157-160 | the pieces placed number at most boardSize^2, and exactly boardSize^2 when no cell is blank, which is the tie test |
| Rules.StartConsistent | game-state.go:100-109 | a new game's zero counters and zero total are exact for the blank board |
| Rules.MoveKeepsConsistent | game-state.go:185-202 | a move onto a blank cell that bumps only the mover's counters and adds one to the total keeps everything exact. The total stays at most boardSize^2. |
| Rules.CheckGameOver | game-state.go:131-163 | only the mover can win. A full row or column through (x, y) always wins. A tie needs a total of boardSize^2. |
| Rules.CheckGameOverAsWritten | game-state.go:136-163 | as written: only the mover can win, a full row through (x, y) wins, and a tie needs a total of boardSize^2 |
| Rules.CheckGameOverMatchesScan | game-state.go:131-163 | with exact counters, the constant-time test equals a rescan of the board. A full row, column or diagonal through (x, y) wins; otherwise a full board ties; otherwise the game is Pending. |
| Rules.ColumnTypoMissesWin | game-state.go:150 | with cols[x], X completing column 1 at (0, 1) with a total of 6 gets Pending; the corrected test gives XWin |
| Rules.DiagonalWinMissedAsWritten | game-state.go:117-129 | with the update and test as written, O completing the main diagonal at (2, 2) gets Pending. The corrected counters give OWin, as a rescan of that board does. |
| Rules.AsWrittenWinsOnlyByRowOrColumn | game-state.go:136-155 | on the corner-only counters the source keeps, every win the test as written reports has a full row or a full column, never a diagonal alone |
| Rules.AsWrittenAgreesForOAwayFromCentre | game-state.go:136-145 | for O the test as written and the corrected test agree on every cell but the centre. The column typo is confined to X's branch. |
| Rules.InitialTurn | game-state.go:105 | the corrected start: O and userA to move, userB next |
| Rules.InitialTurnAsWritten | game-state.go:105 | startGame as written puts O and userA to move, with nextPlayer left at "" |
| Rules.AfterPending | game-state.go:211-220 | after a Pending move the piece flips between O and X, the waiting user moves and the mover waits |
| Rules.TurnsAlternate | game-state.go:211-220 | after a Pending move the piece flips and the next user is to move. Two Pending moves by the two users restore the turn. |
| Rules.InitialTurnAlternates | game-state.go:98-109 | from the corrected start, userB moves second and userA third |
| Rules.SecondPlayerLockedOutAsWritten | game-state.go:105 | with nextPlayer left at "", after the first Pending move the current player is "" and not userB |
| Play.Start | game-state.go:98-109 | a new game: blank board, total 0, O and userA to move, userB next |
| Play.Validate | game-state.go:173-183 | the move is accepted exactly when the user is the current player, (x, y) is on the board and the cell is blank. Otherwise the error is WrongTurn for the wrong user; else OutOfRange off the board; else CellOccupied. |
| Play.Move | game-state.go:170-223 | a refused move leaves the game as it was and reports Pending. An accepted move puts the current piece on (x, y) and adds one to the total. |
| Play.StartIsGood | game-state.go:98-109 | a new game's bookkeeping is exact, and O and userA are to move with userB next |
| Play.MoveKeepsGood | game-state.go:170-223 | every move, accepted or refused, keeps the counters and the total exact for the board. The total never exceeds boardSize^2. |
| Play.MoveResultIsScan | game-state.go:204-209 | the result of an accepted move is the rescan result for the mover on the new board, diagonals included |
| Play.MoveCountsMover | game-state.go:188-202 | an accepted move bumps the mover's counters at (x, y): its rows[x], cols[y] and each diagonal through (x, y) go up by one and no other entry changes. The opponent's counters stay untouched. |
| Play.MoveTurn | game-state.go:204-220 | after Pending the piece flips, the old next user moves and the mover becomes next. After a terminal result the turn is unchanged. |
| Play.FullBoardRefusesEveryMove | game-state.go:181-183 | on a full board every move is refused |
| Play.StartBalanced | game-state.go:100-109 | a new game is balanced: an empty board with O to move |
| Play.PlaceKeepsBalanced | game-state.go:185-216 | placing the mover's piece on a blank cell and switching to the other piece keeps the two players' piece counts in step with whose turn it is |
| Play.PendingKeepsBalanced | game-state.go:170-222 | every move that returns Pending, accepted or refused, keeps the game balanced: with O to move both players have the same number of pieces, with X to move O has one more |
| Play.WinnerMovesAgain | game-state.go:204-222 | nothing ends a game: after userA's win on row 0 userA still holds the turn, a sixth move at (2, 2) is accepted and reported Pending although row 0 is still full, and the turn passes to userB |
| Play.FirstUserWinsRow | game-state.go:170-223 | moves at (0,0), (1,0), (0,1), (1,1), (0,2) by alternating users are Pending four times, then OWin |
| Play.FirstUserWinsDiagonal | game-state.go:170-223 | moves at (0,0), (0,1), (1,1), (0,2), (2,2) by alternating users are Pending four times, then OWin through the centre |
| Play.WrongUserRefused | game-state.go:173-175 | on every game, a move by a user who is not the current player, at any (x, y), is refused with WrongTurn and changes nothing |
| Engine.GameState.constructor | game-state.go:98-107 | a fresh board of blanks, zero counters and a zero total. O is to move, userA moves first and userB after. The bookkeeping is exact. |
| Engine.GameState.MakeMove | game-state.go:170-223 | the new state, error and result equal Move on the old state. The board object stays the same, a refused move leaves the array untouched, and exact bookkeeping stays exact. |
| Engine.GameState.Accept | game-state.go:185-222 | the accepted half of makeMove: the array cell is written, the counters and total are updated, the game is judged and the turn rotates, all as Move says |
| Registry.LexTotal | game-state.go:82-87 | any two names are ordered one way or the other, so a key always exists |
| Registry.LexAntisymmetric | game-state.go:82-87 | two names ordered both ways are equal |
| Registry.GetUserPairKey | game-state.go:74-87 | the key is the smaller name, "$$", the larger name. When userA <= userB it starts with userA, otherwise with userB. |
| Registry.PairKeySymmetric | game-state.go:74-87 | the key does not depend on the order in which the two users are named |
| Registry.PairKeyInjective | game-state.go:68-87 | for names without '$', two pairs share a key only when they are the same two users |
| Registry.PairKeyCollision | game-state.go:82-87 | names containing '$' can collide: ("$", "$x") and ("$$", "x") both get "$$$$x" |
| Registry.GameRegistry.constructor | game-state.go:68-72 | the table of ongoing games starts empty |
| Registry.GameRegistry.StartGame | game-state.go:98-109 | a new valid game is stored under the pair key, replacing any game the pair had. Every other entry is untouched. |
| Registry.GameRegistry.ClearGame | game-state.go:111-115 | the pair key's entry is deleted; nothing else changes |
| Registry.RestartReplaces | game-state.go:74-81 | starting a game again, with the users named in either order, overwrites the pair's earlier game |
| Registry.ClearEitherOrder | game-state.go:111-115 | clearing with the users named in either order removes the same entry |
| Registry.OtherPairsUntouched | game-state.go:98-115 | for names without '$', starting or clearing one pair's game leaves every other pair's entry as it was |

## Left out

- The text of the errors built with `fmt.Errorf` (game-state.go:174, 178, 182). Only the kind of error is modelled.
- `clearGame`'s error result, which is always nil (game-state.go:114). `ClearGame` returns nothing.
- `currentGames` is one process-wide map. Here it is a field of a `GameRegistry` object. Concurrency and locking around the map are outside the model.
- Registry.GameRegistry.constructor: game-state.go:72 declares `currentGames` without creating it, and nothing in the file calls `make`. A Go map left nil panics on the write in `startGame` (line 107). The model assumes the map is created before the first game starts, so it begins empty and `StartGame` always succeeds. The panic is not modelled.
- Engine.GameState.MakeMove: the exact bookkeeping (`Good`) is not part of the object invariant `Valid`. Instead the constructor ensures it and `MakeMove` promises to keep it. Putting it into `Valid` made the in-place proof too expensive for the verifier. The invariant is proved in full on the value `Game` (`Play.MoveKeepsGood`).
- Go's `<=` compares strings byte by byte. `LexLessEq` compares characters. The two agree for valid Unicode text, which is all `string` can hold here.

## Findings

| source | as written | input that shows it | evidently intended | confidence | as-written member | corrected member |
|---|---|---|---|---|---|---|
| game-state.go:150 | X's column test reads `xCounts.cols[x]` | X completes column 1 with a move at (0, 1): `cols[1] == 3`, `cols[0] == 0`, total 6 | `cols[y]`, as in O's branch (line 141) and the comment at lines 131-135 | not executed | Rules.ColumnTypoMissesWin | Rules.CheckGameOverMatchesScan |
| game-state.go:105 | `startGame` never sets `nextPlayer`, so it stays "" | userA makes the first move with a Pending result; `currPlayer` becomes "" and every move by userB is refused | `nextPlayer` set to userB, as the comment at line 218 implies | not executed | Rules.SecondPlayerLockedOutAsWritten | Rules.InitialTurnAlternates |
| game-state.go:117-129 | `getDiag` classifies only the four corners, so the centre is counted on neither diagonal (lines 188-202) and no diagonal counter reaches 3 | O at (0, 0), (1, 1), (2, 2) and X at (0, 1), (0, 2): the move at (2, 2) leaves `diags[0] == 2` and returns Pending | every cell with x == y counted on diagonal 0 and every cell with x + y == 2 on diagonal 1, the centre on both, as the comments at lines 24-30 and 131-135 say | not executed | Rules.DiagonalWinMissedAsWritten | Rules.CheckGameOverMatchesScan |
