# Chess board data model

A verified Dafny model of the board data model of a small Kotlin chess
project (`src/Board.kt`). The board is a 64-cell array of pieces, addressed
through 1-indexed (column, row) accessors. It can write one square, write one
row, clear itself, lay out the standard starting position, and print itself as
text. The piece enumeration splits every piece into a kind and a colour, and
each piece has a three-character display symbol. There is also a table of move
patterns per kind that nothing uses.

The repository has no move generation, legality checking, check detection,
castling, en passant, promotion or undo. A full rules engine of that kind is
only described as intent, so the model covers only what the code implements.

## Layout

- `options.dfy`: module `Options`, the `Option` type used by the partial inverses.
- `pieces.dfy`: module `Pieces`. It holds `Piece`, `PieceType`, `PieceColor`
  and `PlayerColor`, plus `TypeOf`, `ColorOf` and `DisplaySymbol`, and the
  move-pattern table as literal data. `PieceOf` and `SymbolPiece` are the
  inverses used to state that kind and colour recover a piece and that symbols
  are distinct.
- `squares.dfy`: module `Squares`, the map from (column, row) to cell
  `(row - 1) * 8 + (column - 1)` and its inverse.
- `layout.dfy`: module `Layout`, the starting position square by square.
- `rendering.dfy`: module `Rendering`. It specifies the printed text of a
  board as a function of its 64 cells. Its lemmas prove the text's fixed length
  and layout, and `ReadBoard` reads a board back from its text.
- `board.dfy`: module `Boards`, the class `Board`. Its methods update the
  `board` array in place and are proved against the functions above.

`Board.GetPiece` is the getter (src/Board.kt:14-21). It reads cell
`Index(column, row)`. Its meaning is stated by the contracts of `Index`,
`SetPiece`, `SetRow`, `ClearBoard` and `SetBoardUp`, not by an `ensures` of
its own.

## Model

| member | source | states |
|---|---|---|
| Squares.Index | src/Board.kt:14-21 | For column and row in 1..8, the cell lies in 0..63, inside the block of eight cells that belongs to the row |
| Squares.IndexInverse | src/Board.kt:14-21 | `ColumnOf` and `RowOf` give back the column and row of a square from its cell |
| Squares.IndexOnto | src/Board.kt:14-21 | Every cell 0..63 is the cell of some square, so the address map is onto the 64 cells |
| Squares.IndexInjective | src/Board.kt:28-34 | Two squares with the same cell are the same square, so the address map is one-to-one |
| Squares.ColumnOf | src/Board.kt:14-21 | The column recovered from a cell is in 1..8 |
| Squares.RowOf | src/Board.kt:14-21 | The row recovered from a cell is in 1..8 |
| Boards.Board.constructor | src/Board.kt:4-6 | A new board has 64 cells, all empty, with white to move and no king moved |
| Boards.Board.SetPiece | src/Board.kt:28-35 | Afterwards the square holds `value`; every other square, and every other cell, keeps its piece |
| Boards.RowWritten | src/Board.kt:52-63 | The cells with one row overwritten: that row's columns 1..8 hold the eight pieces in order, and every cell of another row is untouched |
| Boards.RowWrittenByUpdates | src/Board.kt:52-63 | Writing a row's eight squares one after another, columns 1..8, gives the cells with that row overwritten |
| Boards.Board.SetRow | src/Board.kt:52-63 | Afterwards the row's columns 1..8 hold the eight arguments in order, and every square of any other row keeps its piece |
| Boards.Board.ClearBoard | src/Board.kt:69-73 | Afterwards all 64 cells are empty. The loop keeps cells `0 .. i-1` empty |
| Boards.StartingByRows | src/Board.kt:79-95 | Writing rows 1, 2, 8 and 7 with the code's pieces, in that order, onto an empty board gives the starting position |
| Boards.Board.SetBoardUp | src/Board.kt:79-95 | Afterwards every square holds its starting piece, and the whole array equals the starting position |
| Layout.BackRank | src/Board.kt:82-91 | A back rank has eight pieces of one colour, of kinds R N B Q K B N R in columns 1..8 |
| Layout.StartingPiece | src/Board.kt:79-95 | In the starting position rows 3..6 are empty. White occupies exactly rows 1-2 and black exactly rows 7-8. Pawns stand exactly on rows 2 and 7. The only white king is on E1 and the only black king on E8 |
| Layout.StartingCells | src/Board.kt:79-95 | The starting position as 64 cells: the cell of every square holds that square's starting piece |
| Layout.StartingMirror | src/Board.kt:82-94 | A square and its mirror across the middle of the board hold the same kind in opposite colours |
| Pieces.TypeOf | src/Board.kt:103-113 | The kind is empty exactly for the empty cell |
| Pieces.ColorOf | src/Board.kt:115-125 | The colour is empty exactly for the empty cell, which is exactly when the kind is empty |
| Pieces.PieceOf | src/Board.kt:103-125 | The inverse of (kind, colour): a piece it returns has that kind and colour. It returns nothing exactly when one of the two is empty and the other is not |
| Pieces.TypeColorRecoverPiece | src/Board.kt:103-125 | Kind and colour together give back the piece |
| Pieces.TypeColorInjective | src/Board.kt:103-125 | No two pieces share both their kind and their colour |
| Pieces.DisplaySymbol | src/Board.kt:127-143 | Every symbol has three characters, with the kind's letter in the middle. The outer two characters are equal: underscores exactly for black pieces, blanks otherwise |
| Pieces.SymbolPieceExact | src/Board.kt:127-143 | A text reads as a piece exactly when it is that piece's display symbol |
| Pieces.DisplaySymbolInjective | src/Board.kt:127-143 | Distinct pieces have distinct symbols |
| Pieces.KingMoves | src/Board.kt:151-160 | Eight distinct single-offset patterns, each reaching a neighbouring square |
| Pieces.RookMoves | src/Board.kt:171-176 | Four distinct straight patterns built from the ranges 0..0, 1..7 and -1..-7, each moving along exactly one axis. A pattern holds offsets only when neither range runs negative |
| Pieces.BishopMoves | src/Board.kt:177-182 | Four distinct diagonal patterns built from the ranges 1..7 and -1..-7. A pattern holds offsets only when neither range runs negative |
| Pieces.KnightMoves | src/Board.kt:183-192 | Eight distinct single-offset patterns, each one cell along one axis and two along the other |
| Pieces.Moves | src/Board.kt:149-199 | The table has 8, 8, 4, 4, 8, 1 and 0 entries for king, queen, rook, bishop, knight, pawn and empty. The king's, rook's, bishop's and knight's tables are their own pattern lists, so those lists' contracts carry over. The queen's table is the rook's followed by the bishop's, and the pawn's is the single pattern (0..0, 2..2) |
| Rendering.RankLabel | src/Board.kt:41 | A row number prints as one character, the decimal digit of that row in 1..8 |
| Rendering.RankLabelValue | src/Board.kt:41 | The printed digit's numeric value is the row number itself |
| Rendering.RankCellsAt | src/Board.kt:42-44 | The eight cells a printed row shows are, in column order, the cells of that row's squares |
| Rendering.SymbolsAt | src/Board.kt:42-44 | In a printed run of cells, cell k occupies characters 3k .. 3k+3 |
| Rendering.RankLinesAt | src/Board.kt:40-46 | Row `row` occupies characters 29(row-1) .. 29 row of the printed rows |
| Rendering.RenderLength | src/Board.kt:38-49 | The text has 261 characters, whatever the board holds |
| Rendering.RenderFrame | src/Board.kt:38-49 | The text starts with a newline. Each row's line starts with the row number and a space-bar-space separator and ends with a newline. The footer closes the text |
| Rendering.RenderCell | src/Board.kt:38-49 | The three characters in the slot of square (column, row) are the symbol of the piece in that square's cell |
| Rendering.ReadBoard | src/Board.kt:38-49 | Reading a text back gives 64 cells whose symbols are the text's 64 slots |
| Rendering.RenderReadBack | src/Board.kt:38-49 | Reading the text of a board gives back exactly that board |
| Rendering.RenderInjective | src/Board.kt:38-49 | Different boards print different texts |
| Boards.Board.ToString | src/Board.kt:38-49 | Its nested loops build exactly the text `Render` specifies for the current cells, so it has 261 characters |

## Left out

- Out-of-range coordinates: the code does no bounds checking. A column of 9
  silently reads or writes the first cell of the next row, and a cell index
  outside 0..63 throws. The accessors here require column and row in 1..8
  instead of modelling the aliasing or the exception.
- `moveHistory` (src/Board.kt:7), the `MoveHistoryItem` class
  (src/Board.kt:216-220) and the `MoveType` enumeration (src/Board.kt:211-213)
  are left out. The class is empty and is built on the foreign `java.awt.Point`
  type, and nothing reads or writes the list.
- `playerTurn` and `kingMoved` are kept as fields and initialised as in the
  code. No operation reads or writes them, and the methods' frames (they modify
  only the array) show that they stay unchanged.
- Pieces.Moves: the table is modelled as literal data with Kotlin's `IntRange`
  meaning (`first..last` holds nothing when `first > last`, so `-1..-7` is
  empty). Nothing in the code consumes the table, so the model does not give it
  stepping or sliding semantics.
- Boards.Board.GetPiece: it carries no `ensures` of its own. It reads cell
  `Index(column, row)`, and what that means is stated by `Index` and by the
  write operations' contracts, which are phrased through `GetPiece`.
- Boards.Board.ToString: Kotlin's `Int.toString` is modelled only for the row
  numbers 1..8 that the loop uses. The JVM's string representation is not
  modelled; text is a sequence of characters.
