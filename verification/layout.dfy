/**
 * The standard chess starting position, square by square: white's back rank
 * on row 1 and pawns on row 2, black's pawns on row 7 and back rank on row 8,
 * rows 3 to 6 empty.
 */
module Layout {
  import opened Pieces
  import opened Squares

  /** The back rank of one colour, in columns 1..8: R N B Q K B N R. */
  function BackRank(color: PlayerColor): (r: seq<Piece>)
    ensures |r| == 8
    ensures forall k :: 0 <= k < 8 ==>
              ColorOf(r[k]) == (if color == PlayerColor.White then PieceColor.White else PieceColor.Black)
    ensures forall k :: 0 <= k < 8 ==> TypeOf(r[k]) == [Rook, Knight, Bishop, Queen, King, Bishop, Knight, Rook][k]
  {
    if color == PlayerColor.White then
      [RookWhite, KnightWhite, BishopWhite, QueenWhite, KingWhite, BishopWhite, KnightWhite, RookWhite]
    else
      [RookBlack, KnightBlack, BishopBlack, QueenBlack, KingBlack, BishopBlack, KnightBlack, RookBlack]
  }

  /**
   * The piece the starting position puts on a square. White occupies exactly
   * rows 1 and 2, black exactly rows 7 and 8; pawns stand exactly on rows 2
   * and 7; the one white king is on E1 and the one black king on E8.
   */
  function StartingPiece(column: int, row: int): (p: Piece)
    requires InRange(column, row)
    ensures p == Piece.Empty <==> 3 <= row <= 6
    ensures ColorOf(p) == PieceColor.White <==> row <= 2
    ensures ColorOf(p) == PieceColor.Black <==> row >= 7
    ensures TypeOf(p) == Pawn <==> row == 2 || row == 7
    ensures p == KingWhite <==> column == 5 && row == 1
    ensures p == KingBlack <==> column == 5 && row == 8
  {
    if row == 1 then BackRank(PlayerColor.White)[column - 1]
    else if row == 2 then PawnWhite
    else if row == 7 then PawnBlack
    else if row == 8 then BackRank(PlayerColor.Black)[column - 1]
    else Piece.Empty
  }

  /** The whole starting position as the 64 cells of the board array. */
  function StartingCells(): (cells: seq<Piece>)
    ensures |cells| == 64
    ensures forall column, row :: InRange(column, row) ==>
              cells[Index(column, row)] == StartingPiece(column, row)
  {
    seq(64, i requires 0 <= i < 64 => StartingPiece(ColumnOf(i), RowOf(i)))
  }

  /**
   * The position is symmetric between the two sides: a square and its mirror
   * across the middle of the board hold the same kind, in opposite colours.
   */
  lemma StartingMirror(column: int, row: int)
    requires InRange(column, row)
    ensures TypeOf(StartingPiece(column, row)) == TypeOf(StartingPiece(column, 9 - row))
    ensures ColorOf(StartingPiece(column, row)) == PieceColor.White <==>
            ColorOf(StartingPiece(column, 9 - row)) == PieceColor.Black
  {
  }
}
