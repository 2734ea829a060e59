/**
 * The board object: a 64-cell array of pieces addressed through 1-indexed
 * (column, row) accessors, operations that write one square, one row or the
 * whole board in place, the standard set-up, and the board's text form.
 */
module Boards {
  import opened Pieces
  import opened Squares
  import opened Layout
  import opened Rendering

  /** `cells` with row `row` overwritten by `pieces`, columns 1..8 in order. */
  function RowWritten(cells: seq<Piece>, row: int, pieces: seq<Piece>): (r: seq<Piece>)
    requires |cells| == 64 && 1 <= row <= 8 && |pieces| == 8
    ensures |r| == 64
    ensures forall column :: 1 <= column <= 8 ==> r[Index(column, row)] == pieces[column - 1]
    ensures forall i :: 0 <= i < 64 && RowOf(i) != row ==> r[i] == cells[i]
  {
    var r := seq(64, i requires 0 <= i < 64 => if RowOf(i) == row then pieces[ColumnOf(i) - 1] else cells[i]);
    assert forall column :: 1 <= column <= 8 ==> r[Index(column, row)] == pieces[column - 1] by {
      forall column | 1 <= column <= 8
        ensures r[Index(column, row)] == pieces[column - 1]
      {
        IndexInverse(column, row);
      }
    }
    r
  }

  /** Writing the eight squares of a row one by one, columns 1..8, overwrites that row. */
  lemma RowWrittenByUpdates(cells: seq<Piece>, row: int, pieces: seq<Piece>)
    requires |cells| == 64 && 1 <= row <= 8 && |pieces| == 8
    ensures cells[Index(1, row) := pieces[0]][Index(2, row) := pieces[1]]
                 [Index(3, row) := pieces[2]][Index(4, row) := pieces[3]]
                 [Index(5, row) := pieces[4]][Index(6, row) := pieces[5]]
                 [Index(7, row) := pieces[6]][Index(8, row) := pieces[7]]
         == RowWritten(cells, row, pieces)
  {
    var written := cells[Index(1, row) := pieces[0]][Index(2, row) := pieces[1]]
                        [Index(3, row) := pieces[2]][Index(4, row) := pieces[3]]
                        [Index(5, row) := pieces[4]][Index(6, row) := pieces[5]]
                        [Index(7, row) := pieces[6]][Index(8, row) := pieces[7]];
    forall i | 0 <= i < 64
      ensures written[i] == RowWritten(cells, row, pieces)[i]
    {
      IndexOnto(i);
    }
  }

  /**
   * Writing the four occupied rows, in the order 1, 2, 8, 7, onto an empty
   * board gives the starting position.
   */
  lemma StartingByRows(cells: seq<Piece>)
    requires |cells| == 64 && forall i :: 0 <= i < 64 ==> cells[i] == Piece.Empty
    ensures RowWritten(RowWritten(RowWritten(RowWritten(cells,
              1, [RookWhite, KnightWhite, BishopWhite, QueenWhite, KingWhite, BishopWhite, KnightWhite, RookWhite]),
              2, [PawnWhite, PawnWhite, PawnWhite, PawnWhite, PawnWhite, PawnWhite, PawnWhite, PawnWhite]),
              8, [RookBlack, KnightBlack, BishopBlack, QueenBlack, KingBlack, BishopBlack, KnightBlack, RookBlack]),
              7, [PawnBlack, PawnBlack, PawnBlack, PawnBlack, PawnBlack, PawnBlack, PawnBlack, PawnBlack])
         == StartingCells()
  {
    var white := [RookWhite, KnightWhite, BishopWhite, QueenWhite, KingWhite, BishopWhite, KnightWhite, RookWhite];
    var black := [RookBlack, KnightBlack, BishopBlack, QueenBlack, KingBlack, BishopBlack, KnightBlack, RookBlack];
    var written := RowWritten(RowWritten(RowWritten(RowWritten(cells,
                     1, white), 2, seq(8, _ => PawnWhite)), 8, black), 7, seq(8, _ => PawnBlack));
    forall i | 0 <= i < 64
      ensures written[i] == StartingCells()[i]
    {
      IndexOnto(i);
    }
  }

  class Board {
    /** The cells, rank by rank: square (column, row) is cell Index(column, row). */
    var board: array<Piece>
    /** Side to move; initialised to white and otherwise untouched. */
    var playerTurn: PlayerColor
    /** Initialised to false and otherwise untouched. */
    var kingMoved: bool

    ghost predicate Valid()
      reads this
    {
      board.Length == 64
    }

    /** A new board: 64 empty cells, white to move, no king moved. */
    constructor ()
      ensures Valid() && fresh(board)
      ensures forall i :: 0 <= i < 64 ==> board[i] == Piece.Empty
      ensures playerTurn == PlayerColor.White && !kingMoved
    {
      board := new Piece[64](_ => Piece.Empty);
      playerTurn := PlayerColor.White;
      kingMoved := false;
    }

    /** The piece on a square, read from the square's cell. */
    function GetPiece(column: int, row: int): (p: Piece)
      reads this, board
      requires Valid() && InRange(column, row)
    {
      board[Index(column, row)]
    }

    /**
     * Puts `value` on a square. Reading that square afterwards gives `value`;
     * every other square keeps its piece.
     */
    method SetPiece(column: int, row: int, value: Piece)
      requires Valid() && InRange(column, row)
      modifies board
      ensures Valid()
      ensures board[..] == old(board[..])[Index(column, row) := value]
      ensures GetPiece(column, row) == value
      ensures forall c, r :: InRange(c, r) && (c, r) != (column, row) ==> GetPiece(c, r) == old(GetPiece(c, r))
    {
      var index := Index(column, row);
      board[index] := value;
      forall c, r | InRange(c, r) && (c, r) != (column, row)
        ensures GetPiece(c, r) == old(GetPiece(c, r))
      {
        if Index(c, r) == index {
          IndexInjective(c, r, column, row);
        }
      }
    }

    /**
     * Writes one row, columns 1..8 from `one` to `eight`; every square of the
     * other rows keeps its piece.
     */
    method SetRow(row: int, one: Piece, two: Piece, three: Piece, four: Piece,
                  five: Piece, six: Piece, seven: Piece, eight: Piece)
      requires Valid() && 1 <= row <= 8
      modifies board
      ensures Valid()
      ensures board[..] == RowWritten(old(board[..]), row, [one, two, three, four, five, six, seven, eight])
      ensures forall c :: 1 <= c <= 8 ==>
                GetPiece(c, row) == [one, two, three, four, five, six, seven, eight][c - 1]
      ensures forall c, r :: InRange(c, r) && r != row ==> GetPiece(c, r) == old(GetPiece(c, r))
      ensures forall i :: 0 <= i < 64 && RowOf(i) != row ==> board[i] == old(board[i])
    {
      ghost var before := board[..];
      SetPiece(1, row, one);
      SetPiece(2, row, two);
      SetPiece(3, row, three);
      SetPiece(4, row, four);
      SetPiece(5, row, five);
      SetPiece(6, row, six);
      SetPiece(7, row, seven);
      SetPiece(8, row, eight);
      ghost var pieces := [one, two, three, four, five, six, seven, eight];
      RowWrittenByUpdates(before, row, pieces);
    }

    /** Empties every cell. */
    method ClearBoard()
      requires Valid()
      modifies board
      ensures Valid()
      ensures forall i :: 0 <= i < 64 ==> board[i] == Piece.Empty
      ensures forall c, r :: InRange(c, r) ==> GetPiece(c, r) == Piece.Empty
    {
      for i := 0 to board.Length
        invariant forall k :: 0 <= k < i ==> board[k] == Piece.Empty
      {
        board[i] := Piece.Empty;
      }
    }

    /** Lays out the standard starting position on every square. */
    method SetBoardUp()
      requires Valid()
      modifies board
      ensures Valid()
      ensures forall c, r :: InRange(c, r) ==> GetPiece(c, r) == StartingPiece(c, r)
      ensures board[..] == StartingCells()
    {
      ClearBoard();
      ghost var empty := board[..];
      SetRow(1, RookWhite, KnightWhite, BishopWhite, QueenWhite, KingWhite, BishopWhite, KnightWhite, RookWhite);
      SetRow(2, PawnWhite, PawnWhite, PawnWhite, PawnWhite, PawnWhite, PawnWhite, PawnWhite, PawnWhite);
      SetRow(8, RookBlack, KnightBlack, BishopBlack, QueenBlack, KingBlack, BishopBlack, KnightBlack, RookBlack);
      SetRow(7, PawnBlack, PawnBlack, PawnBlack, PawnBlack, PawnBlack, PawnBlack, PawnBlack, PawnBlack);
      StartingByRows(empty);
    }

    /** The board's text form, built row by row and column by column. */
    method ToString() returns (value: string)
      requires Valid()
      ensures value == Render(board[..])
      ensures |value| == 261
    {
      ghost var cells := board[..];
      value := "\n";
      for r := 1 to 9
        invariant value == "\n" + RankLines(cells, r)
      {
        value := value + RankLabel(r) + " | ";
        ghost var head := value;
        ghost var rank := RankCells(cells, r);
        for c := 1 to 9
          invariant value == head + Symbols(rank[..c - 1])
        {
          RankCellsAt(cells, r, c);
          SymbolsAppend(rank, c - 1, head, value);
          value := value + DisplaySymbol(GetPiece(c, r));
        }
        assert rank[..8] == rank;
        RankLinesAppend(cells, r, head, value);
        value := value + "\n";
      }
      value := value + Footer;
      RenderLength(cells);
    }
  }
}
