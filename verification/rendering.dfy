/**
 * The text the board prints itself as: a leading newline, then for each row
 * 1..8 its number, " | ", the symbols of columns 1..8 and a newline, then a
 * footer naming the files A..H. Every piece symbol is three characters wide,
 * so every rendering has the same length and each square has a fixed slot.
 */
module Rendering {
  import opened Options
  import opened Pieces
  import opened Squares

  /** The decimal numeral of a row number, one digit for 1..8. */
  function RankLabel(row: int): (s: string)
    requires 1 <= row <= 8
    ensures |s| == 1 && '1' <= s[0] <= '8'
    ensures s[0] == "0123456789"[row]
  {
    [(48 + row) as char]
  }

  /** The digit a row prints as has the row's own value. */
  lemma RankLabelValue(row: int)
    requires 1 <= row <= 8
    ensures RankLabel(row)[0] as int - '0' as int == row
  {
  }

  const Footer: string := "\n     A  B  C  D  E  F  G  H"

  /** The symbols of a run of cells, left to right. */
  function Symbols(ps: seq<Piece>): string
    decreases |ps|
  {
    if ps == [] then "" else Symbols(ps[..|ps| - 1]) + DisplaySymbol(ps[|ps| - 1])
  }

  /** The eight cells of one row, columns 1..8. */
  function RankCells(cells: seq<Piece>, row: int): (r: seq<Piece>)
    requires |cells| == 64 && 1 <= row <= 8
    ensures |r| == 8
  {
    cells[8 * (row - 1) .. 8 * row]
  }

  /** In column order, the cells a printed row shows are the cells of that row's squares. */
  lemma RankCellsAt(cells: seq<Piece>, row: int, column: int)
    requires |cells| == 64 && InRange(column, row)
    ensures RankCells(cells, row)[column - 1] == cells[Index(column, row)]
  {
  }

  /** One printed row: its number, a separator, its eight symbols, a newline. */
  function RankLine(cells: seq<Piece>, row: int): string
    requires |cells| == 64 && 1 <= row <= 8
  {
    RankLabel(row) + " | " + Symbols(RankCells(cells, row)) + "\n"
  }

  /** The printed rows 1 .. n-1, top to bottom. */
  function RankLines(cells: seq<Piece>, n: int): string
    requires |cells| == 64 && 1 <= n <= 9
    decreases n
  {
    if n == 1 then "" else RankLines(cells, n - 1) + RankLine(cells, n - 1)
  }

  /** The text of a board whose 64 cells are `cells`. */
  function Render(cells: seq<Piece>): string
    requires |cells| == 64
  {
    "\n" + RankLines(cells, 9) + Footer
  }

  /** Where the printed line of a row starts. */
  function LineStart(row: int): (o: nat)
    requires 1 <= row <= 8
    ensures 1 <= o && o + 29 <= 233
  {
    1 + 29 * (row - 1)
  }

  /** Where the symbol of a square starts: after the line's label and " | ". */
  function SymbolOffset(column: int, row: int): (o: nat)
    requires InRange(column, row)
    ensures LineStart(row) + 4 <= o && o + 3 <= LineStart(row) + 28
  {
    LineStart(row) + 4 + 3 * (column - 1)
  }

  /** A slice that lies within the left operand of a concatenation. */
  lemma SliceLeft(a: string, b: string, lo: int, hi: int)
    requires 0 <= lo <= hi <= |a|
    ensures (a + b)[lo .. hi] == a[lo .. hi]
  {
  }

  /** A slice that lies within the right operand of a concatenation. */
  lemma SliceRight(a: string, b: string, lo: int, hi: int)
    requires |a| <= lo <= hi <= |a| + |b|
    ensures (a + b)[lo .. hi] == b[lo - |a| .. hi - |a|]
  {
  }

  lemma Associative(a: string, b: string, c: string)
    ensures (a + b) + c == a + (b + c)
  {
  }

  /** A slice of a slice is a slice of the whole. */
  lemma SliceOfSlice(s: string, lo: int, hi: int, i: int, j: int)
    requires 0 <= lo <= hi <= |s| && 0 <= i <= j <= hi - lo
    ensures s[lo .. hi][i .. j] == s[lo + i .. lo + j]
  {
    assert forall k :: 0 <= k < j - i ==> s[lo .. hi][i .. j][k] == s[lo + i + k];
  }

  lemma {:induction false} SymbolsLength(ps: seq<Piece>)
    ensures |Symbols(ps)| == 3 * |ps|
    decreases |ps|
  {
    if ps != [] {
      SymbolsLength(ps[..|ps| - 1]);
    }
  }

  /** Cell k of a run occupies characters 3k .. 3k+3 of its symbols. */
  lemma {:induction false} SymbolsAt(ps: seq<Piece>, k: int)
    requires 0 <= k < |ps|
    ensures |Symbols(ps)| == 3 * |ps|
    ensures Symbols(ps)[3 * k .. 3 * k + 3] == DisplaySymbol(ps[k])
    decreases |ps|
  {
    var init := ps[..|ps| - 1];
    var last := DisplaySymbol(ps[|ps| - 1]);
    SymbolsLength(ps);
    SymbolsLength(init);
    if k < |ps| - 1 {
      SymbolsAt(init, k);
      SliceInLeft(Symbols(ps), Symbols(init), last, 3 * k, DisplaySymbol(ps[k]));
    } else {
      SliceInRight(Symbols(ps), Symbols(init), last);
    }
  }

  /** A three-character piece of the left operand stays in place in the concatenation. */
  lemma SliceInLeft(s: string, a: string, b: string, lo: int, symbol: string)
    requires s == a + b && 0 <= lo && lo + 3 <= |a|
    requires a[lo .. lo + 3] == symbol
    ensures s[lo .. lo + 3] == symbol
  {
    SliceLeft(a, b, lo, lo + 3);
  }

  /** A three-character right operand closes the concatenation. */
  lemma SliceInRight(s: string, a: string, b: string)
    requires s == a + b && |b| == 3
    ensures s[|a| .. |a| + 3] == b
  {
    SliceRight(a, b, |a|, |a| + 3);
    assert b[0 .. 3] == b;
  }

  /** Extending a run by one cell appends that cell's symbol. */
  lemma SymbolsSnoc(ps: seq<Piece>, k: int)
    requires 0 <= k < |ps|
    ensures Symbols(ps[..k + 1]) == Symbols(ps[..k]) + DisplaySymbol(ps[k])
  {
    assert ps[..k + 1][..k] == ps[..k];
  }

  /** One step of printing a row: appending the next symbol to text ending in the run so far. */
  lemma SymbolsAppend(ps: seq<Piece>, k: int, head: string, text: string)
    requires 0 <= k < |ps|
    requires text == head + Symbols(ps[..k])
    ensures text + DisplaySymbol(ps[k]) == head + Symbols(ps[..k + 1])
  {
    SymbolsSnoc(ps, k);
  }

  /** One step of printing the board: closing the line of row `row` extends the printed rows. */
  lemma RankLinesAppend(cells: seq<Piece>, row: int, head: string, text: string)
    requires |cells| == 64 && 1 <= row <= 8
    requires head == "\n" + RankLines(cells, row) + RankLabel(row) + " | "
    requires text == head + Symbols(RankCells(cells, row))
    ensures text + "\n" == "\n" + RankLines(cells, row + 1)
  {
    var lines := RankLines(cells, row);
    var prefix := RankLabel(row) + " | ";
    var symbols := Symbols(RankCells(cells, row));
    assert RankLines(cells, row + 1) == lines + ((prefix + symbols) + "\n");
    assert head == "\n" + lines + prefix;
    Associative("\n" + lines, prefix, symbols);
    Associative("\n" + lines, prefix + symbols, "\n");
    Associative("\n", lines, (prefix + symbols) + "\n");
  }

  lemma RankLineLength(cells: seq<Piece>, row: int)
    requires |cells| == 64 && 1 <= row <= 8
    ensures |RankLine(cells, row)| == 29
  {
    SymbolsLength(RankCells(cells, row));
  }

  lemma {:induction false} RankLinesLength(cells: seq<Piece>, n: int)
    requires |cells| == 64 && 1 <= n <= 9
    ensures |RankLines(cells, n)| == 29 * (n - 1)
    decreases n
  {
    if n > 1 {
      RankLinesLength(cells, n - 1);
      RankLineLength(cells, n - 1);
    }
  }

  /** Row `row` occupies characters 29(row-1) .. 29 row of the printed rows. */
  lemma {:induction false} RankLinesAt(cells: seq<Piece>, n: int, row: int)
    requires |cells| == 64 && 1 <= n <= 9 && 1 <= row < n
    ensures |RankLines(cells, n)| == 29 * (n - 1)
    ensures RankLines(cells, n)[29 * (row - 1) .. 29 * row] == RankLine(cells, row)
    decreases n
  {
    var prefix := RankLines(cells, n - 1);
    var last := RankLine(cells, n - 1);
    RankLinesLength(cells, n);
    RankLinesLength(cells, n - 1);
    RankLineLength(cells, n - 1);
    if row < n - 1 {
      RankLinesAt(cells, n - 1, row);
      SliceLeft(prefix, last, 29 * (row - 1), 29 * row);
    } else {
      SliceRight(prefix, last, 29 * (row - 1), 29 * row);
      assert last[0 .. 29] == last;
    }
  }

  /** Row `row` occupies characters LineStart(row) .. LineStart(row) + 29 of the rendering. */
  lemma RenderLine(cells: seq<Piece>, row: int)
    requires |cells| == 64 && 1 <= row <= 8
    ensures |Render(cells)| == 261
    ensures Render(cells)[LineStart(row) .. LineStart(row) + 29] == RankLine(cells, row)
  {
    RenderLength(cells);
    RankLinesAt(cells, 9, row);
    var lines := RankLines(cells, 9);
    assert Render(cells) == ("\n" + lines) + Footer;
    SliceLeft("\n" + lines, Footer, LineStart(row), LineStart(row) + 29);
    SliceRight("\n", lines, LineStart(row), LineStart(row) + 29);
  }

  /** The rendering has 261 characters, whatever the board holds. */
  lemma RenderLength(cells: seq<Piece>)
    requires |cells| == 64
    ensures |Render(cells)| == 261
  {
    RankLinesLength(cells, 9);
  }

  /**
   * The layout of the rendering: a leading newline; each row's line starts
   * with the row's number and " | " and ends with a newline; the footer
   * closes the text.
   */
  lemma RenderFrame(cells: seq<Piece>, row: int)
    requires |cells| == 64 && 1 <= row <= 8
    ensures |Render(cells)| == 261
    ensures Render(cells)[0] == '\n'
    ensures Render(cells)[LineStart(row) .. LineStart(row) + 4] == RankLabel(row) + " | "
    ensures Render(cells)[LineStart(row) + 28] == '\n'
    ensures Render(cells)[233..] == Footer
  {
    RenderLine(cells, row);
    RankLineFrame(cells, row);
    FrameInLine(Render(cells), RankLine(cells, row), RankLabel(row) + " | ", LineStart(row));
    RenderEnds(cells);
  }

  /** A line that sits in a text at `start` carries its opening four characters and closing newline there. */
  lemma FrameInLine(text: string, line: string, head: string, start: nat)
    requires start + 29 <= |text|
    requires text[start .. start + 29] == line
    requires line[..4] == head && line[28] == '\n'
    ensures text[start .. start + 4] == head && text[start + 28] == '\n'
  {
    SliceOfSlice(text, start, start + 29, 0, 4);
    assert text[start + 28] == text[start .. start + 29][28];
  }

  /** The rendering opens with a newline and closes with the footer. */
  lemma RenderEnds(cells: seq<Piece>)
    requires |cells| == 64
    ensures |Render(cells)| == 261
    ensures Render(cells)[0] == '\n'
    ensures Render(cells)[233..] == Footer
  {
    var lines := RankLines(cells, 9);
    RankLinesLength(cells, 9);
    SliceRight("\n" + lines, Footer, 233, 261);
  }

  /** A row's line starts with the row number and " | " and ends with a newline. */
  lemma RankLineFrame(cells: seq<Piece>, row: int)
    requires |cells| == 64 && 1 <= row <= 8
    ensures |RankLine(cells, row)| == 29
    ensures RankLine(cells, row)[..4] == RankLabel(row) + " | "
    ensures RankLine(cells, row)[28] == '\n'
  {
    var prefix := RankLabel(row) + " | ";
    var symbols := Symbols(RankCells(cells, row));
    RankLineLength(cells, row);
    Associative(prefix, symbols, "\n");
    SliceLeft(prefix, symbols + "\n", 0, 4);
  }

  /** Within a row's line, after the number and " | ", column `column` shows its cell's symbol. */
  lemma RankLineCell(cells: seq<Piece>, column: int, row: int)
    requires |cells| == 64 && InRange(column, row)
    ensures |RankLine(cells, row)| == 29
    ensures RankLine(cells, row)[4 + 3 * (column - 1) .. 7 + 3 * (column - 1)] == DisplaySymbol(cells[Index(column, row)])
  {
    var k := 3 * (column - 1);
    var prefix := RankLabel(row) + " | ";
    var symbols := Symbols(RankCells(cells, row));
    RankLineLength(cells, row);
    assert symbols[k .. k + 3] == DisplaySymbol(cells[Index(column, row)]) by {
      SymbolsAt(RankCells(cells, row), column - 1);
      RankCellsAt(cells, row, column);
    }
    Associative(prefix, symbols, "\n");
    SliceRight(prefix, symbols + "\n", 4 + k, 4 + k + 3);
    SliceLeft(symbols, "\n", k, k + 3);
  }

  /** The slot of each square shows the symbol of the piece in that square's cell. */
  lemma RenderCell(cells: seq<Piece>, column: int, row: int)
    requires |cells| == 64 && InRange(column, row)
    ensures |Render(cells)| == 261
    ensures Render(cells)[SymbolOffset(column, row) .. SymbolOffset(column, row) + 3]
         == DisplaySymbol(cells[Index(column, row)])
  {
    RenderLine(cells, row);
    CellInText(Render(cells), cells, column, row);
  }

  /** A text that holds a row's line at that line's place shows each cell's symbol in its slot. */
  lemma CellInText(text: string, cells: seq<Piece>, column: int, row: int)
    requires |cells| == 64 && InRange(column, row) && |text| == 261
    requires text[LineStart(row) .. LineStart(row) + 29] == RankLine(cells, row)
    ensures text[SymbolOffset(column, row) .. SymbolOffset(column, row) + 3]
         == DisplaySymbol(cells[Index(column, row)])
  {
    RankLineCell(cells, column, row);
    SlotInLine(text, RankLine(cells, row), DisplaySymbol(cells[Index(column, row)]),
               LineStart(row), 3 * (column - 1), SymbolOffset(column, row));
  }

  /** What a line that sits in a text at `start` shows at offset 4 + k, the text shows at `start + 4 + k`. */
  lemma SlotInLine(text: string, line: string, symbol: string, start: nat, k: nat, o: nat)
    requires start + 29 <= |text| && k + 7 <= 29 && o == start + 4 + k
    requires text[start .. start + 29] == line
    requires line[4 + k .. 7 + k] == symbol
    ensures text[o .. o + 3] == symbol
  {
    SliceOfSlice(text, start, start + 29, 4 + k, 7 + k);
  }

  /** The three characters in the slot of cell `i`. */
  function Slot(text: string, i: int): (s: string)
    requires |text| == 261 && 0 <= i < 64
    ensures |s| == 3
  {
    var o := SymbolOffset(ColumnOf(i), RowOf(i));
    text[o .. o + 3]
  }

  /**
   * Reads a board back from its rendering: the piece in each square's slot,
   * or nothing if the text has the wrong length or a slot holds no symbol.
   */
  function ReadBoard(text: string): (r: Option<seq<Piece>>)
    ensures r.Some? ==> |r.value| == 64 && |text| == 261
    ensures r.Some? ==> forall i :: 0 <= i < 64 ==> DisplaySymbol(r.value[i]) == Slot(text, i)
  {
    if |text| != 261 then None
    else if forall i :: 0 <= i < 64 ==> SymbolPiece(Slot(text, i)).Some? then
      var cells := seq(64, i requires 0 <= i < 64 => SymbolPiece(Slot(text, i)).value);
      assert forall i :: 0 <= i < 64 ==> DisplaySymbol(cells[i]) == Slot(text, i) by {
        forall i | 0 <= i < 64 ensures DisplaySymbol(cells[i]) == Slot(text, i) {
          SymbolPieceExact(Slot(text, i), cells[i]);
        }
      }
      Some(cells)
    else None
  }

  /** Rendering loses nothing: the board can be read back from its text. */
  lemma RenderReadBack(cells: seq<Piece>)
    requires |cells| == 64
    ensures ReadBoard(Render(cells)) == Some(cells)
  {
    RenderLength(cells);
    forall column, row | InRange(column, row)
      ensures Render(cells)[SymbolOffset(column, row) .. SymbolOffset(column, row) + 3]
           == DisplaySymbol(cells[Index(column, row)])
    {
      RenderCell(cells, column, row);
    }
    ReadBackSlots(Render(cells), cells);
  }

  /** A text whose every slot shows the symbol of its cell reads back as exactly those cells. */
  lemma ReadBackSlots(text: string, cells: seq<Piece>)
    requires |text| == 261 && |cells| == 64
    requires forall column, row :: InRange(column, row) ==>
      text[SymbolOffset(column, row) .. SymbolOffset(column, row) + 3] == DisplaySymbol(cells[Index(column, row)])
    ensures ReadBoard(text) == Some(cells)
  {
    forall i | 0 <= i < 64
      ensures Slot(text, i) == DisplaySymbol(cells[i])
      ensures SymbolPiece(Slot(text, i)) == Some(cells[i])
    {
      IndexOnto(i);
      SymbolPieceExact(Slot(text, i), cells[i]);
    }
    var r := ReadBoard(text);
    assert r.Some?;
    assert r.value == cells;
  }

  /** Hence different boards print differently. */
  lemma RenderInjective(a: seq<Piece>, b: seq<Piece>)
    requires |a| == 64 && |b| == 64
    requires Render(a) == Render(b)
    ensures a == b
  {
    RenderReadBack(a);
    RenderReadBack(b);
  }
}
