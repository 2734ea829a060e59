/**
 * Board coordinates. A square is addressed by a 1-indexed column (file) and
 * row (rank), each in 1..8, and is stored at cell `(row - 1) * 8 + (column - 1)`
 * of the 64-cell board array: the board is laid out rank by rank.
 */
module Squares {

  /** The coordinates the board's accessors are meant for. */
  predicate InRange(column: int, row: int)
  {
    1 <= column <= 8 && 1 <= row <= 8
  }

  /**
   * The array cell of a square: row `row` occupies the `row`-th block of
   * eight cells, and within it the column picks the position.
   */
  function Index(column: int, row: int): (i: nat)
    requires InRange(column, row)
    ensures i < 64
    ensures 8 * (row - 1) <= i < 8 * row
  {
    (row - 1) * 8 + (column - 1)
  }

  /** The column of the square stored at cell `i`. */
  function ColumnOf(i: int): (column: int)
    requires 0 <= i < 64
    ensures 1 <= column <= 8
  {
    i % 8 + 1
  }

  /** The row of the square stored at cell `i`. */
  function RowOf(i: int): (row: int)
    requires 0 <= i < 64
    ensures 1 <= row <= 8
  {
    i / 8 + 1
  }

  /** `ColumnOf` and `RowOf` give back the square of a cell. */
  lemma IndexInverse(column: int, row: int)
    requires InRange(column, row)
    ensures ColumnOf(Index(column, row)) == column && RowOf(Index(column, row)) == row
  {
  }

  /** Every cell is the cell of its own square, so `Index` is onto the 64 cells. */
  lemma IndexOnto(i: int)
    requires 0 <= i < 64
    ensures Index(ColumnOf(i), RowOf(i)) == i
  {
  }

  /** Distinct squares have distinct cells. */
  lemma IndexInjective(c1: int, r1: int, c2: int, r2: int)
    requires InRange(c1, r1) && InRange(c2, r2)
    requires Index(c1, r1) == Index(c2, r2)
    ensures c1 == c2 && r1 == r2
  {
  }
}
