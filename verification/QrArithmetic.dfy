/** Rows and columns of a table laid out in one line. */
module Arithmetic {

  function Row(value: nat, width: nat): nat
    requires width > 0
  {
    value / width
  }

  function Column(value: nat, width: nat): (column: nat)
    requires width > 0
    ensures column < width
  {
    value % width
  }

  lemma RowAndColumn(width: nat, row: nat, column: nat)
    requires column < width
    ensures (row * width + column) / width == row
    ensures (row * width + column) % width == column
  {
    QuotientUnique(row * width + column, width, row, column);
  }

  lemma QuotientUnique(value: nat, width: nat, quotient: nat, remainder: nat)
    requires remainder < width && value == quotient * width + remainder
    ensures value / width == quotient && value % width == remainder
  {
    var q, r := value / width, value % width;
    assert value == q * width + r;
    if q < quotient {
      MultiplyMonotone(q + 1, quotient, width);
    } else if quotient < q {
      MultiplyMonotone(quotient + 1, q, width);
    }
  }

  lemma MultiplyMonotone(a: nat, b: nat, width: nat)
    requires a <= b
    ensures a * width <= b * width
  {}

  lemma RowBound(width: nat, rows: nat, row: nat, column: nat)
    requires column < width
    ensures row < rows ==> row * width + column < rows * width
  {
    if row < rows {
      MultiplyMonotone(row + 1, rows, width);
      assert (row + 1) * width == row * width + width;
    }
  }

  lemma RowInRange(value: nat, width: nat, rows: nat)
    requires width > 0 && value < rows * width
    ensures value / width < rows
  {
    if rows <= value / width {
      MultiplyMonotone(rows, value / width, width);
    }
  }

  lemma DivisionIdentity(value: nat, width: nat)
    requires width > 0
    ensures value == value / width * width + value % width
  {}
}
