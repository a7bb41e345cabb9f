/** The order in which codeword bits meet the modules: section 7.7.3 of ISO/IEC 18004. */
module Zigzag {
  import opened Arithmetic
  import opened Geometry

  /** Symbol sizes: odd, and wide enough for three finders. */
  predicate SizeOk(size: nat) { size >= 21 && size % 4 == 1 }

  function PairCount(size: nat): nat { size / 2 }

  /** The right column of a pair; the pairing skips the vertical timing pattern. */
  function RightColumn(size: nat, pair: nat): int {
    if size - 1 - 2 * pair >= 8 then size - 1 - 2 * pair else size - 2 - 2 * pair
  }

  /** ((right + 1) & 2) === 0 */
  predicate Upward(right: int) { (right + 1) / 2 % 2 == 0 }

  function CellOf(size: nat, right: int, step: nat, column: nat): Cell {
    Cell(right - column, if Upward(right) then size - 1 - step else step)
  }

  function PathLength(size: nat): nat { PairCount(size) * (2 * size) }

  /** The cell visited after `index` others. */
  function PathCell(size: nat, index: nat): Cell
    requires size > 0
  {
    var within := Column(index, 2 * size);
    CellOf(size, RightColumn(size, Row(index, 2 * size)), within / 2, within % 2)
  }

  /** The right column of the pair a cell lies in. */
  function PairRight(c: Cell): int {
    if (c.x >= 7) == (c.x % 2 == 0) then c.x else c.x + 1
  }

  function PairOf(size: nat, right: int): int {
    if right >= 8 then (size - 1 - right) / 2 else (size - 2 - right) / 2
  }

  /** When a cell outside column 6 is visited. */
  function PathIndex(size: nat, c: Cell): int {
    var right := PairRight(c);
    var step := if Upward(right) then size - 1 - c.y else c.y;
    PairOf(size, right) * (2 * size) + (2 * step + (right - c.x))
  }

  lemma PathCellAt(size: nat, pair: nat, step: nat, column: nat)
    requires SizeOk(size) && pair < PairCount(size) && step < size && column < 2
    ensures PathCell(size, pair * (2 * size) + (2 * step + column)) == CellOf(size, RightColumn(size, pair), step, column)
    ensures CellOf(size, RightColumn(size, pair), step, column) in Grid(size)
  {
    hide Grid, RightColumn, Upward, PathCell;
    IndexOfCell(size, pair, step, column);
    var c := CellOf(size, RightColumn(size, pair), step, column);
    PathCellOfPathIndex(size, c);
  }

  lemma RightColumnRange(size: nat, pair: nat)
    requires SizeOk(size) && pair < PairCount(size)
    ensures var right := RightColumn(size, pair);
            && 1 <= right < size && right != 6 && right != 7
            && PairOf(size, right) == pair
            && (right >= 8 ==> right % 2 == 0)
            && (right < 8 ==> right % 2 == 1)
  {}

  lemma IndexOfCell(size: nat, pair: nat, step: nat, column: nat)
    requires SizeOk(size) && pair < PairCount(size) && step < size && column < 2
    ensures var c := CellOf(size, RightColumn(size, pair), step, column);
            && 0 <= c.x < size && 0 <= c.y < size && c.x != 6
            && PathIndex(size, c) == pair * (2 * size) + (2 * step + column)
  {
    hide RightColumn, PairOf, Upward;
    RightColumnRange(size, pair);
    assert PairRight(CellOf(size, RightColumn(size, pair), step, column)) == RightColumn(size, pair);
  }

  lemma PathPair(size: nat, index: nat)
    requires size > 0 && index < PathLength(size)
    ensures Row(index, 2 * size) < PairCount(size)
    ensures index == Row(index, 2 * size) * (2 * size) + Column(index, 2 * size)
  {
    RowInRange(index, 2 * size, PairCount(size));
    DivisionIdentity(index, 2 * size);
    hide PathLength;
  }

  lemma PathIndexOfPathCell(size: nat, index: nat)
    requires SizeOk(size) && index < PathLength(size)
    ensures PathCell(size, index) in Grid(size)
    ensures PathIndex(size, PathCell(size, index)) == index
  {
    assert size > 0;
    hide Grid, PathIndex, CellOf, RightColumn, PathLength, SizeOk, Row, Column;
    PathPair(size, index);
    IndexWithin(size, Row(index, 2 * size), Column(index, 2 * size));
  }

  lemma IndexWithin(size: nat, pair: nat, within: nat)
    requires SizeOk(size) && pair < PairCount(size) && within < 2 * size
    ensures var c := CellOf(size, RightColumn(size, pair), within / 2, within % 2);
            && c in Grid(size)
            && PathIndex(size, c) == pair * (2 * size) + within
  {
    hide Grid, PathIndex, CellOf, RightColumn;
    IndexOfCell(size, pair, within / 2, within % 2);
  }

  lemma PathCellOfPathIndex(size: nat, c: Cell)
    requires SizeOk(size) && c in Grid(size) && c.x != 6
    ensures 0 <= PathIndex(size, c) < PathLength(size)
    ensures PathCell(size, PathIndex(size, c)) == c
  {
    hide Grid, PairOf, PairRight, RightColumn, Upward, CellOf, PairCount;
    PairOfCell(size, c);
    var right := PairRight(c);
    var step := if Upward(right) then size - 1 - c.y else c.y;
    CellAtStep(size, PairOf(size, right), right, step, c);
  }

  lemma CellAtStep(size: nat, pair: nat, right: int, step: nat, c: Cell)
    requires size > 0 && pair < PairCount(size) && step < size && right == RightColumn(size, pair) && 0 <= right - c.x < 2
    requires step == if Upward(right) then size - 1 - c.y else c.y
    ensures pair * (2 * size) + (2 * step + (right - c.x)) < PathLength(size)
    ensures PathCell(size, pair * (2 * size) + (2 * step + (right - c.x))) == c
  {
    hide RightColumn, Upward, PairCount;
    var column := right - c.x;
    RowAndColumn(2 * size, pair, 2 * step + column);
    RowBound(2 * size, PairCount(size), pair, 2 * step + column);
    assert (2 * step + column) / 2 == step && (2 * step + column) % 2 == column;
  }

  lemma PairOfCell(size: nat, c: Cell)
    requires SizeOk(size) && 0 <= c.x < size && c.x != 6
    ensures var right := PairRight(c);
            && 0 <= right - c.x < 2
            && 0 <= PairOf(size, right) < PairCount(size)
            && RightColumn(size, PairOf(size, right)) == right
  {}

  /** The unreserved cells among the first `count` visited, in order. */
  function DataCells(size: nat, reserved: set<Cell>, count: nat): seq<Cell>
    requires size > 0
  {
    if count == 0 then []
    else DataCells(size, reserved, count - 1) +
         if PathCell(size, count - 1) in reserved then [] else [PathCell(size, count - 1)]
  }

  lemma {:induction false} DataCellsSound(size: nat, reserved: set<Cell>, count: nat)
    requires SizeOk(size) && count <= PathLength(size)
    ensures forall c :: c in DataCells(size, reserved, count) ==>
                          c in Grid(size) && c !in reserved && PathIndex(size, c) < count
  {
    hide Grid, PathIndex, PathCell;
    if count > 0 {
      DataCellsSound(size, reserved, count - 1);
      PathIndexOfPathCell(size, count - 1);
    }
  }

  /** No module is visited twice. */
  lemma {:induction false} DataCellsDistinct(size: nat, reserved: set<Cell>, count: nat)
    requires SizeOk(size) && count <= PathLength(size)
    ensures forall i, j :: 0 <= i < j < |DataCells(size, reserved, count)| ==>
                             DataCells(size, reserved, count)[i] != DataCells(size, reserved, count)[j]
  {
    hide Grid, PathIndex, PathCell;
    if count > 0 {
      DataCellsDistinct(size, reserved, count - 1);
      DataCellsSound(size, reserved, count - 1);
      PathIndexOfPathCell(size, count - 1);
    }
  }

  lemma {:induction false} DataCellsComplete(size: nat, reserved: set<Cell>, count: nat, c: Cell)
    requires SizeOk(size) && count <= PathLength(size)
    requires c in Grid(size) && c !in reserved && c.x != 6 && PathIndex(size, c) < count
    ensures c in DataCells(size, reserved, count)
  {
    hide Grid, PathIndex, PathCell;
    PathCellOfPathIndex(size, c);
    if PathIndex(size, c) < count - 1 {
      DataCellsComplete(size, reserved, count - 1, c);
    }
  }

  lemma {:induction false} DistinctCount<T>(items: seq<T>, all: set<T>)
    requires forall c :: c in all ==> c in items
    ensures |all| <= |items|
  {
    if items == [] {
      assert all == {};
    } else {
      DistinctCount(items[1..], all - {items[0]});
      assert all <= (all - {items[0]}) + {items[0]};
      SubsetSize(all, (all - {items[0]}) + {items[0]});
      UnionSize(all - {items[0]}, {items[0]});
    }
  }

  /** The path meets every unreserved module, so there are at least that many places for bits. */
  lemma DataCellsCount(size: nat, reserved: set<Cell>)
    requires SizeOk(size)
    requires forall c :: c in Grid(size) && c.x == 6 ==> c in reserved
    ensures |Grid(size) - reserved| <= |DataCells(size, reserved, PathLength(size))|
  {
    hide Grid, PathIndex, PathLength, DataCells;
    var cells := DataCells(size, reserved, PathLength(size));
    forall c | c in Grid(size) - reserved
      ensures c in cells
    {
      PathCellOfPathIndex(size, c);
      DataCellsComplete(size, reserved, PathLength(size), c);
    }
    DistinctCount(cells, Grid(size) - reserved);
  }
}
