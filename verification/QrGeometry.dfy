/** The modules of a symbol: sets of cells, their sizes, and the regions the function patterns take. */
module Geometry {
  import opened Versions

  datatype Cell = Cell(x: int, y: int)

  /** `w` columns by `h` rows with the given first column and row. */
  function Box(x0: int, y0: int, w: nat, h: nat): (cells: set<Cell>)
    ensures forall c :: c in cells <==> x0 <= c.x < x0 + w && y0 <= c.y < y0 + h
  {
    set x, y | x0 <= x < x0 + w && y0 <= y < y0 + h :: Cell(x, y)
  }

  function Grid(size: nat): (cells: set<Cell>)
    ensures forall c :: c in cells <==> 0 <= c.x < size && 0 <= c.y < size
  {
    Box(0, 0, size, size)
  }

  lemma {:induction false} RowSize(x0: int, y: int, w: nat)
    ensures |Box(x0, y, w, 1)| == w
  {
    if w == 0 {
      assert Box(x0, y, w, 1) == {};
    } else {
      RowSize(x0, y, w - 1);
      assert Box(x0, y, w, 1) == Box(x0, y, w - 1, 1) + {Cell(x0 + w - 1, y)};
    }
  }

  lemma {:induction false} BoxSize(x0: int, y0: int, w: nat, h: nat)
    ensures |Box(x0, y0, w, h)| == w * h
  {
    hide Box;
    if h == 0 {
      assert Box(x0, y0, w, h) == {};
    } else {
      BoxSize(x0, y0, w, h - 1);
      RowSize(x0, y0 + h - 1, w);
      assert Box(x0, y0, w, h) == Box(x0, y0, w, h - 1) + Box(x0, y0 + h - 1, w, 1);
      assert Box(x0, y0, w, h - 1) !! Box(x0, y0 + h - 1, w, 1);
      assert w * h == w * (h - 1) + w;
    }
  }

  lemma UnionSize<T>(a: set<T>, b: set<T>)
    ensures |a + b| <= |a| + |b|
  {
    assert a + b == a + (b - a);
    SubsetSize(b - a, b);
  }

  lemma {:induction false} SubsetSize<T>(a: set<T>, b: set<T>)
    requires a <= b
    ensures |a| <= |b|
  {
    assert b == a + (b - a);
  }

  function Abs(value: int): nat { if value < 0 then -value else value }

  function Max(a: int, b: int): int { if a < b then b else a }

  /** The ring of a pattern centred at (cx, cy) that the cell lies on. */
  function Ring(c: Cell, cx: int, cy: int): nat {
    Max(Abs(c.x - cx), Abs(c.y - cy))
  }

  function SymbolSize(version: Version): nat { version * 4 + 17 }

  // ----- The regions of the function patterns

  function TimingRegion(size: nat): set<Cell> {
    set c | c in Grid(size) && (c.x == 6 || c.y == 6)
  }

  /** The finder centred at (cx, cy) with its separator, as far as it lies inside the symbol. */
  function FinderRegion(size: nat, cx: int, cy: int): set<Cell> {
    set c | c in Grid(size) && Ring(c, cx, cy) <= 4
  }

  function AlignmentRegion(cx: int, cy: int): (cells: set<Cell>)
  {
    Box(cx - 2, cy - 2, 5, 5)
  }

  function AlignmentCount(version: Version): nat {
    if version == 1 then 0 else version / 7 + 2
  }

  function AlignmentStep(version: Version): nat
    requires version > 1
  {
    if version == 32 then 26
    else (version * 4 + 4 + AlignmentCount(version) * 2 - 3) / (AlignmentCount(version) * 2 - 2) * 2
  }

  /** Centres of the alignment patterns along either axis: 6 first, the last seven modules from the edge. */
  function AlignmentPosition(version: Version, index: nat): int
    requires index < AlignmentCount(version)
  {
    if index == 0 then 6
    else version * 4 + 10 - (AlignmentCount(version) - 1 - index) * AlignmentStep(version)
  }

  /** The three finder corners have no alignment pattern. */
  predicate FinderCorner(count: nat, row: nat, column: nat) {
    || (row == 0 && column == 0)
    || (row == 0 && column == count - 1)
    || (row == count - 1 && column == 0)
  }

  /** Alignment patterns of one row of centres, up to a column. */
  function AlignmentRow(version: Version, row: nat, columns: nat): set<Cell>
    requires row < AlignmentCount(version) && columns <= AlignmentCount(version)
  {
    if columns == 0 then {}
    else AlignmentRow(version, row, columns - 1) +
         if FinderCorner(AlignmentCount(version), row, columns - 1) then {}
         else AlignmentRegion(AlignmentPosition(version, columns - 1), AlignmentPosition(version, row))
  }

  function AlignmentRows(version: Version, rows: nat): set<Cell>
    requires rows <= AlignmentCount(version)
  {
    if rows == 0 then {}
    else AlignmentRows(version, rows - 1) + AlignmentRow(version, rows - 1, AlignmentCount(version))
  }

  /** Where bit `index` of the format goes, in the copy beside the first finder. */
  function FormatCell(index: nat): Cell
    requires index < 15
  {
    if index <= 5 then Cell(8, index)
    else if index == 6 then Cell(8, 7)
    else if index == 7 then Cell(8, 8)
    else if index == 8 then Cell(7, 8)
    else Cell(14 - index, 8)
  }

  /** Where it goes in the copy split between the other two. */
  function SecondFormatCell(size: nat, index: nat): Cell
    requires index < 15
  {
    if index < 8 then Cell(size - 1 - index, 8) else Cell(8, size - 15 + index)
  }

  function FirstFormatRegion(): set<Cell> {
    Box(8, 0, 1, 6) + Box(8, 7, 1, 1) + Box(7, 8, 2, 1) + Box(0, 8, 6, 1)
  }

  /** The second copy, and the module that is always dark. */
  function SecondFormatRegion(size: nat): set<Cell> {
    Box(size - 8, 8, 8, 1) + Box(8, size - 7, 1, 7) + {Cell(8, size - 8)}
  }

  function FormatRegion(size: nat): set<Cell> {
    FirstFormatRegion() + SecondFormatRegion(size)
  }

  function VersionRegion(version: Version): set<Cell> {
    var size := SymbolSize(version);
    if version < 7 then {} else Box(size - 11, 0, 3, 6) + Box(0, size - 11, 6, 3)
  }

  /** Every module the function patterns, the format and the version take. */
  function ReservedCells(version: Version): set<Cell> {
    var size := SymbolSize(version);
    TimingRegion(size)
    + FinderRegion(size, 3, 3) + FinderRegion(size, size - 4, 3) + FinderRegion(size, 3, size - 4)
    + AlignmentRows(version, AlignmentCount(version))
    + FormatRegion(size)
    + VersionRegion(version)
  }

  // ----- They leave room for the codewords

  lemma AlignmentPositionsInside(version: Version, index: nat)
    requires index < AlignmentCount(version)
    ensures 6 <= AlignmentPosition(version, index) <= SymbolSize(version) - 7
  {
    hide AlignmentStep;
    if index > 0 {
      AlignmentStepFits(version);
      StepsFit(AlignmentCount(version) - 1 - index, AlignmentCount(version) - 2, AlignmentStep(version));
    }
  }

  lemma StepsFit(few: nat, many: nat, step: nat)
    requires few <= many
    ensures 0 <= few * step <= many * step
  {}

  lemma AlignmentStepFits(version: Version)
    requires version > 1
    ensures (AlignmentCount(version) - 2) * AlignmentStep(version) <= version * 4 + 4
  {
  }

  /** New cells an alignment pattern can take: those not on a timing line. */
  function AlignmentCost(version: Version, row: nat, column: nat): nat {
    if FinderCorner(AlignmentCount(version), row, column) then 0
    else if row == 0 || column == 0 then 20
    else 25
  }

  function AlignmentRowCost(version: Version, row: nat, columns: nat): nat {
    if columns == 0 then 0 else AlignmentRowCost(version, row, columns - 1) + AlignmentCost(version, row, columns - 1)
  }

  function AlignmentRowsCost(version: Version, rows: nat): nat {
    if rows == 0 then 0
    else AlignmentRowsCost(version, rows - 1) + AlignmentRowCost(version, rows - 1, AlignmentCount(version))
  }

  lemma AlignmentPatternSize(version: Version, row: nat, column: nat)
    requires row < AlignmentCount(version) && column < AlignmentCount(version)
    requires !FinderCorner(AlignmentCount(version), row, column)
    ensures var region := AlignmentRegion(AlignmentPosition(version, column), AlignmentPosition(version, row));
            |region - TimingRegion(SymbolSize(version))| <= AlignmentCost(version, row, column)
  {
    hide Box, Grid, AlignmentStep;
    var cx, cy := AlignmentPosition(version, column), AlignmentPosition(version, row);
    AlignmentPositionsInside(version, row);
    AlignmentPositionsInside(version, column);
    var left := AlignmentRegion(cx, cy) - TimingRegion(SymbolSize(version));
    if row == 0 {
      TwoBoxes(left, Box(cx - 2, 4, 5, 2), Box(cx - 2, 7, 5, 2), cx - 2, 4, cx - 2, 7, 5, 2);
    } else if column == 0 {
      TwoBoxes(left, Box(4, cy - 2, 2, 5), Box(7, cy - 2, 2, 5), 4, cy - 2, 7, cy - 2, 2, 5);
    } else {
      BoxSize(cx - 2, cy - 2, 5, 5);
      SubsetSize(left, AlignmentRegion(cx, cy));
    }
  }

  lemma TwoBoxes(cells: set<Cell>, a: set<Cell>, b: set<Cell>, x0: int, y0: int, x1: int, y1: int, w: nat, h: nat)
    requires cells <= a + b && a == Box(x0, y0, w, h) && b == Box(x1, y1, w, h)
    ensures |cells| <= 2 * (w * h)
  {
    hide Box;
    BoxSize(x0, y0, w, h);
    BoxSize(x1, y1, w, h);
    UnionSize(a, b);
    SubsetSize(cells, a + b);
  }

  lemma {:induction false} AlignmentRowSize(version: Version, row: nat, columns: nat)
    requires row < AlignmentCount(version) && columns <= AlignmentCount(version)
    ensures |AlignmentRow(version, row, columns) - TimingRegion(SymbolSize(version))| <= AlignmentRowCost(version, row, columns)
  {
    hide AlignmentRegion, TimingRegion, AlignmentPosition;
    var timing := TimingRegion(SymbolSize(version));
    if columns > 0 {
      AlignmentRowSize(version, row, columns - 1);
      if !FinderCorner(AlignmentCount(version), row, columns - 1) {
        AlignmentPatternSize(version, row, columns - 1);
        var region := AlignmentRegion(AlignmentPosition(version, columns - 1), AlignmentPosition(version, row));
        UnionSize(AlignmentRow(version, row, columns - 1) - timing, region - timing);
        assert AlignmentRow(version, row, columns) - timing == (AlignmentRow(version, row, columns - 1) - timing) + (region - timing);
      }
    }
  }

  lemma {:induction false} AlignmentRowsSize(version: Version, rows: nat)
    requires rows <= AlignmentCount(version)
    ensures |AlignmentRows(version, rows) - TimingRegion(SymbolSize(version))| <= AlignmentRowsCost(version, rows)
  {
    hide AlignmentRow, TimingRegion, AlignmentCount;
    if rows > 0 {
      var timing := TimingRegion(SymbolSize(version));
      var last := AlignmentRow(version, rows - 1, AlignmentCount(version));
      AlignmentRowsSize(version, rows - 1);
      AlignmentRowSize(version, rows - 1, AlignmentCount(version));
      UnionSize(AlignmentRows(version, rows - 1) - timing, last - timing);
      assert AlignmentRows(version, rows) - timing == (AlignmentRows(version, rows - 1) - timing) + (last - timing);
    }
  }

  lemma {:induction false} FirstRowCost(version: Version, columns: nat)
    requires 2 <= columns <= AlignmentCount(version)
    ensures AlignmentRowCost(version, 0, columns) ==
            if columns == AlignmentCount(version) then 20 * (columns - 2) else 20 * (columns - 1)
  {
    if columns > 2 {
      FirstRowCost(version, columns - 1);
    } else {
      assert AlignmentRowCost(version, 0, 1) == AlignmentCost(version, 0, 0);
    }
  }

  lemma {:induction false} LaterRowCost(version: Version, row: nat, columns: nat)
    requires 0 < row < AlignmentCount(version) && 1 <= columns <= AlignmentCount(version)
    ensures AlignmentRowCost(version, row, columns) ==
            25 * (columns - 1) + if row == AlignmentCount(version) - 1 then 0 else 20
  {
    if columns > 1 {
      LaterRowCost(version, row, columns - 1);
    }
  }

  lemma {:induction false} AlignmentTotalCost(version: Version, rows: nat)
    requires version > 1 && 1 <= rows <= AlignmentCount(version)
    ensures var count := AlignmentCount(version);
            AlignmentRowsCost(version, rows) ==
            20 * (count - 2) + (rows - 1) * (25 * (count - 1) + 20) - if rows == count then 20 else 0
  {
    var count := AlignmentCount(version);
    if rows == 1 {
      FirstRowCost(version, count);
    } else {
      AlignmentTotalCost(version, rows - 1);
      LaterRowCost(version, rows - 1, count);
      assert (rows - 1) * (25 * (count - 1) + 20) == (rows - 2) * (25 * (count - 1) + 20) + (25 * (count - 1) + 20);
    }
  }

  lemma AlignmentSize(version: Version)
    ensures |AlignmentRows(version, AlignmentCount(version)) - TimingRegion(SymbolSize(version))| <= AlignmentShare(version)
  {
    hide TimingRegion, AlignmentRow;
    AlignmentRowsSize(version, AlignmentCount(version));
    if version >= 2 {
      AlignmentTotalCost(version, AlignmentCount(version));
    }
  }

  /** Timing modules that no finder covers. */
  function TimingStrips(size: nat): set<Cell>
    requires size >= 21
  {
    Box(8, 6, size - 16, 1) + Box(6, 8, 1, size - 16)
  }

  lemma FinderSize(size: nat, cx: int, cy: int)
    requires size >= 21
    requires (cx == 3 || cx == size - 4) && (cy == 3 || cy == size - 4)
    ensures |FinderRegion(size, cx, cy)| <= 64
    ensures FinderRegion(size, cx, cy) == Box(if cx == 3 then 0 else size - 8, if cy == 3 then 0 else size - 8, 8, 8)
  {
    hide Box;
    var x0, y0 := if cx == 3 then 0 else size - 8, if cy == 3 then 0 else size - 8;
    assert FinderRegion(size, cx, cy) == Box(x0, y0, 8, 8);
    BoxSize(x0, y0, 8, 8);
  }

  lemma FormatSize(size: nat)
    ensures |FormatRegion(size)| <= 31
  {
    hide Box;
    var a, b, c, d := Box(8, 0, 1, 6), Box(8, 7, 1, 1), Box(7, 8, 2, 1), Box(0, 8, 6, 1);
    var e, f := Box(size - 8, 8, 8, 1), Box(8, size - 7, 1, 7);
    BoxSize(8, 0, 1, 6);
    BoxSize(8, 7, 1, 1);
    BoxSize(7, 8, 2, 1);
    BoxSize(0, 8, 6, 1);
    BoxSize(size - 8, 8, 8, 1);
    BoxSize(8, size - 7, 1, 7);
    UnionSize(a, b);
    UnionSize(a + b, c);
    UnionSize(a + b + c, d);
    UnionSize(e, f);
    UnionSize(e + f, {Cell(8, size - 8)});
    UnionSize(FirstFormatRegion(), SecondFormatRegion(size));
  }

  lemma VersionSize(version: Version)
    ensures |VersionRegion(version)| <= if version < 7 then 0 else 36
  {
    hide Box;
    var size := SymbolSize(version);
    BoxSize(size - 11, 0, 3, 6);
    BoxSize(0, size - 11, 6, 3);
    UnionSize(Box(size - 11, 0, 3, 6), Box(0, size - 11, 6, 3));
  }

  lemma FindersAndTimingSize(size: nat)
    requires size >= 21
    ensures |TimingStrips(size) + FinderRegion(size, 3, 3) + FinderRegion(size, size - 4, 3) + FinderRegion(size, 3, size - 4)|
            <= 2 * (size - 16) + 192
    ensures TimingRegion(size) <=
            TimingStrips(size) + FinderRegion(size, 3, 3) + FinderRegion(size, size - 4, 3) + FinderRegion(size, 3, size - 4)
  {
    hide Box, FinderRegion;
    var strips := TimingStrips(size);
    var f, g, h := FinderRegion(size, 3, 3), FinderRegion(size, size - 4, 3), FinderRegion(size, 3, size - 4);
    BoxSize(8, 6, size - 16, 1);
    BoxSize(6, 8, 1, size - 16);
    UnionSize(Box(8, 6, size - 16, 1), Box(6, 8, 1, size - 16));
    FinderSize(size, 3, 3);
    FinderSize(size, size - 4, 3);
    FinderSize(size, 3, size - 4);
    UnionSize(strips, f);
    UnionSize(strips + f, g);
    UnionSize(strips + f + g, h);
  }

  lemma CoverSize(timing: set<Cell>, finders: set<Cell>, strips: set<Cell>, rows: set<Cell>, format: set<Cell>,
                  version: set<Cell>)
    requires timing <= strips + finders
    ensures |timing + finders + rows + format + version| <= |strips + finders| + |rows - timing| + |format| + |version|
  {
    var outline, alignment := strips + finders, rows - timing;
    UnionSize(outline, alignment);
    UnionSize(outline + alignment, format);
    UnionSize(outline + alignment + format, version);
    SubsetSize(timing + finders + rows + format + version, outline + alignment + format + version);
  }

  /** What the alignment patterns take beyond the timing lines. */
  function AlignmentShare(version: Version): int {
    var count := AlignmentCount(version);
    if version < 2 then 0 else (25 * count - 10) * count - 55
  }

  lemma ReservedParts(version: Version)
    ensures |ReservedCells(version)| <=
            2 * (SymbolSize(version) - 16) + 192 + AlignmentShare(version) + 31 + if version < 7 then 0 else 36
  {
    hide TimingStrips, FinderRegion, AlignmentRows, FormatRegion, VersionRegion, TimingRegion, Box, AlignmentCount;
    var size := SymbolSize(version);
    var f, g, h := FinderRegion(size, 3, 3), FinderRegion(size, size - 4, 3), FinderRegion(size, 3, size - 4);
    var finders, strips := f + g + h, TimingStrips(size);
    var rows := AlignmentRows(version, AlignmentCount(version));
    FindersAndTimingSize(size);
    assert strips + finders == strips + f + g + h;
    AlignmentSize(version);
    hide AlignmentShare;
    FormatSize(size);
    VersionSize(version);
    CoverSize(TimingRegion(size), finders, strips, rows, FormatRegion(size), VersionRegion(version));
    assert ReservedCells(version) == TimingRegion(size) + finders + rows + FormatRegion(size) + VersionRegion(version);
  }

  /** The function patterns take no more than the count of section 7.5.1 of ISO/IEC 18004 leaves out. */
  lemma ReservedSize(version: Version)
    ensures |ReservedCells(version)| <= SymbolSize(version) * SymbolSize(version) - RawModuleCount(version)
  {
    hide ReservedCells;
    ReservedParts(version);
    assert SymbolSize(version) * SymbolSize(version) == 16 * version * version + 136 * version + 289;
  }

  lemma ReservedInGrid(version: Version)
    ensures ReservedCells(version) <= Grid(SymbolSize(version))
  {
    hide Box, Grid, AlignmentRows;
    AlignmentInGrid(version, AlignmentCount(version));
  }

  lemma {:induction false} AlignmentRowInGrid(version: Version, row: nat, columns: nat)
    requires row < AlignmentCount(version) && columns <= AlignmentCount(version)
    ensures AlignmentRow(version, row, columns) <= Grid(SymbolSize(version))
  {
    hide Box, Grid, AlignmentPosition;
    if columns > 0 {
      AlignmentRowInGrid(version, row, columns - 1);
      AlignmentPositionsInside(version, row);
      AlignmentPositionsInside(version, columns - 1);
    }
  }

  lemma {:induction false} AlignmentInGrid(version: Version, rows: nat)
    requires rows <= AlignmentCount(version)
    ensures AlignmentRows(version, rows) <= Grid(SymbolSize(version))
  {
    hide AlignmentRow;
    if rows > 0 {
      AlignmentInGrid(version, rows - 1);
      AlignmentRowInGrid(version, rows - 1, AlignmentCount(version));
    }
  }

  /** The unreserved modules can hold every codeword of the version. */
  lemma RoomForCodewords(version: Version)
    ensures |Grid(SymbolSize(version)) - ReservedCells(version)| >= RawModuleCount(version) >= 8 * RawCodewordCount(version)
  {
    hide RawModuleCount, ReservedCells, Grid;
    var size := SymbolSize(version);
    ReservedSize(version);
    ReservedInGrid(version);
    GridSize(size);
    var free := Grid(size) - ReservedCells(version);
    assert Grid(size) == ReservedCells(version) + free;
    RawTable(version);
  }

  lemma GridSize(size: nat)
    ensures |Grid(size)| == size * size
  {
    BoxSize(0, 0, size, size);
  }
}
