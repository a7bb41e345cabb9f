/** The encoder's modules and codewords are where the standard has them. */
module Conformance {
  import opened GaloisField
  import opened Geometry
  import opened Options
  import opened Pictures
  import opened Reader
  import opened Segment
  import opened StandardSymbols
  import opened Versions
  import opened Zigzag

  // ----- The path

  /** The loop over column pairs follows the standard's path. */
  lemma PathIsScan(size: nat, k: nat)
    requires SizeOk(size) && k < PathLength(size)
    ensures PathCell(size, k) == Scan(size, k)
  {
    PathPair(size, k);
    var pair, within := k / (2 * size), k % (2 * size);
    EvenTable(size, pair, within);
    RightIsEither(size, pair);
    UpwardInTurn(size, pair);
    hide SizeOk, PathLength, PairCount, RightColumn, Upward;
  }

  lemma EvenTable(size: nat, pair: nat, within: nat)
    ensures (pair * (2 * size) + within) % 2 == within % 2
  {
    assert pair * (2 * size) + within == 2 * (pair * size) + within;
  }

  lemma RightIsEither(size: nat, pair: nat)
    requires SizeOk(size)
    ensures RightColumn(size, pair) == if size - 1 - 2 * pair > 6 then size - 1 - 2 * pair else size - 2 - 2 * pair
  {}

  lemma UpwardInTurn(size: nat, pair: nat)
    requires SizeOk(size) && pair < PairCount(size)
    ensures Upward(RightColumn(size, pair)) <==> pair % 2 == 0
  {
    var quarter := size / 4;
    RightIsEither(size, pair);
    TurnOf(quarter, pair, RightColumn(size, pair));
    hide RightColumn;
  }

  lemma TurnOf(quarter: nat, pair: nat, right: int)
    requires right == 4 * quarter - 2 * pair || right == 4 * quarter - 2 * pair - 1
    ensures (right + 1) / 2 % 2 == 0 <==> pair % 2 == 0
  {
    assert (right + 1) / 2 == 2 * quarter - pair;
  }

  // ----- Function modules

  const STEPS: seq<nat> := [
    0, 0, 12, 16, 20, 24, 28, 16, 18, 20, 22, 24, 26, 28, 20, 22, 24, 24, 26, 28, 28,
    22, 24, 24, 26, 26, 28, 28, 24, 24, 26, 26, 26, 28, 28, 24, 26, 26, 26, 28, 28
  ]

  lemma StepIs(version: Version)
    requires version > 1
    ensures AlignmentStep(version) == STEPS[version]
  {
    hide AlignmentStep;
    if version < 21 {
      FewSteps(version);
    } else if version < 28 {
      ManySteps(version);
    } else {
      MostSteps(version);
    }
  }

  lemma FewSteps(version: Version)
    requires 1 < version < 21
    ensures AlignmentStep(version) == STEPS[version]
  {}

  lemma ManySteps(version: Version)
    requires 21 <= version < 28
    ensures AlignmentStep(version) == STEPS[version]
  {
    assert version / 7 == 3;
    assert AlignmentStep(version) == (version * 4 + 11) / 8 * 2;
  }

  lemma MostSteps(version: Version)
    requires 28 <= version
    ensures AlignmentStep(version) == STEPS[version]
  {}

  lemma CentresAre(version: Version, index: nat)
    ensures AlignmentCount(version) == |CENTRES[version]|
    ensures index < AlignmentCount(version) ==> AlignmentPosition(version, index) == CENTRES[version][index]
  {
    if version < 14 {
      CentresTo13(version, index);
    } else if version < 21 {
      CentresTo20(version, index);
    } else if version < 28 {
      CentresTo27(version, index);
    } else if version < 35 {
      CentresTo34(version, index);
    } else {
      CentresTo40(version, index);
    }
  }

  lemma CentresTo13(version: Version, index: nat)
    requires version < 14
    ensures AlignmentCount(version) == |CENTRES[version]|
    ensures index < AlignmentCount(version) ==> AlignmentPosition(version, index) == CENTRES[version][index]
  {
    hide AlignmentStep;
    if version > 1 {
      StepIs(version);
    }
  }

  lemma CentresTo20(version: Version, index: nat)
    requires 14 <= version < 21
    ensures AlignmentCount(version) == |CENTRES[version]|
    ensures index < AlignmentCount(version) ==> AlignmentPosition(version, index) == CENTRES[version][index]
  {
    hide AlignmentStep;
    if version > 1 {
      StepIs(version);
    }
  }

  lemma CentresTo27(version: Version, index: nat)
    requires 21 <= version < 28
    ensures AlignmentCount(version) == |CENTRES[version]|
    ensures index < AlignmentCount(version) ==> AlignmentPosition(version, index) == CENTRES[version][index]
  {
    hide AlignmentStep;
    if version > 1 {
      StepIs(version);
    }
  }

  lemma CentresTo34(version: Version, index: nat)
    requires 28 <= version < 35
    ensures AlignmentCount(version) == |CENTRES[version]|
    ensures index < AlignmentCount(version) ==> AlignmentPosition(version, index) == CENTRES[version][index]
  {
    hide AlignmentStep;
    if version > 1 {
      StepIs(version);
    }
  }

  lemma CentresTo40(version: Version, index: nat)
    requires 35 <= version
    ensures AlignmentCount(version) == |CENTRES[version]|
    ensures index < AlignmentCount(version) ==> AlignmentPosition(version, index) == CENTRES[version][index]
  {
    hide AlignmentStep;
    if version > 1 {
      StepIs(version);
    }
  }

  /** The alignment patterns are drawn round the standard's centres. */
  lemma {:induction false} RowIsAligned(version: Version, row: nat, columns: nat, c: Cell)
    requires row < AlignmentCount(version) && columns <= AlignmentCount(version)
    ensures c in AlignmentRow(version, row, columns) <==>
            exists i: nat :: i < columns && Aligned(version, i, row) && Near(version, i, row, c)
  {
    hide AlignmentCount, AlignmentPosition, AlignmentRegion, FinderCorner, Aligned, Near;
    CentresAre(version, row);
    if columns > 0 {
      RowIsAligned(version, row, columns - 1, c);
      NearIsRegion(version, row, columns - 1, c);
    }
  }

  lemma NearIsRegion(version: Version, row: nat, column: nat, c: Cell)
    requires row < AlignmentCount(version) && column < AlignmentCount(version)
    ensures Aligned(version, column, row) <==> !FinderCorner(AlignmentCount(version), row, column)
    ensures Aligned(version, column, row) ==>
              (Near(version, column, row, c) <==>
               c in AlignmentRegion(AlignmentPosition(version, column), AlignmentPosition(version, row)))
  {
    hide AlignmentCount, AlignmentPosition;
    CentresAre(version, row);
    CentresAre(version, column);
  }

  lemma {:induction false} RowsAreAligned(version: Version, rows: nat, c: Cell)
    requires rows <= AlignmentCount(version)
    ensures c in AlignmentRows(version, rows) <==>
            exists i: nat, j: nat :: i < AlignmentCount(version) && j < rows && Aligned(version, i, j) && Near(version, i, j, c)
  {
    hide AlignmentCount, AlignmentRow, Near, Aligned;
    if rows > 0 {
      RowsAreAligned(version, rows - 1, c);
      RowIsAligned(version, rows - 1, AlignmentCount(version), c);
    }
  }

  lemma AlignedAre(version: Version, c: Cell)
    ensures c in AlignmentRows(version, AlignmentCount(version)) <==> InAlignment(version, c)
  {
    hide AlignmentCount, AlignmentRows, Near;
    CentresAre(version, 0);
    RowsAreAligned(version, AlignmentCount(version), c);
  }

  /** What the encoder reserves are the standard's function modules. */
  lemma ReservedAreFunctionModules(version: Version, c: Cell)
    requires c in Grid(Side(version))
    ensures c in ReservedCells(version) <==> FunctionModule(version, c)
  {
    hide AlignmentRows, AlignmentCount, InAlignment;
    AlignedAre(version, c);
    var size := SymbolSize(version);
    assert c in FinderRegion(size, 3, 3) <==> c.x <= 7 && c.y <= 7;
    assert c in FinderRegion(size, size - 4, 3) <==> c.x >= size - 8 && c.y <= 7;
    assert c in FinderRegion(size, 3, size - 4) <==> c.x <= 7 && c.y >= size - 8;
    InFormat(size, c);
    hide FinderRegion, FormatRegion;
  }

  lemma InFormat(size: nat, c: Cell)
    requires size >= 21 && c in Grid(size)
    ensures c in FormatRegion(size) <==>
            || (c.x == 8 && c.y <= 8 && c.y != 6) || (c.y == 8 && c.x <= 8 && c.x != 6)
            || (c.y == 8 && c.x >= size - 8) || (c.x == 8 && c.y >= size - 8)
  {}

  lemma {:induction false} DataModulesAre(version: Version, count: nat)
    requires count <= PathLength(Side(version))
    ensures SizeOk(Side(version)) && DataModules(version, count) == DataCells(Side(version), ReservedCells(version), count)
  {
    hide PathCell, ReservedCells, FunctionModule, PathLength, Grid, Scan;
    if count > 0 {
      DataModulesAre(version, count - 1);
      PathIndexOfPathCell(Side(version), count - 1);
      PathIsScan(Side(version), count - 1);
      ReservedAreFunctionModules(version, PathCell(Side(version), count - 1));
    }
  }

  lemma PathIs(version: Version)
    ensures Path(version) == DataCells(Side(version), ReservedCells(version), PathLength(Side(version)))
  {
    hide DataModules, DataCells, ReservedCells;
    var size := Side(version);
    assert size / 2 * (2 * size) == (size - 1) * size by {
      assert size / 2 * 2 == size - 1;
      assert size / 2 * (2 * size) == (size / 2 * 2) * size;
    }
    DataModulesAre(version, PathLength(size));
  }

  // ----- Bits and codewords

  lemma MaskIsTable(mask: nat, x: nat, y: nat)
    requires mask < 8
    ensures MaskBit(mask, x, y) <==> Inverted(mask, y, x)
  {
    assert x * y == y * x;
  }

  lemma NumberOfEight(bits: seq<bool>)
    requires |bits| == 8
    ensures Number(bits) ==
            128 * Digit(bits[0]) + 64 * Digit(bits[1]) + 32 * Digit(bits[2]) + 16 * Digit(bits[3])
            + 8 * Digit(bits[4]) + 4 * Digit(bits[5]) + 2 * Digit(bits[6]) + Digit(bits[7])
  {
    NumberOfFour(bits[..4]);
    var six, seven := bits[..6], bits[..7];
    assert bits[..5][..4] == bits[..4] && six[..5] == bits[..5] && seven[..6] == six;
    assert Number(bits[..5]) == 2 * Number(bits[..4]) + Digit(bits[4]);
    assert Number(six) == 2 * Number(bits[..5]) + Digit(bits[5]);
    assert Number(seven) == 2 * Number(six) + Digit(bits[6]);
  }

  lemma NumberOfFour(bits: seq<bool>)
    requires |bits| == 4
    ensures Number(bits) == 8 * Digit(bits[0]) + 4 * Digit(bits[1]) + 2 * Digit(bits[2]) + Digit(bits[3])
  {
    var two, three := bits[..2], bits[..3];
    assert bits[..1][..0] == [] && two[..1] == bits[..1] && three[..2] == two;
    assert Number(bits[..1]) == Digit(bits[0]);
    assert Number(two) == 2 * Number(bits[..1]) + Digit(bits[1]);
    assert Number(three) == 2 * Number(two) + Digit(bits[2]);
  }

  /** A data module, read through its mask. */
  lemma BitIs(symbol: Symbol, version: Version, mask: nat, k: nat)
    requires symbol.size == Side(version) && mask < 8 && k < |Path(version)|
    ensures var cells := DataCells(Side(version), ReservedCells(version), PathLength(Side(version)));
            && cells == Path(version)
            && (Bit(symbol, version, mask, k) <==>
                cells[k] in WithMask(Picture(symbol.size, symbol.dark, ReservedCells(version)), mask).dark)
  {
    hide Path, DataCells, ReservedCells, PathLength, Grid, PathIndex, MaskBit, Inverted;
    PathIs(version);
    var size := Side(version);
    var cells := DataCells(size, ReservedCells(version), PathLength(size));
    DataModulesAre(version, PathLength(size));
    DataCellsSound(size, ReservedCells(version), PathLength(size));
    var c := cells[k];
    assert c in cells;
    MaskIsTable(mask, c.x, c.y);
  }

  /** The codewords of a symbol, read module by module. */
  lemma StreamIsTransmitted(codewords: seq<Byte>, version: Version, mask: nat)
    requires |codewords| == RawCodewordCount(version) && mask < 8
    ensures Transmits(Symbol(Side(version), Drawn(codewords, version, mask).dark), version, mask, codewords)
  {
    hide Drawn, ReservedCells, DataCells, PathLength, RawModuleCount, WithMask, Path, CodewordOf;
    var symbol := Symbol(Side(version), Drawn(codewords, version, mask).dark);
    CodewordsReadBack(codewords, version, mask);
    TotalIs(version);
    DataCellsSuffice(version);
    PathIs(version);
    hide RawCodewordCount, Total;
    assert ReadMask(symbol.dark) == mask by { DrawnMask(codewords, version, mask); }
    hide ReadMask;
    forall j | 0 <= j < |codewords|
      ensures codewords[j] == CodewordOf(symbol, version, mask, j)
    {
      OneCodeword(symbol, version, mask, codewords, j);
    }
    forall k | 8 * |codewords| <= k < |Path(version)|
      ensures !Bit(symbol, version, mask, k)
    {
      RemainderIsLight(codewords, version, mask, k);
    }
  }

  /** The modules the stream does not reach stay as the blank canvas had them. */
  lemma RemainderIsLight(codewords: seq<Byte>, version: Version, mask: nat, k: nat)
    requires mask < 8 && 8 * |codewords| <= k < |Path(version)|
    ensures !Bit(Symbol(Side(version), Drawn(codewords, version, mask).dark), version, mask, k)
  {
    hide FunctionPatterns, ReservedCells, FormatPattern, FormatRegion, Unpacked, DataCells, PathLength, MaskBit, Painted, Path, Grid;
    hide Bit, PathIndex;
    var size, reserved := Side(version), ReservedCells(version);
    var symbol := Symbol(size, Drawn(codewords, version, mask).dark);
    FunctionPatternsReserve(version);
    BitIs(symbol, version, mask, k);
    var cells, bits := DataCells(size, reserved, PathLength(size)), Unpacked(codewords);
    var base := FunctionPatterns(version);
    var data := WithData(base, bits);
    var masked := WithMask(data, mask);
    var drawn := WithFormat(masked, mask);
    FormatReserved(version);
    MaskThenFormat(masked, mask, mask);
    MaskTwice(data, mask);
    assert WithMask(Picture(size, drawn.dark, reserved), mask).dark == WithFormat(data, mask).dark;
    DataModulesAre(version, PathLength(size));
    DataCellsSound(size, reserved, PathLength(size));
    DataCellsDistinct(size, reserved, PathLength(size));
    var c := cells[k];
    assert c in cells;
    var count := Min(|cells|, |bits|);
    assert c !in cells[..count];
    PaintedElsewhere(base.dark, cells, bits, count, c);
    FunctionPatternsDark(version);
    assert c !in base.dark;
  }

  /** Nothing is dark on the blank canvas but the function patterns. */
  lemma FunctionPatternsDark(version: Version)
    ensures FunctionPatterns(version).dark <= ReservedCells(version)
  {
    hide Stamp, TimingRegion, FinderRegion, FormatRegion, VersionRegion, AlignmentRows, WithAlignments, AlignmentCount;
    hide TimingPattern, FinderPattern, FormatPattern, VersionPattern;
    var size := SymbolSize(version);
    var timed := Stamp(Blank(size), TimingRegion(size), TimingPattern(size));
    var one := WithFinder(timed, 3, 3);
    var two := WithFinder(one, size - 4, 3);
    var found := WithFinder(two, 3, size - 4);
    var aligned := WithAlignments(found, version, AlignmentCount(version));
    var formatted := WithFormat(aligned, 0);
    StampDark(Blank(size), TimingRegion(size), TimingPattern(size));
    StampDark(timed, FinderRegion(size, 3, 3), FinderPattern(size, 3, 3));
    StampDark(one, FinderRegion(size, size - 4, 3), FinderPattern(size, size - 4, 3));
    StampDark(two, FinderRegion(size, 3, size - 4), FinderPattern(size, 3, size - 4));
    AlignmentsDark(found, version, AlignmentCount(version));
    StampDark(aligned, FormatRegion(size), FormatPattern(size, 0));
    StampDark(formatted, VersionRegion(version), VersionPattern(version));
    FunctionPatternsReserve(version);
  }

  lemma StampDark(p: Picture, region: set<Cell>, pattern: set<Cell>)
    ensures p.dark <= p.reserved ==> Stamp(p, region, pattern).dark <= Stamp(p, region, pattern).reserved
    ensures Stamp(p, region, pattern).size == p.size
  {}

  lemma {:induction false} AlignmentsDark(p: Picture, version: Version, rows: nat)
    requires rows <= AlignmentCount(version)
    ensures p.dark <= p.reserved ==> WithAlignments(p, version, rows).dark <= WithAlignments(p, version, rows).reserved
    ensures WithAlignments(p, version, rows).size == p.size
  {
    hide WithAlignmentRow, AlignmentCount;
    if rows > 0 {
      AlignmentsDark(p, version, rows - 1);
      AlignmentRowDark(WithAlignments(p, version, rows - 1), version, rows - 1, AlignmentCount(version));
    }
  }

  lemma {:induction false} AlignmentRowDark(p: Picture, version: Version, row: nat, columns: nat)
    requires row < AlignmentCount(version) && columns <= AlignmentCount(version)
    ensures p.dark <= p.reserved ==> WithAlignmentRow(p, version, row, columns).dark <= WithAlignmentRow(p, version, row, columns).reserved
    ensures WithAlignmentRow(p, version, row, columns).size == p.size
  {
    hide AlignmentRegion, AlignmentPattern, AlignmentPosition, AlignmentCount, FinderCorner, Stamp;
    if columns > 0 {
      var before := WithAlignmentRow(p, version, row, columns - 1);
      AlignmentRowDark(p, version, row, columns - 1);
      var cx, cy := AlignmentPosition(version, columns - 1), AlignmentPosition(version, row);
      StampDark(before, AlignmentRegion(cx, cy), AlignmentPattern(cx, cy));
    }
  }

  lemma OneCodeword(symbol: Symbol, version: Version, mask: nat, codewords: seq<Byte>, j: nat)
    requires symbol.size == Side(version) && mask < 8 && ReadMask(symbol.dark) == mask
    requires ReadCodewords(symbol, version) == Some(codewords) && j < |codewords| && 8 * |codewords| <= |Path(version)|
    ensures codewords[j] == CodewordOf(symbol, version, mask, j)
  {
    hide ReadMask, DataCells, ReservedCells, PathLength, WithMask, Path, Bit, RawCodewordCount, Number;
    var cells := DataCells(Side(version), ReservedCells(version), PathLength(Side(version)));
    var bits := ReadBits(symbol, version, mask, 8 * RawCodewordCount(version));
    var k := 8 * j;
    var digits := bits[k..k + 8];
    NumberOfEight(digits);
    forall i | 0 <= i < 8
      ensures digits[i] <==> Bit(symbol, version, mask, k + i)
    {
      BitIs(symbol, version, mask, k + i);
    }
  }

  lemma TotalIs(version: Version)
    ensures Total(BLOCKS[version]) == RawCodewordCount(version)
  {
    RawTable(version);
    hide RawModuleCount;
    if version <= 20 {
      TotalTo20(version);
    } else {
      TotalTo40(version);
    }
  }

  lemma TotalTo20(version: Version)
    requires version <= 20
    ensures Total(BLOCKS[version]) == RAW_MODULES[version] / 8
  {}

  lemma TotalTo40(version: Version)
    requires version > 20
    ensures Total(BLOCKS[version]) == RAW_MODULES[version] / 8
  {}
}
