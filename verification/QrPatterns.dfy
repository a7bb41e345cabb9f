/** The function patterns a reader looks for are in every drawn symbol. */
module PatternsShow {
  import opened BchCodes
  import opened Canvases
  import opened Conformance
  import opened GaloisField
  import opened Geometry
  import opened Pictures
  import opened Reader
  import opened Segment
  import opened StandardSymbols
  import opened Versions
  import opened Zigzag

  // ----- The alignment patterns keep apart

  lemma SecondCentre(version: Version)
    requires version > 1
    ensures |CENTRES[version]| >= 2 && CENTRES[version][1] >= 18
  {}

  lemma StepBounds(version: Version)
    requires version > 1
    ensures AlignmentStep(version) >= if version < 7 then 12 else 16
  {
    hide AlignmentStep;
    StepIs(version);
  }

  lemma CentreBounds(version: Version, i: nat)
    requires i < |CENTRES[version]|
    ensures var x, n := CENTRES[version][i], |CENTRES[version]|;
            && n >= 2 && (if i == 0 then x == 6 else x >= 18)
            && (if i == n - 1 then x == Side(version) - 7 else x <= Side(version) - if version < 7 then 19 else 23)
  {
    hide AlignmentStep, AlignmentPosition, AlignmentCount;
    SecondCentre(version);
    CentresAre(version, i);
    CentresAre(version, 1);
    PositionBounds(version, i);
  }

  lemma PositionBounds(version: Version, i: nat)
    requires i < AlignmentCount(version) && version > 1
    ensures var x, n := AlignmentPosition(version, i), AlignmentCount(version);
            && (if i == 0 then x == 6 else x >= AlignmentPosition(version, 1))
            && (if i == n - 1 then x == Side(version) - 7 else x <= Side(version) - if version < 7 then 19 else 23)
  {
    hide AlignmentStep;
    StepBounds(version);
    var n, step := AlignmentCount(version), AlignmentStep(version);
    if i > 0 {
      StepsFit(n - 1 - i, n - 2, step);
      if i < n - 1 {
        StepsFit(1, n - 1 - i, step);
      }
    }
  }

  lemma CentresApart(version: Version, i: nat, k: nat)
    requires i < k < |CENTRES[version]|
    ensures CENTRES[version][i] + 12 <= CENTRES[version][k]
  {
    hide AlignmentStep;
    CentreBounds(version, i);
    CentreBounds(version, k);
    if i > 0 {
      hide AlignmentPosition, AlignmentCount;
      CentresAre(version, i);
      CentresAre(version, k);
      PositionsApart(version, i, k);
    }
  }

  lemma PositionsApart(version: Version, i: nat, k: nat)
    requires 0 < i < k < AlignmentCount(version)
    ensures AlignmentPosition(version, i) + 12 <= AlignmentPosition(version, k)
  {
    hide AlignmentStep;
    StepBounds(version);
    var n, step := AlignmentCount(version), AlignmentStep(version);
    assert (n - 1 - i) * step - (n - 1 - k) * step == (k - i) * step;
    StepsFit(1, k - i, step);
  }

  lemma NearOnce(version: Version, i: nat, j: nat, k: nat, l: nat, c: Cell)
    requires Aligned(version, i, j) && Aligned(version, k, l) && Near(version, i, j, c) && Near(version, k, l, c)
    ensures i == k && j == l
  {
    if i < k {
      CentresApart(version, i, k);
    } else if k < i {
      CentresApart(version, k, i);
    }
    if j < l {
      CentresApart(version, j, l);
    } else if l < j {
      CentresApart(version, l, j);
    }
  }

  lemma NearApart(version: Version, i: nat, j: nat, c: Cell)
    requires Aligned(version, i, j) && Near(version, i, j, c)
    ensures !InCorner(version, c) && !InVersion(version, c) && Inside(version, c)
  {
    CentreBounds(version, i);
    CentreBounds(version, j);
  }

  // ----- What a stamp shows

  lemma StampShows(p: Picture, region: set<Cell>, pattern: set<Cell>, c: Cell)
    ensures c in Stamp(p, region, pattern).dark <==> if c in region then c in pattern else c in p.dark
  {}

  lemma {:induction false} AlignmentRowShows(p: Picture, version: Version, row: nat, columns: nat, c: Cell)
    requires row < AlignmentCount(version) && columns <= AlignmentCount(version)
    ensures var dark := c in WithAlignmentRow(p, version, row, columns).dark;
            && (forall i: nat :: i < columns && Aligned(version, i, row) && Near(version, i, row, c) ==>
                  (dark <==> Distance(c, CENTRES[version][i], CENTRES[version][row]) != 1))
            && ((forall i: nat :: i < columns && Aligned(version, i, row) ==> !Near(version, i, row, c)) ==> (dark <==> c in p.dark))
  {
    hide AlignmentCount, AlignmentPosition, AlignmentRegion, FinderCorner, Aligned, Near, AlignmentPattern, Stamp, Distance;
    CentresAre(version, row);
    if columns > 0 {
      var before, last := WithAlignmentRow(p, version, row, columns - 1), columns - 1;
      AlignmentRowShows(p, version, row, columns - 1, c);
      NearIsRegion(version, row, last, c);
      if Aligned(version, last, row) {
        var cx, cy := AlignmentPosition(version, last), AlignmentPosition(version, row);
        StampShows(before, AlignmentRegion(cx, cy), AlignmentPattern(cx, cy), c);
        CentresAre(version, last);
        RingIs(c, cx, cy);
        if Near(version, last, row, c) {
          forall i: nat | i < last && Aligned(version, i, row) && Near(version, i, row, c)
            ensures false
          {
            NearOnce(version, i, row, last, row, c);
          }
        }
      }
    }
  }

  lemma RingIs(c: Cell, cx: int, cy: int)
    ensures Distance(c, cx, cy) == Ring(c, cx, cy)
    ensures c in AlignmentRegion(cx, cy) ==> (c in AlignmentPattern(cx, cy) <==> Distance(c, cx, cy) != 1)
  {}

  lemma {:induction false} AlignmentsShow(p: Picture, version: Version, rows: nat, c: Cell)
    requires rows <= AlignmentCount(version)
    ensures var dark := c in WithAlignments(p, version, rows).dark;
            && (forall i: nat, j: nat :: j < rows && Aligned(version, i, j) && Near(version, i, j, c) ==>
                  (dark <==> Distance(c, CENTRES[version][i], CENTRES[version][j]) != 1))
            && ((forall i: nat, j: nat :: j < rows && Aligned(version, i, j) ==> !Near(version, i, j, c)) ==> (dark <==> c in p.dark))
  {
    hide AlignmentCount, Near, Aligned, WithAlignmentRow, Distance;
    CentresAre(version, 0);
    if rows > 0 {
      var before, last := WithAlignments(p, version, rows - 1), rows - 1;
      AlignmentsShow(p, version, rows - 1, c);
      AlignmentRowShows(before, version, last, AlignmentCount(version), c);
      AlignedBelow(version);
      forall i: nat, j: nat, k: nat | j < last && Aligned(version, i, j) && Near(version, i, j, c) && Aligned(version, k, last) && Near(version, k, last, c)
        ensures false
      {
        NearOnce(version, i, j, k, last, c);
      }
    }
  }

  lemma AlignedBelow(version: Version)
    ensures forall i: nat, j: nat :: Aligned(version, i, j) ==> i < |CENTRES[version]| && j < |CENTRES[version]|
  {}

  // ----- The function patterns, one over the other

  function Found(version: Version): Picture {
    var size := SymbolSize(version);
    var timed := Stamp(Blank(size), TimingRegion(size), TimingPattern(size));
    WithFinder(WithFinder(WithFinder(timed, 3, 3), size - 4, 3), 3, size - 4)
  }

  lemma FoundShows(version: Version, c: Cell)
    requires Inside(version, c)
    ensures var last := Side(version) - 1;
            if InFinder(version, c) then
              var d := Distance(c, if c.x <= 7 then 3 else last - 3, if c.y <= 7 then 3 else last - 3);
              c in Found(version).dark <==> d != 2 && d != 4
            else c.x == 6 || c.y == 6 ==> (c in Found(version).dark <==> (c.x + c.y) % 2 == 0)
  {
    hide Stamp, Distance;
    var size := SymbolSize(version);
    var timed := Stamp(Blank(size), TimingRegion(size), TimingPattern(size));
    var one := WithFinder(timed, 3, 3);
    var two := WithFinder(one, size - 4, 3);
    StampSizes(version);
    StampShows(Blank(size), TimingRegion(size), TimingPattern(size), c);
    FinderShows(timed, 3, 3, c);
    FinderShows(one, size - 4, 3, c);
    FinderShows(two, 3, size - 4, c);
    hide WithFinder;
    FinderNear(size, c);
  }

  lemma StampSizes(version: Version)
    ensures var size := SymbolSize(version);
            var timed := Stamp(Blank(size), TimingRegion(size), TimingPattern(size));
            && timed.size == size && WithFinder(timed, 3, 3).size == size
            && WithFinder(WithFinder(timed, 3, 3), size - 4, 3).size == size
  {}

  lemma FinderShows(p: Picture, cx: int, cy: int, c: Cell)
    requires c in Grid(p.size)
    ensures var d := Distance(c, cx, cy);
            c in WithFinder(p, cx, cy).dark <==> if d <= 4 then d != 2 && d != 4 else c in p.dark
  {
    hide Stamp;
    RingIs(c, cx, cy);
    StampShows(p, FinderRegion(p.size, cx, cy), FinderPattern(p.size, cx, cy), c);
  }

  lemma FinderNear(size: nat, c: Cell)
    requires size >= 21 && c in Grid(size)
    ensures Distance(c, 3, 3) <= 4 <==> c.x <= 7 && c.y <= 7
    ensures Distance(c, size - 4, 3) <= 4 <==> c.x >= size - 8 && c.y <= 7
    ensures Distance(c, 3, size - 4) <= 4 <==> c.x <= 7 && c.y >= size - 8
  {}

  /** Which of the drawn layers shows. */
  lemma FunctionPatternsShow(version: Version, c: Cell)
    requires Inside(version, c)
    ensures var dark, found := c in FunctionPatterns(version).dark, Found(version);
            if c in VersionRegion(version) then dark <==> c in VersionPattern(version)
            else c !in FormatRegion(Side(version)) ==>
                   (dark <==> c in WithAlignments(found, version, AlignmentCount(version)).dark)
  {
    hide Stamp, FormatRegion, VersionRegion, AlignmentCount, WithAlignments, FormatPattern, VersionPattern, Found;
    var aligned := WithAlignments(Found(version), version, AlignmentCount(version));
    var formatted := WithFormat(aligned, 0);
    AlignmentsReserve(Found(version), version, AlignmentCount(version));
    assert Found(version).size == Side(version) by { FoundSize(version); }
    StampShows(aligned, FormatRegion(aligned.size), FormatPattern(aligned.size, 0), c);
    StampShows(formatted, VersionRegion(version), VersionPattern(version), c);
    assert FunctionPatterns(version) == WithVersion(formatted, version) by { FunctionPatternsAre(version); }
  }

  lemma FoundSize(version: Version)
    ensures Found(version).size == Side(version)
  {
    hide TimingRegion, TimingPattern, FinderRegion, FinderPattern;
  }

  lemma FunctionPatternsAre(version: Version)
    ensures FunctionPatterns(version) ==
            WithVersion(WithFormat(WithAlignments(Found(version), version, AlignmentCount(version)), 0), version)
  {}

  /** Data and masks leave the reserved modules as drawn, the format aside. */
  lemma DrawnReserved(codewords: seq<Byte>, version: Version, mask: nat, c: Cell)
    requires c in ReservedCells(version)
    ensures var drawn := Drawn(codewords, version, mask);
            c in drawn.dark <==> if c in FormatRegion(Side(version)) then c in FormatPattern(Side(version), mask)
                                 else c in FunctionPatterns(version).dark
  {
    hide Stamp, FormatRegion, FormatPattern, FunctionPatterns, ReservedCells, Unpacked, Painted, DataCells, PathLength, MaskBit, Grid;
    FunctionPatternsReserve(version);
    var base, bits := FunctionPatterns(version), Unpacked(codewords);
    var cells := DataCells(base.size, base.reserved, PathLength(base.size));
    var count := Min(|cells|, |bits|);
    var data := WithData(base, bits);
    var masked := WithMask(data, mask);
    DataCellsSound(base.size, base.reserved, PathLength(base.size));
    assert c !in cells[..count];
    PaintedElsewhere(base.dark, cells, bits, count, c);
    assert c in masked.dark <==> c in base.dark;
    StampShows(masked, FormatRegion(masked.size), FormatPattern(masked.size, mask), c);
  }

  lemma RegionsAre(version: Version, c: Cell)
    requires Inside(version, c)
    ensures c in VersionRegion(version) <==> InVersion(version, c)
    ensures c in FormatRegion(Side(version)) ==> InCorner(version, c) && !InFinder(version, c) && c.x != 6 && c.y != 6
    ensures c in ReservedCells(version) <==> FunctionModule(version, c)
  {
    hide FormatRegion, ReservedCells, FunctionModule;
    InFormat(Side(version), c);
    ReservedAreFunctionModules(version, c);
  }

  lemma NotNear(version: Version, c: Cell)
    ensures InCorner(version, c) || InVersion(version, c) ==> forall i: nat, j: nat :: Aligned(version, i, j) ==> !Near(version, i, j, c)
  {
    hide Near, Aligned, InCorner, InVersion;
    forall i: nat, j: nat | Aligned(version, i, j) && Near(version, i, j, c)
      ensures !InCorner(version, c) && !InVersion(version, c)
    {
      NearApart(version, i, j, c);
    }
  }

  lemma FinderIsShown(codewords: seq<Byte>, version: Version, mask: nat, c: Cell)
    requires Inside(version, c) && InFinder(version, c)
    ensures var last := Side(version) - 1;
            var d := Distance(c, if c.x <= 7 then 3 else last - 3, if c.y <= 7 then 3 else last - 3);
            c in Drawn(codewords, version, mask).dark <==> d != 2 && d != 4
  {
    hide Drawn, FormatRegion, VersionRegion, FunctionPatterns, WithAlignments, AlignmentCount, Found, Distance, ReservedCells, Near;
    hide Aligned, FormatPattern, VersionPattern, InAlignment;
    RegionsAre(version, c);
    NotNear(version, c);
    DrawnReserved(codewords, version, mask, c);
    FunctionPatternsShow(version, c);
    AlignmentsShow(Found(version), version, AlignmentCount(version), c);
    FoundShows(version, c);
  }

  lemma CentreIsEven(version: Version, i: nat)
    requires i < |CENTRES[version]|
    ensures CENTRES[version][i] % 2 == 0
  {
    hide AlignmentStep, AlignmentCount;
    CentresAre(version, i);
    if i > 0 {
      StepIsEven(version);
      EvenSteps(AlignmentCount(version) - 1 - i, AlignmentStep(version));
    }
  }

  lemma StepIsEven(version: Version)
    requires version > 1
    ensures AlignmentStep(version) % 2 == 0
  {}

  lemma EvenSteps(count: int, step: int)
    requires step % 2 == 0
    ensures count * step % 2 == 0
  {
    assert count * step == 2 * (count * (step / 2));
  }

  lemma TimingInAlignment(version: Version, i: nat, j: nat, c: Cell)
    requires Aligned(version, i, j) && Near(version, i, j, c) && (c.x == 6 || c.y == 6)
    ensures Distance(c, CENTRES[version][i], CENTRES[version][j]) != 1 <==> (c.x + c.y) % 2 == 0
  {
    hide Distance;
    CentreBounds(version, i);
    CentreBounds(version, j);
    CentreIsEven(version, i);
    CentreIsEven(version, j);
    EvenRings(c, CENTRES[version][i], CENTRES[version][j]);
  }

  lemma EvenRings(c: Cell, x: int, y: int)
    requires x % 2 == 0 && y % 2 == 0 && x - 2 <= c.x <= x + 2 && y - 2 <= c.y <= y + 2
    requires (c.x == 6 && (x == 6 || x >= 18)) || (c.y == 6 && (y == 6 || y >= 18))
    ensures Distance(c, x, y) != 1 <==> (c.x + c.y) % 2 == 0
  {}

  lemma TimingIsShown(codewords: seq<Byte>, version: Version, mask: nat, c: Cell)
    requires Inside(version, c) && (c.x == 6 || c.y == 6) && !InFinder(version, c)
    ensures c in Drawn(codewords, version, mask).dark <==> (c.x + c.y) % 2 == 0
  {
    hide Drawn, FormatRegion, VersionRegion, FunctionPatterns, WithAlignments, Found, Distance, ReservedCells, Near;
    hide Aligned, FormatPattern, VersionPattern, AlignmentCount, InFinder, InCorner;
    RegionsAre(version, c);
    DrawnReserved(codewords, version, mask, c);
    FunctionPatternsShow(version, c);
    AlignmentsShow(Found(version), version, AlignmentCount(version), c);
    AlignedBelow(version);
    CentresAre(version, 0);
    FoundShows(version, c);
    if i: nat, j: nat :| Aligned(version, i, j) && Near(version, i, j, c) {
      TimingInAlignment(version, i, j, c);
    }
  }

  lemma AlignmentIsShown(codewords: seq<Byte>, version: Version, mask: nat, i: nat, j: nat, c: Cell)
    requires Aligned(version, i, j) && Near(version, i, j, c)
    ensures c in Drawn(codewords, version, mask).dark <==> Distance(c, CENTRES[version][i], CENTRES[version][j]) != 1
  {
    hide Drawn, FormatRegion, VersionRegion, FunctionPatterns, WithAlignments, AlignmentCount, Found, Distance, ReservedCells, Near;
    hide Aligned, FormatPattern, VersionPattern, InFinder, InCorner, InVersion;
    NearApart(version, i, j, c);
    AlignedBelow(version);
    CentresAre(version, 0);
    RegionsAre(version, c);
    DrawnReserved(codewords, version, mask, c);
    FunctionPatternsShow(version, c);
    AlignmentsShow(Found(version), version, AlignmentCount(version), c);
  }

  lemma PatternsAreShown(codewords: seq<Byte>, version: Version, mask: nat)
    ensures PatternsShown(Symbol(Side(version), Drawn(codewords, version, mask).dark), version)
  {
    hide Drawn, FormatRegion, VersionRegion, FunctionPatterns, WithAlignments, AlignmentCount, Found, Distance, ReservedCells, Near;
    hide Aligned, FormatPattern, VersionPattern, InFinder, InCorner, InVersion;
    var symbol, last := Symbol(Side(version), Drawn(codewords, version, mask).dark), Side(version) - 1;
    AlignedBelow(version);
    forall c | Inside(version, c) && InFinder(version, c)
      ensures var d := Distance(c, if c.x <= 7 then 3 else last - 3, if c.y <= 7 then 3 else last - 3);
              c in symbol.dark <==> d != 2 && d != 4
    {
      FinderIsShown(codewords, version, mask, c);
    }
    forall c | Inside(version, c) && (c.x == 6 || c.y == 6) && !InFinder(version, c)
      ensures c in symbol.dark <==> (c.x + c.y) % 2 == 0
    {
      TimingIsShown(codewords, version, mask, c);
    }
    forall i: nat, j: nat, c | Aligned(version, i, j) && Near(version, i, j, c)
      ensures c in symbol.dark <==> Distance(c, CENTRES[version][i], CENTRES[version][j]) != 1
    {
      AlignmentIsShown(codewords, version, mask, i, j, c);
    }
  }

  // ----- Format and version

  lemma FormatCellsAre(version: Version, i: nat)
    requires i < 15
    ensures var side := Side(version);
            && FIRST_FORMAT[i] == FormatCell(i) && SecondFormat(side, i) == SecondFormatCell(side, i)
            && FormatCell(i) in FormatRegion(side) && SecondFormatCell(side, i) in FormatRegion(side)
            && Cell(8, side - 8) in FormatRegion(side)
  {}

  lemma FormatReserves(version: Version)
    ensures FormatRegion(Side(version)) <= ReservedCells(version)
    ensures VersionRegion(version) <= ReservedCells(version)
    ensures FormatRegion(Side(version)) !! VersionRegion(version)
  {
    hide TimingRegion, FinderRegion, AlignmentRows;
  }

  lemma FormatIsSpelled(codewords: seq<Byte>, version: Version, mask: nat)
    requires mask < 8
    ensures FormatSpelled(Symbol(Side(version), Drawn(codewords, version, mask).dark), version, FormatBits(mask))
  {
    hide Drawn, FormatRegion, VersionRegion, FunctionPatterns, ReservedCells, FormatPattern, FormatBits, HasBit, BitAt, FormatCell;
    hide SecondFormat, SecondFormatCell, Xor;
    FormatAnnouncesMask(mask);
    FormatReserves(version);
    var side := Side(version);
    forall i: nat | i < 15
      ensures FIRST_FORMAT[i] in Drawn(codewords, version, mask).dark <==> HasBit(FormatBits(mask), i)
      ensures SecondFormat(side, i) in Drawn(codewords, version, mask).dark <==> HasBit(FormatBits(mask), i)
    {
      FormatCellsAre(version, i);
      FormatCells(side, mask, i);
      BitIsDigit(FormatBits(mask), i);
      DrawnReserved(codewords, version, mask, FormatCell(i));
      DrawnReserved(codewords, version, mask, SecondFormatCell(side, i));
    }
    FormatCellsAre(version, 0);
    FormatCells(side, mask, 0);
    DrawnReserved(codewords, version, mask, Cell(8, side - 8));
  }

  lemma VersionCellsAre(version: Version, i: nat)
    requires version >= 7 && i < 18
    ensures var far, near := Side(version) - 11 + i % 3, i / 3;
            && Cell(far, near) in VersionRegion(version) && Cell(near, far) in VersionRegion(version)
            && (Cell(far, near) in VersionPattern(version) <==> BitAt(VersionBits(version), i))
            && (Cell(near, far) in VersionPattern(version) <==> BitAt(VersionBits(version), i))
  {
    hide BitAt, VersionBits;
    assert i == i / 3 * 3 + i % 3;
  }

  lemma VersionIsSpelled(codewords: seq<Byte>, version: Version, mask: nat)
    requires version >= 7
    ensures VersionSpelled(Symbol(Side(version), Drawn(codewords, version, mask).dark), version)
  {
    hide Drawn, FormatRegion, VersionRegion, FunctionPatterns, ReservedCells, VersionPattern, VersionBits, HasBit, BitAt, BchWord;
    FormatReserves(version);
    VersionIsWord(version);
    var word := VersionBits(version);
    forall i: nat | i < 18
      ensures var far, near := Side(version) - 11 + i % 3, i / 3;
              && (Cell(far, near) in Drawn(codewords, version, mask).dark <==> HasBit(word, i))
              && (Cell(near, far) in Drawn(codewords, version, mask).dark <==> HasBit(word, i))
    {
      var far, near := Side(version) - 11 + i % 3, i / 3;
      VersionCellsAre(version, i);
      BitIsDigit(word, i);
      DrawnReserved(codewords, version, mask, Cell(far, near));
      DrawnReserved(codewords, version, mask, Cell(near, far));
      InSymbol(version, far, near);
      FunctionPatternsShow(version, Cell(far, near));
      FunctionPatternsShow(version, Cell(near, far));
    }
  }

  lemma InSymbol(version: Version, far: int, near: int)
    requires version >= 7 && Side(version) - 11 <= far < Side(version) - 8 && 0 <= near < 6
    ensures StandardSymbols.Inside(version, Cell(far, near)) && StandardSymbols.Inside(version, Cell(near, far))
  {}

  /** Every drawn symbol shows its patterns, its format and its version. */
  lemma DrawnShows(codewords: seq<Byte>, version: Version, mask: nat)
    requires mask < 8
    ensures Shows(Symbol(Side(version), Drawn(codewords, version, mask).dark), version, mask)
  {
    hide Drawn, PatternsShown, FormatSpelled, VersionSpelled, BchWord, Xor, FormatBits;
    PatternsAreShown(codewords, version, mask);
    FormatIsSpelled(codewords, version, mask);
    FormatIsWord(mask);
    if version >= 7 {
      VersionIsSpelled(codewords, version, mask);
    }
  }
}
