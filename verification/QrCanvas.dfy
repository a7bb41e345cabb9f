/** The canvas a symbol is drawn on, in place. */
module Canvases {
  import opened GaloisField
  import opened Geometry
  import opened Pictures
  import opened Segment
  import opened Versions
  import opened Zigzag

  class Canvas {
    const size: nat
    const modules: array2<bool>
    const reserved: array2<bool>

    ghost predicate Valid() {
      && SizeOk(size)
      && modules != reserved
      && modules.Length0 == modules.Length1 == size
      && reserved.Length0 == reserved.Length1 == size
    }

    /** The canvas as a value. */
    ghost function View(): Picture
      requires Valid()
      reads modules, reserved
    {
      Picture(size,
              set c | c in Grid(size) && modules[c.y, c.x],
              set c | c in Grid(size) && reserved[c.y, c.x])
    }

    constructor (size: nat)
      requires SizeOk(size)
      ensures Valid() && fresh(modules) && fresh(reserved)
      ensures this.size == size
      ensures View() == Blank(size)
    {
      this.size := size;
      modules := new bool[size, size]((_, _) => false);
      reserved := new bool[size, size]((_, _) => false);
    }

    method SetFunctionModule(x: int, y: int, dark: bool)
      requires Valid() && Cell(x, y) in Grid(size)
      modifies modules, reserved
      ensures View() == Stamp(old(View()), {Cell(x, y)}, if dark then {Cell(x, y)} else {})
    {
      modules[y, x] := dark;
      reserved[y, x] := true;
    }

    /** One more cell of a pattern. */
    method DrawCell(x: int, y: int, dark: bool, ghost before: Picture, ghost region: set<Cell>,
                    ghost pattern: set<Cell>)
      requires Valid() && Cell(x, y) in Grid(size)
      requires View() == Stamp(before, region, pattern)
      requires dark == (Cell(x, y) in pattern)
      modifies modules, reserved
      ensures View() == Stamp(before, region + {Cell(x, y)}, pattern)
    {
      SetFunctionModule(x, y, dark);
      StampCell(before, region, pattern, Cell(x, y));
    }

    method DrawTiming()
      requires Valid()
      modifies modules, reserved
      ensures View() == Stamp(old(View()), TimingRegion(size), TimingPattern(size))
    {
      hide Grid, Stamp;
      ghost var before, pattern := View(), TimingPattern(size);
      ghost var region := {};
      StampNothing(before, pattern);
      for index := 0 to size
        invariant region == set c | c in TimingRegion(size) && ((c.x == 6 && c.y < index) || (c.y == 6 && c.x < index))
        invariant View() == Stamp(before, region, pattern)
      {
        DrawCell(6, index, index % 2 == 0, before, region, pattern);
        region := region + {Cell(6, index)};
        DrawCell(index, 6, index % 2 == 0, before, region, pattern);
        region := region + {Cell(index, 6)};
      }
      assert region == TimingRegion(size);
    }

    method DrawFinderPattern(centerX: int, centerY: int)
      requires Valid()
      modifies modules, reserved
      ensures View() == WithFinder(old(View()), centerX, centerY)
    {
      hide Grid, Stamp, Ring;
      ghost var before := View();
      ghost var region, pattern := FinderRegion(size, centerX, centerY), FinderPattern(size, centerX, centerY);
      StampNothing(before, pattern);
      RingBounds(centerX, centerY);
      assert Swept(region, centerY - 4, centerX - 4) == {};
      for offsetY := -4 to 5
        invariant View() == Stamp(before, Swept(region, centerY + offsetY, centerX - 4), pattern)
      {
        for offsetX := -4 to 5
          invariant View() == Stamp(before, Swept(region, centerY + offsetY, centerX + offsetX), pattern)
        {
          var x, y := centerX + offsetX, centerY + offsetY;
          SweptNext(region, y, x);
          assert Ring(Cell(x, y), centerX, centerY) <= 4;
          assert Cell(x, y) in region <==> Cell(x, y) in Grid(size);
          if !(x < 0 || x >= size || y < 0 || y >= size) {
            var distance := Ring(Cell(x, y), centerX, centerY);
            DrawCell(x, y, distance != 2 && distance != 4, before, Swept(region, y, x), pattern);
          }
        }
        SweptRow(region, centerY + offsetY, centerX - 4, centerX + 5);
      }
      assert Swept(region, centerY + 5, centerX - 4) == region;
    }

    method DrawAlignmentPattern(centerX: int, centerY: int)
      requires Valid() && AlignmentRegion(centerX, centerY) <= Grid(size)
      modifies modules, reserved
      ensures View() == Stamp(old(View()), AlignmentRegion(centerX, centerY), AlignmentPattern(centerX, centerY))
    {
      hide Grid, Stamp, Ring, Box;
      ghost var before := View();
      ghost var region, pattern := AlignmentRegion(centerX, centerY), AlignmentPattern(centerX, centerY);
      StampNothing(before, pattern);
      assert Swept(region, centerY - 2, centerX - 2) == {};
      for offsetY := -2 to 3
        invariant View() == Stamp(before, Swept(region, centerY + offsetY, centerX - 2), pattern)
      {
        for offsetX := -2 to 3
          invariant View() == Stamp(before, Swept(region, centerY + offsetY, centerX + offsetX), pattern)
        {
          var x, y := centerX + offsetX, centerY + offsetY;
          SweptNext(region, y, x);
          var distance := Ring(Cell(x, y), centerX, centerY);
          assert Cell(x, y) in region;
          DrawCell(x, y, distance != 1, before, Swept(region, y, x), pattern);
        }
        SweptRow(region, centerY + offsetY, centerX - 2, centerX + 3);
      }
      assert Swept(region, centerY + 3, centerX - 2) == region;
    }

    method DrawAlignmentPatterns(version: Version)
      requires Valid() && size == SymbolSize(version)
      modifies modules, reserved
      ensures View() == WithAlignments(old(View()), version, AlignmentCount(version))
    {
      hide Grid, Stamp, Box, AlignmentPattern, AlignmentStep, AlignmentPosition;
      ghost var before := View();
      var positions := AlignmentPatternPositions(version);
      for row := 0 to |positions|
        invariant View() == WithAlignments(before, version, row)
      {
        ghost var rowStart := View();
        for column := 0 to |positions|
          invariant View() == WithAlignmentRow(rowStart, version, row, column)
        {
          var corner :=
            || (row == 0 && column == 0)
            || (row == 0 && column == |positions| - 1)
            || (row == |positions| - 1 && column == 0);
          if !corner {
            AlignmentPositionsInside(version, row);
            AlignmentPositionsInside(version, column);
            DrawAlignmentPattern(positions[column], positions[row]);
          }
        }
      }
    }

    method DrawFormatBits(mask: nat)
      requires Valid()
      modifies modules, reserved
      ensures View() == WithFormat(old(View()), mask)
    {
      hide Grid, Stamp, FormatPattern, FirstFormatRegion, SecondFormatRegion;
      var bits := FormatWord(mask);
      ghost var before := View();
      StampNothing(before, FormatPattern(size, mask));
      DrawFirstFormat(bits, mask, before);
      DrawSecondFormat(bits, mask, before, FirstFormatRegion());
    }

    /** Down the left of the top-left finder, then back along its bottom row. */
    method DrawFirstFormat(bits: nat, ghost mask: nat, ghost before: Picture)
      requires Valid() && View() == before == Stamp(before, {}, FormatPattern(size, mask)) && bits == FormatBits(mask)
      modifies modules, reserved
      ensures View() == Stamp(before, FirstFormatRegion(), FormatPattern(size, mask))
    {
      hide Grid, Stamp, Box, BitAt, FormatBits, FormatPattern;
      ghost var pattern := FormatPattern(size, mask);
      ghost var region := {};
      for index := 0 to 6
        invariant region == Box(8, 0, 1, index)
        invariant View() == Stamp(before, region, pattern)
      {
        FormatCells(size, mask, index);
        DrawCell(8, index, BitAt(bits, index), before, region, pattern);
        region := region + {Cell(8, index)};
      }
      DrawFormatCorner(bits, mask, before, region);
      ghost var corner := region + Box(8, 7, 1, 1) + Box(7, 8, 2, 1);
      region := corner;
      assert Box(6, 8, 0, 1) == {};
      for index := 9 to 15
        invariant region == corner + Box(15 - index, 8, index - 9, 1)
        invariant View() == Stamp(before, region, pattern)
      {
        FormatCells(size, mask, index);
        DrawCell(14 - index, 8, BitAt(bits, index), before, region, pattern);
        region := region + {Cell(14 - index, 8)};
      }
    }

    method DrawFormatCorner(bits: nat, ghost mask: nat, ghost before: Picture, ghost region: set<Cell>)
      requires Valid() && View() == Stamp(before, region, FormatPattern(size, mask)) && bits == FormatBits(mask)
      modifies modules, reserved
      ensures View() == Stamp(before, region + Box(8, 7, 1, 1) + Box(7, 8, 2, 1), FormatPattern(size, mask))
    {
      hide Grid, Stamp, Box, BitAt, FormatBits, FormatPattern;
      ghost var pattern := FormatPattern(size, mask);
      FormatCells(size, mask, 6);
      DrawCell(8, 7, BitAt(bits, 6), before, region, pattern);
      ghost var one := region + {Cell(8, 7)};
      FormatCells(size, mask, 7);
      DrawCell(8, 8, BitAt(bits, 7), before, one, pattern);
      ghost var two := one + {Cell(8, 8)};
      FormatCells(size, mask, 8);
      DrawCell(7, 8, BitAt(bits, 8), before, two, pattern);
      assert two + {Cell(7, 8)} == region + Box(8, 7, 1, 1) + Box(7, 8, 2, 1);
    }

    /** Split between the other two finders. */
    method DrawSecondFormat(bits: nat, ghost mask: nat, ghost before: Picture, ghost first: set<Cell>)
      requires Valid() && View() == Stamp(before, first, FormatPattern(size, mask)) && bits == FormatBits(mask)
      modifies modules, reserved
      ensures View() == Stamp(before, first + SecondFormatRegion(size), FormatPattern(size, mask))
    {
      hide Grid, Stamp, Box, BitAt, FormatBits, FormatPattern;
      ghost var pattern := FormatPattern(size, mask);
      ghost var region := first;
      for index := 0 to 8
        invariant region == first + Box(size - index, 8, index, 1)
        invariant View() == Stamp(before, region, pattern)
      {
        FormatCells(size, mask, index);
        DrawCell(size - 1 - index, 8, BitAt(bits, index), before, region, pattern);
        region := region + {Cell(size - 1 - index, 8)};
      }
      ghost var row := first + Box(size - 8, 8, 8, 1);
      for index := 8 to 15
        invariant region == row + Box(8, size - 7, 1, index - 8)
        invariant View() == Stamp(before, region, pattern)
      {
        FormatCells(size, mask, index);
        DrawCell(8, size - 15 + index, BitAt(bits, index), before, region, pattern);
        region := region + {Cell(8, size - 15 + index)};
      }
      FormatCells(size, mask, 0);
      DrawCell(8, size - 8, true, before, region, pattern); // always dark
      assert region + {Cell(8, size - 8)} == first + SecondFormatRegion(size);
    }

    method DrawVersionBits(version: Version)
      requires Valid() && size == SymbolSize(version)
      modifies modules, reserved
      ensures View() == WithVersion(old(View()), version)
    {
      hide Grid, Stamp, Box, BitAt, VersionBits;
      ghost var before, pattern := View(), VersionPattern(version);
      StampNothing(before, pattern);
      if version < 7 {
        assert VersionRegion(version) == {};
        return;
      }
      var bits := VersionWord(version);
      ghost var region := {};
      for index := 0 to 18
        invariant region == set c | c in VersionRegion(version) &&
                                    (if c.y < 6 then c.y * 3 + (c.x - (size - 11)) else c.x * 3 + (c.y - (size - 11))) < index
        invariant View() == Stamp(before, region, pattern)
      {
        var bit := BitAt(bits, index);
        var far, near := size - 11 + index % 3, index / 3;
        DrawCell(far, near, bit, before, region, pattern);
        region := region + {Cell(far, near)};
        DrawCell(near, far, bit, before, region, pattern);
        region := region + {Cell(near, far)};
      }
      assert region == VersionRegion(version);
    }

    method DrawFunctionPatterns(version: Version)
      requires Valid() && size == SymbolSize(version) && View() == Blank(size)
      modifies modules, reserved
      ensures View() == FunctionPatterns(version)
    {
      hide Stamp, TimingRegion, TimingPattern, WithFinder, WithAlignments, WithFormat, WithVersion;
      var last := size - 1;
      DrawTiming();
      DrawFinderPattern(3, 3);
      DrawFinderPattern(last - 3, 3);
      DrawFinderPattern(3, last - 3);
      DrawAlignmentPatterns(version);
      DrawFormatBits(0);
      DrawVersionBits(version);
    }

    method DrawCodewords(codewords: seq<Byte>)
      requires Valid()
      modifies modules
      ensures View() == WithData(old(View()), Unpacked(codewords))
    {
      hide Unpacked, Painted, DataCells, PathCell, Grid, HeadColumn, RightColumn, Painting, PairCount;
      ghost var before := View();
      ghost var pair := 0;
      PaintingStarts(before, codewords);
      HeadColumns(size, pair);
      var bit := 0;
      var right := size - 1;
      while right >= 1
        invariant 0 <= pair <= PairCount(size) && right == HeadColumn(size, pair)
        invariant Painting(View(), before, codewords, pair * (2 * size), bit)
      {
        HeadColumns(size, pair);
        if right == 6 {
          right := 5;
        }
        bit := DrawPair(right, codewords, bit, before, pair);
        right := right - 2;
        pair := pair + 1;
      }
      HeadColumns(size, pair);
      PaintingEnds(View(), before, codewords, bit);
    }

    method DrawPair(right: int, codewords: seq<Byte>, start: nat, ghost before: Picture, ghost pair: nat)
      returns (bit: nat)
      requires Valid() && pair < PairCount(size) && right == RightColumn(size, pair)
      requires Painting(View(), before, codewords, pair * (2 * size), start)
      modifies modules
      ensures Painting(View(), before, codewords, (pair + 1) * (2 * size), bit)
    {
      hide Painting, Grid, RightColumn, PairCount, PathCell;
      bit := start;
      for step := 0 to size
        invariant Painting(View(), before, codewords, pair * (2 * size) + 2 * step, bit)
      {
        for column := 0 to 2
          invariant Painting(View(), before, codewords, pair * (2 * size) + (2 * step + column), bit)
        {
          var x := right - column;
          var y := if Upward(right) then size - 1 - step else step;
          PathCellAt(size, pair, step, column);
          bit := DrawModule(x, y, codewords, bit, before, pair * (2 * size) + (2 * step + column));
        }
      }
    }

    method DrawModule(x: int, y: int, codewords: seq<Byte>, bit: nat, ghost before: Picture, ghost visited: nat)
      returns (next: nat)
      requires Valid() && Cell(x, y) in Grid(size) && PathCell(size, visited) == Cell(x, y)
      requires Painting(View(), before, codewords, visited, bit)
      modifies modules
      ensures Painting(View(), before, codewords, visited + 1, next)
    {
      hide Unpacked, Painted, PathCell, Grid, BitAt;
      PaintingStep(before, codewords, visited, bit, Cell(x, y));
      if reserved[y, x] || bit >= |codewords| * 8 {
        return bit;
      }
      modules[y, x] := BitAt(codewords[bit / 8], 7 - bit % 8);
      next := bit + 1;
    }

    /** Inverts the data modules the mask selects. */
    method ApplyMask(mask: nat)
      requires Valid()
      modifies modules
      ensures View() == WithMask(old(View()), mask)
    {
      hide Grid, MaskBit;
      ghost var before := View();
      ghost var flips := MaskCells(size, before.reserved, mask);
      assert Swept(flips, 0, 0) == {};
      for y := 0 to size
        invariant View() == Flip(before, Swept(flips, y, 0))
      {
        for x := 0 to size
          invariant View() == Flip(before, Swept(flips, y, x))
        {
          SweptNext(flips, y, x);
          FlipCell(before, flips, y, x);
          if !reserved[y, x] && MaskBit(mask, x, y) {
            modules[y, x] := !modules[y, x];
          }
        }
        SweptRow(flips, y, 0, size);
      }
      assert Swept(flips, size, 0) == flips;
    }
  }

  method AlignmentPatternPositions(version: Version) returns (positions: seq<int>)
    ensures |positions| == AlignmentCount(version)
    ensures forall k :: 0 <= k < |positions| ==> positions[k] == AlignmentPosition(version, k)
  {
    if version == 1 {
      return [];
    }
    hide AlignmentStep;
    var count := version / 7 + 2;
    var step := AlignmentStep(version);
    positions := [6];
    var position := version * 4 + 10;
    while |positions| < count
      invariant 1 <= |positions| <= count && positions[0] == 6
      invariant position == version * 4 + 10 - (|positions| - 1) * step
      invariant forall k :: 1 <= k < |positions| ==> positions[k] == version * 4 + 10 - (|positions| - 1 - k) * step
    {
      positions := positions[..1] + [position] + positions[1..];
      position := position - step;
    }
  }

  method FormatWord(mask: nat) returns (bits: nat)
    ensures bits == FormatBits(mask)
  {
    hide Xor, Or, ShiftLeft, ShiftRight;
    var data := mask;
    var remainder := data;
    for index := 0 to 10
      invariant remainder == BchRemainder(data, index, 9, 0x537)
    {
      remainder := Xor(remainder * 2, ShiftRight(remainder, 9) * 0x537);
    }
    bits := Xor(Or(ShiftLeft(data, 10), remainder), FORMAT_MASK);
  }

  method VersionWord(version: Version) returns (bits: nat)
    ensures bits == VersionBits(version)
  {
    hide Xor, Or, ShiftLeft, ShiftRight;
    var remainder: nat := version;
    for index := 0 to 12
      invariant remainder == BchRemainder(version, index, 11, 0x1f25)
    {
      remainder := Xor(remainder * 2, ShiftRight(remainder, 11) * 0x1f25);
    }
    bits := Or(ShiftLeft(version, 12), remainder);
  }

  /** The format pattern is dark on exactly the cells of its dark bits. */
  lemma FormatCells(size: nat, mask: nat, index: nat)
    requires size >= 21 && index < 15
    ensures FormatCell(index) in FormatPattern(size, mask) <==> BitAt(FormatBits(mask), index)
    ensures SecondFormatCell(size, index) in FormatPattern(size, mask) <==> BitAt(FormatBits(mask), index)
    ensures Cell(8, size - 8) in FormatPattern(size, mask)
  {
    hide BitAt, FormatBits;
    forall i | 0 <= i < 15
      ensures FormatCell(i) == FormatCell(index) ==> i == index
      ensures SecondFormatCell(size, i) == SecondFormatCell(size, index) ==> i == index
      ensures SecondFormatCell(size, i) != FormatCell(index)
      ensures SecondFormatCell(size, index) != FormatCell(i)
      ensures SecondFormatCell(size, i) != Cell(8, size - 8) && Cell(8, size - 8) != FormatCell(i)
    {}
  }

  // ----- The zigzag

  /** The loop variable at the head of the loop over column pairs. */
  function HeadColumn(size: nat, pair: nat): int {
    if size - 1 - 2 * pair >= 6 then size - 1 - 2 * pair else size - 2 - 2 * pair
  }

  /** The canvas once `visited` cells of the path have been met and `bit` bits written. */
  ghost predicate Painting(view: Picture, before: Picture, codewords: seq<Byte>, visited: nat, bit: nat) {
    before.size > 0 &&
    var cells := DataCells(before.size, before.reserved, visited);
    && bit == Min(|cells|, 8 * |codewords|)
    && view == before.(dark := Painted(before.dark, cells, Unpacked(codewords), bit))
  }

  lemma PaintingStarts(before: Picture, codewords: seq<Byte>)
    requires before.size > 0
    ensures Painting(before, before, codewords, 0, 0)
  {}

  lemma PaintingEnds(view: Picture, before: Picture, codewords: seq<Byte>, bit: nat)
    requires Painting(view, before, codewords, PairCount(before.size) * (2 * before.size), bit)
    ensures view == WithData(before, Unpacked(codewords))
  {
    hide DataCells, Painted, Unpacked, PairCount;
  }

  lemma HeadColumns(size: nat, pair: nat)
    requires SizeOk(size) && pair <= PairCount(size)
    ensures pair == 0 ==> HeadColumn(size, pair) == size - 1
    ensures HeadColumn(size, pair) < 1 <==> pair == PairCount(size)
    ensures pair < PairCount(size) ==>
              && RightColumn(size, pair) == (if HeadColumn(size, pair) == 6 then 5 else HeadColumn(size, pair))
              && HeadColumn(size, pair + 1) == RightColumn(size, pair) - 2
  {
    var half := size / 2;
    assert size == 2 * half + 1 && half % 2 == 0;
  }

  lemma PaintingStep(before: Picture, codewords: seq<Byte>, visited: nat, bit: nat, c: Cell)
    requires before.size > 0 && PathCell(before.size, visited) == c
    requires bit == Min(|DataCells(before.size, before.reserved, visited)|, 8 * |codewords|)
    ensures var cells, more := DataCells(before.size, before.reserved, visited), DataCells(before.size,
                                         before.reserved, visited + 1);
            var bits := Unpacked(codewords);
            if c in before.reserved || bit >= 8 * |codewords| then
              && bit == Min(|more|, 8 * |codewords|)
              && Painted(before.dark, more, bits, bit) == Painted(before.dark, cells, bits, bit)
            else
              && bit + 1 == Min(|more|, 8 * |codewords|)
              && Painted(before.dark, more, bits, bit + 1) ==
                 if BitAt(codewords[bit / 8], 7 - bit % 8) then Painted(before.dark, cells, bits, bit) + {c}
                 else Painted(before.dark, cells, bits, bit) - {c}
  {
    hide Unpacked, PathCell, BitAt;
    var cells := DataCells(before.size, before.reserved, visited);
    if c in before.reserved {
      assert DataCells(before.size, before.reserved, visited + 1) == cells;
    }
    PaintedPrefix(before.dark, cells, [c], Unpacked(codewords), bit);
    if bit < 8 * |codewords| {
      UnpackedBit(codewords, bit);
    }
  }

  lemma FlipCell(p: Picture, cells: set<Cell>, y: int, x: int)
    ensures var c := Cell(x, y);
            var flipped := Flip(p, Swept(cells, y, x)).dark;
            Flip(p, Swept(cells, y, x) + {c}).dark == if c in flipped then flipped - {c} else flipped + {c}
  {}

  lemma RingBounds(cx: int, cy: int)
    ensures forall c :: Ring(c, cx, cy) <= 4 <==> cx - 4 <= c.x <= cx + 4 && cy - 4 <= c.y <= cy + 4
  {}
}
