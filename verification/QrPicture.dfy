/** What a symbol looks like after each step of drawing it, and how a reader takes it apart. */
module Pictures {
  import opened GaloisField
  import opened Geometry
  import opened Versions
  import opened Zigzag

  /** A canvas as a value: the dark modules, and the modules neither data nor masks may touch. */
  datatype Picture = Picture(size: nat, dark: set<Cell>, reserved: set<Cell>)

  /** Draws `pattern` over a region, and reserves the region. */
  function Stamp(p: Picture, region: set<Cell>, pattern: set<Cell>): Picture {
    Picture(p.size, (p.dark - region) + (region * pattern), p.reserved + region)
  }

  lemma StampCell(p: Picture, region: set<Cell>, pattern: set<Cell>, c: Cell)
    ensures Stamp(Stamp(p, region, pattern), {c}, if c in pattern then {c} else {}) == Stamp(p, region + {c}, pattern)
  {}

  lemma StampNothing(p: Picture, pattern: set<Cell>)
    ensures Stamp(p, {}, pattern) == p
  {}

  /** The cells of a region met so far by a sweep that has reached (x, y). */
  function Swept(region: set<Cell>, y: int, x: int): set<Cell> {
    set c | c in region && (c.y < y || (c.y == y && c.x < x))
  }

  lemma SweptNext(region: set<Cell>, y: int, x: int)
    ensures Swept(region, y, x + 1) ==
            if Cell(x, y) in region then Swept(region, y, x) + {Cell(x, y)} else Swept(region, y, x)
    ensures Cell(x, y) !in Swept(region, y, x)
  {}

  /** A sweep over rows y0 to y1 starts with nothing and ends with everything. */
  lemma SweptEnds(region: set<Cell>, x0: int, y0: int, x1: int, y1: int)
    requires forall c :: c in region ==> x0 <= c.x < x1 && y0 <= c.y < y1
    ensures Swept(region, y0, x0) == {}
    ensures Swept(region, y1, x0) == region
  {}

  lemma SweptRow(region: set<Cell>, y: int, first: int, end: int)
    requires forall c :: c in region && c.y == y ==> c.x < end
    requires forall c :: c in region && c.y == y + 1 ==> first <= c.x
    ensures Swept(region, y, end) == Swept(region, y + 1, first)
  {}

  // ----- Function patterns

  function TimingPattern(size: nat): set<Cell> {
    set c | c in Grid(size) && ((c.x == 6 && c.y % 2 == 0) || (c.y == 6 && c.x % 2 == 0))
  }

  /** Dark border, light ring, dark core; the outermost ring is the separator. */
  function FinderPattern(size: nat, cx: int, cy: int): set<Cell> {
    set c | c in Grid(size) && Ring(c, cx, cy) != 2 && Ring(c, cx, cy) != 4
  }

  function AlignmentPattern(cx: int, cy: int): set<Cell> {
    set c | c in AlignmentRegion(cx, cy) && Ring(c, cx, cy) != 1
  }

  function WithAlignmentRow(p: Picture, version: Version, row: nat, columns: nat): Picture
    requires row < AlignmentCount(version) && columns <= AlignmentCount(version)
  {
    if columns == 0 then p
    else
      var before := WithAlignmentRow(p, version, row, columns - 1);
      if FinderCorner(AlignmentCount(version), row, columns - 1) then before
      else
        var cx, cy := AlignmentPosition(version, columns - 1), AlignmentPosition(version, row);
        Stamp(before, AlignmentRegion(cx, cy), AlignmentPattern(cx, cy))
  }

  function WithAlignments(p: Picture, version: Version, rows: nat): Picture
    requires rows <= AlignmentCount(version)
  {
    if rows == 0 then p
    else WithAlignmentRow(WithAlignments(p, version, rows - 1), version, rows - 1, AlignmentCount(version))
  }

  // ----- Format and version bits

  /** The shift register of a BCH code: after `steps` shifts, what is left of the division by `generator`. */
  function BchRemainder(data: nat, steps: nat, top: nat, generator: nat): nat {
    if steps == 0 then data
    else
      var before := BchRemainder(data, steps - 1, top, generator);
      Xor(2 * before, ShiftRight(before, top) * generator)
  }

  const FORMAT_MASK := 0x5412

  /** Level M is encoded as 00, so the five data bits are the mask's. */
  function FormatBits(mask: nat): nat {
    Xor(Or(ShiftLeft(mask, 10), BchRemainder(mask, 10, 9, 0x537)), FORMAT_MASK)
  }

  function FormatPattern(size: nat, mask: nat): set<Cell> {
    (set i | 0 <= i < 15 && BitAt(FormatBits(mask), i) :: FormatCell(i))
    + (set i | 0 <= i < 15 && BitAt(FormatBits(mask), i) :: SecondFormatCell(size, i))
    + {Cell(8, size - 8)}
  }

  function WithFormat(p: Picture, mask: nat): Picture {
    Stamp(p, FormatRegion(p.size), FormatPattern(p.size, mask))
  }

  function VersionBits(version: Version): nat {
    Or(ShiftLeft(version, 12), BchRemainder(version, 12, 11, 0x1f25))
  }

  function VersionPattern(version: Version): set<Cell> {
    var size := SymbolSize(version);
    (set c | c in Box(size - 11, 0, 3, 6) && BitAt(VersionBits(version), c.y * 3 + (c.x - (size - 11))))
    + (set c | c in Box(0, size - 11, 6, 3) && BitAt(VersionBits(version), c.x * 3 + (c.y - (size - 11))))
  }

  function WithVersion(p: Picture, version: Version): Picture {
    Stamp(p, VersionRegion(version), VersionPattern(version))
  }

  function Blank(size: nat): Picture { Picture(size, {}, {}) }

  function WithFinder(p: Picture, cx: int, cy: int): Picture {
    Stamp(p, FinderRegion(p.size, cx, cy), FinderPattern(p.size, cx, cy))
  }

  /** Timing, then finders, then alignment, then a placeholder format, then the version. */
  function FunctionPatterns(version: Version): Picture {
    var size := SymbolSize(version);
    var timed := Stamp(Blank(size), TimingRegion(size), TimingPattern(size));
    var found := WithFinder(WithFinder(WithFinder(timed, 3, 3), size - 4, 3), 3, size - 4);
    WithVersion(WithFormat(WithAlignments(found, version, AlignmentCount(version)), 0), version)
  }

  lemma {:induction false} AlignmentRowReserves(p: Picture, version: Version, row: nat, columns: nat)
    requires row < AlignmentCount(version) && columns <= AlignmentCount(version)
    ensures WithAlignmentRow(p, version, row, columns).size == p.size
    ensures WithAlignmentRow(p, version, row, columns).reserved == p.reserved + AlignmentRow(version, row, columns)
  {
    hide AlignmentRegion, AlignmentPattern, AlignmentPosition;
    if columns > 0 {
      AlignmentRowReserves(p, version, row, columns - 1);
    }
  }

  lemma {:induction false} AlignmentsReserve(p: Picture, version: Version, rows: nat)
    requires rows <= AlignmentCount(version)
    ensures WithAlignments(p, version, rows).size == p.size
    ensures WithAlignments(p, version, rows).reserved == p.reserved + AlignmentRows(version, rows)
  {
    hide WithAlignmentRow, AlignmentRow;
    if rows > 0 {
      AlignmentsReserve(p, version, rows - 1);
      AlignmentRowReserves(WithAlignments(p, version, rows - 1), version, rows - 1, AlignmentCount(version));
    }
  }

  /** Drawing the function patterns reserves exactly the modules the standard takes for them. */
  lemma FunctionPatternsReserve(version: Version)
    ensures FunctionPatterns(version).size == SymbolSize(version)
    ensures FunctionPatterns(version).reserved == ReservedCells(version)
  {
    hide Stamp, TimingRegion, FinderRegion, FormatRegion, VersionRegion, AlignmentRows, WithAlignments, AlignmentCount;
    hide TimingPattern, FinderPattern, FormatPattern, VersionPattern;
    var size := SymbolSize(version);
    var timed := Stamp(Blank(size), TimingRegion(size), TimingPattern(size));
    var one := WithFinder(timed, 3, 3);
    var two := WithFinder(one, size - 4, 3);
    var found := WithFinder(two, 3, size - 4);
    var aligned := WithAlignments(found, version, AlignmentCount(version));
    var formatted := WithFormat(aligned, 0);
    StampReserves(Blank(size), TimingRegion(size), TimingPattern(size));
    StampReserves(timed, FinderRegion(size, 3, 3), FinderPattern(size, 3, 3));
    StampReserves(one, FinderRegion(size, size - 4, 3), FinderPattern(size, size - 4, 3));
    StampReserves(two, FinderRegion(size, 3, size - 4), FinderPattern(size, 3, size - 4));
    AlignmentsReserve(found, version, AlignmentCount(version));
    StampReserves(aligned, FormatRegion(size), FormatPattern(size, 0));
    StampReserves(formatted, VersionRegion(version), VersionPattern(version));
  }

  lemma StampReserves(p: Picture, region: set<Cell>, pattern: set<Cell>)
    ensures Stamp(p, region, pattern).size == p.size
    ensures Stamp(p, region, pattern).reserved == p.reserved + region
  {}

  // ----- Data and masks

  /** The picture after the first `count` bits have been written to their cells. */
  function Painted(dark: set<Cell>, cells: seq<Cell>, bits: seq<bool>, count: nat): set<Cell>
    requires count <= |cells| && count <= |bits|
  {
    if count == 0 then dark
    else
      var before := Painted(dark, cells, bits, count - 1);
      if bits[count - 1] then before + {cells[count - 1]} else before - {cells[count - 1]}
  }

  function Min(a: nat, b: nat): nat { if a < b then a else b }

  function WithData(p: Picture, bits: seq<bool>): Picture
    requires p.size > 0
  {
    var cells := DataCells(p.size, p.reserved, PathLength(p.size));
    p.(dark := Painted(p.dark, cells, bits, Min(|cells|, |bits|)))
  }

  /** Bit k of the data, as a reader finds it. */
  lemma {:induction false} PaintedReadBack(dark: set<Cell>, cells: seq<Cell>, bits: seq<bool>, count: nat, k: nat)
    requires k < count <= |cells| && count <= |bits|
    requires forall i, j :: 0 <= i < j < |cells| ==> cells[i] != cells[j]
    ensures cells[k] in Painted(dark, cells, bits, count) <==> bits[k]
  {
    if k < count - 1 {
      PaintedReadBack(dark, cells, bits, count - 1, k);
    }
  }

  /** Painting looks no further than the cells it has reached. */
  lemma {:induction false} PaintedPrefix(dark: set<Cell>, cells: seq<Cell>, more: seq<Cell>, bits: seq<bool>,
                                         count: nat)
    requires count <= |cells| && count <= |bits|
    ensures Painted(dark, cells + more, bits, count) == Painted(dark, cells, bits, count)
  {
    if count > 0 {
      PaintedPrefix(dark, cells, more, bits, count - 1);
    }
  }

  lemma {:induction false} PaintedElsewhere(dark: set<Cell>, cells: seq<Cell>, bits: seq<bool>, count: nat, c: Cell)
    requires count <= |cells| && count <= |bits|
    requires c !in cells[..count]
    ensures c in Painted(dark, cells, bits, count) <==> c in dark
  {
    if count > 0 {
      assert cells[..count] == cells[..count - 1] + [cells[count - 1]];
      PaintedElsewhere(dark, cells, bits, count - 1, c);
    }
  }

  predicate MaskBit(mask: nat, x: nat, y: nat) {
    match mask
    case 0 => (x + y) % 2 == 0
    case 1 => y % 2 == 0
    case 2 => x % 3 == 0
    case 3 => (x + y) % 3 == 0
    case 4 => (x / 3 + y / 2) % 2 == 0
    case 5 => (x * y) % 2 + (x * y) % 3 == 0
    case 6 => ((x * y) % 2 + (x * y) % 3) % 2 == 0
    case _ => ((x + y) % 2 + (x * y) % 3) % 2 == 0
  }

  /** The data modules a mask inverts. */
  function MaskCells(size: nat, reserved: set<Cell>, mask: nat): set<Cell> {
    set c | c in Grid(size) && c !in reserved && MaskBit(mask, c.x, c.y)
  }

  function Flip(p: Picture, cells: set<Cell>): Picture {
    p.(dark := (p.dark - cells) + (cells - p.dark))
  }

  function WithMask(p: Picture, mask: nat): Picture {
    Flip(p, MaskCells(p.size, p.reserved, mask))
  }

  lemma MaskTwice(p: Picture, mask: nat)
    ensures WithMask(WithMask(p, mask), mask) == p
  {
    hide MaskCells;
  }

  /** The format area is reserved, so the mask and the format do not meet. */
  lemma MaskThenFormat(p: Picture, mask: nat, format: nat)
    requires FormatRegion(p.size) <= p.reserved
    ensures WithMask(WithFormat(p, format), mask) == WithFormat(WithMask(p, mask), format)
    ensures WithFormat(p, format).reserved == p.reserved
  {
    hide FormatRegion, FormatPattern;
    assert WithFormat(p, format).reserved == p.reserved;
    assert MaskCells(p.size, p.reserved, mask) !! FormatRegion(p.size) by { MaskAvoids(p.size, p.reserved, mask); }
    hide MaskCells;
  }

  lemma MaskAvoids(size: nat, reserved: set<Cell>, mask: nat)
    ensures MaskCells(size, reserved, mask) !! reserved
  {}

  lemma FormatTwice(p: Picture, first: nat, second: nat)
    ensures WithFormat(WithFormat(p, first), second) == WithFormat(p, second)
  {
    hide FormatRegion, FormatPattern;
  }
}
