/** A reader of finished symbols, and what it makes of the ones this encoder draws. */
module Reader {
  import opened GaloisField
  import opened Geometry
  import opened Interleaving
  import opened Options
  import opened Pictures
  import opened ReedSolomon
  import opened Segment
  import opened StandardSymbols
  import opened Versions
  import opened Zigzag



  function ShapeOf(version: Version): (s: Shape)
    ensures s.Valid() && s.DataLength() == DataCodewordCount(version) && s.raw == RawCodewordCount(version)
  {
    BlockShape(version);
    var s := Shape(BlockCount(version), EccLength(version), RawCodewordCount(version));
    DataLengthIs(s);
    s
  }

  // ----- Reading

  /** The mask announced by the format bits beside the first finder. */
  function ReadMask(dark: set<Cell>): nat {
    var word := Number(seq(15, i requires 0 <= i < 15 => FormatCell(14 - i) in dark));
    ShiftRight(Xor(word, FORMAT_MASK), 10)
  }

  /** The first bits in zigzag order, once a mask is taken off. */
  function ReadBits(symbol: Symbol, version: Version, mask: nat, length: nat): (bits: seq<bool>)
    requires symbol.size > 0
    requires length <= |DataCells(symbol.size, ReservedCells(version), PathLength(symbol.size))|
    ensures |bits| == length
  {
    var reserved := ReservedCells(version);
    var plain := WithMask(Picture(symbol.size, symbol.dark, reserved), mask).dark;
    var cells := DataCells(symbol.size, reserved, PathLength(symbol.size));
    seq(length, k requires 0 <= k < length => cells[k] in plain)
  }

  function ReadCodewords(symbol: Symbol, version: Version): Option<seq<Byte>> {
    var length := 8 * RawCodewordCount(version);
    if symbol.size == 0 || length < 0 || |DataCells(symbol.size, ReservedCells(version), PathLength(symbol.size))| < length then None
    else Some(Packed(ReadBits(symbol, version, ReadMask(symbol.dark), length)))
  }

  function Read(symbol: Symbol): Option<seq<Byte>> {
    if symbol.size < 21 || symbol.size > 177 || symbol.size % 4 != 1 then None
    else
      var version: Version := (symbol.size - 17) / 4;
      match ReadCodewords(symbol, version)
      case None => None
      case Some(codewords) =>
        var shape := ShapeOf(version);
        if |codewords| != shape.raw then None
        else Payload(ReadBlocks(codewords, shape, shape.blocks), version)
  }

  // ----- Drawing

  /** The symbol carrying some codewords under a mask. */
  function Drawn(codewords: seq<Byte>, version: Version, mask: nat): Picture {
    FunctionPatternsReserve(version);
    WithFormat(WithMask(WithData(FunctionPatterns(version), Unpacked(codewords)), mask), mask)
  }

  function Encoded(bytes: seq<Byte>, version: Version): (codewords: seq<Byte>)
    requires Fits(version, |bytes|)
    ensures |codewords| == RawCodewordCount(version)
  {
    Interleaved(DataCodewords(bytes, version), ShapeOf(version))
  }

  // ----- The format bits announce the mask

  lemma {:induction false} BchBound(data: nat, steps: nat)
    requires data < 0x400
    ensures BchRemainder(data, steps, 9, 0x537) < 0x400
  {
    hide Xor, ShiftRight;
    if steps > 0 {
      BchBound(data, steps - 1);
      var before := BchRemainder(data, steps - 1, 9, 0x537);
      PowersOfTwo();
      ShiftRightTop(before, 9);
      assert ShiftRight(before, 9) * 0x537 == if before < 0x200 then 0 else 0x537;
      XorTopBit(2 * before, 0x537, 10);
      XorZero(2 * before);
    }
  }

  lemma FormatAnnouncesMask(mask: nat)
    requires mask < 8
    ensures FormatBits(mask) < 0x8000
    ensures ShiftRight(Xor(FormatBits(mask), FORMAT_MASK), 10) == mask
  {
    hide Xor, ShiftRight, ShiftLeft, Or, BchRemainder;
    var check := BchRemainder(mask, 10, 9, 0x537);
    var word := Or(ShiftLeft(mask, 10), check);
    BchBound(mask, 10);
    PowersOfTwo();
    OrDisjoint(mask, check, 10);
    ShiftLeftBound(mask, 3, 10);
    XorTopBit(word, FORMAT_MASK, 14);
    XorAssociative(word, FORMAT_MASK, FORMAT_MASK);
    XorZero(FORMAT_MASK);
    XorZero(word);
  }

  lemma FormatCellsInRegion(size: nat, mask: nat, index: nat)
    requires size >= 21 && index < 15
    ensures FormatCell(index) in FormatRegion(size)
    ensures FormatCell(index) in FormatPattern(size, mask) <==> BitAt(FormatBits(mask), index)
  {
    hide BitAt, FormatBits, FormatCell, SecondFormatCell, FormatRegion;
    FormatCellInRegion(size, index);
    DarkModuleApart(size, index);
    forall i | 0 <= i < 15
      ensures FormatCell(i) == FormatCell(index) ==> i == index
      ensures SecondFormatCell(size, i) != FormatCell(index)
    {
      FormatCellsApart(size, index, i);
    }
  }

  lemma FormatCellInRegion(size: nat, index: nat)
    requires size >= 21 && index < 15
    ensures FormatCell(index) in FormatRegion(size)
  {}

  lemma FormatCellsApart(size: nat, index: nat, i: nat)
    requires size >= 21 && index < 15 && i < 15
    ensures FormatCell(i) == FormatCell(index) ==> i == index
    ensures SecondFormatCell(size, i) != FormatCell(index)
  {}

  lemma DarkModuleApart(size: nat, index: nat)
    requires size >= 21 && index < 15
    ensures FormatCell(index) != Cell(8, size - 8)
  {}

  lemma MaskReadBack(p: Picture, mask: nat)
    requires p.size >= 21 && mask < 8
    ensures ReadMask(WithFormat(p, mask).dark) == mask
  {
    hide Xor, ShiftRight, Number, BitAt, FormatCell, FormatBits, FormatRegion, FormatPattern;
    var dark := WithFormat(p, mask).dark;
    var digits := seq(15, i requires 0 <= i < 15 => FormatCell(14 - i) in dark);
    forall i | 0 <= i < 15
      ensures digits[i] == BitsOf(FormatBits(mask), 15)[i]
    {
      FormatCellsInRegion(p.size, mask, 14 - i);
      DigitOfBits(FormatBits(mask), 15, i);
    }
    assert digits == BitsOf(FormatBits(mask), 15);
    FormatAnnouncesMask(mask);
    assert PowerOfTwo(15) == 0x8000 by { PowersOfTwo(); }
    NumberOfBits(FormatBits(mask), 15);
  }

  // ----- The codewords survive the drawing

  lemma DataCellsSuffice(version: Version)
    ensures SizeOk(SymbolSize(version))
    ensures |DataCells(SymbolSize(version), ReservedCells(version), PathLength(SymbolSize(version)))| >= 8 * RawCodewordCount(version)
  {
    hide RawModuleCount, ReservedCells, DataCells, PathLength, Grid;
    RoomForCodewords(version);
    TimingReserved(version);
    DataCellsCount(SymbolSize(version), ReservedCells(version));
  }

  lemma TimingReserved(version: Version)
    ensures forall c :: c in Grid(SymbolSize(version)) && c.x == 6 ==> c in ReservedCells(version)
  {
    hide Grid, FinderRegion, AlignmentRows, FormatRegion, VersionRegion;
  }

  /** The format bits are drawn last, over a masked picture of the symbol's size. */
  lemma DrawnMask(codewords: seq<Byte>, version: Version, mask: nat)
    requires mask < 8
    ensures ReadMask(Drawn(codewords, version, mask).dark) == mask
  {
    hide ReadMask, WithFormat, MaskCells, FunctionPatterns, Unpacked, Painted, DataCells, PathLength;
    FunctionPatternsReserve(version);
    MaskReadBack(WithMask(WithData(FunctionPatterns(version), Unpacked(codewords)), mask), mask);
  }

  lemma CodewordsReadBack(codewords: seq<Byte>, version: Version, mask: nat)
    requires |codewords| == RawCodewordCount(version) && mask < 8
    ensures ReadCodewords(Symbol(SymbolSize(version), Drawn(codewords, version, mask).dark), version) == Some(codewords)
  {
    hide FunctionPatterns, ReservedCells, FormatPattern, FormatRegion, Unpacked, Packed, DataCells, PathLength, RawModuleCount;
    hide MaskCells, RawCodewordCount, ReadMask, Painted;
    var size, reserved := SymbolSize(version), ReservedCells(version);
    FunctionPatternsReserve(version);
    var cells, bits := DataCells(size, reserved, PathLength(size)), Unpacked(codewords);
    var data := WithData(FunctionPatterns(version), bits);
    var masked := WithMask(data, mask);
    var drawn := WithFormat(masked, mask);
    MaskReadBack(masked, mask);
    FormatReserved(version);
    MaskThenFormat(masked, mask, mask);
    MaskTwice(data, mask);
    assert drawn.reserved == reserved;
    var plain := WithMask(Picture(size, drawn.dark, reserved), mask).dark;
    assert plain == WithFormat(data, mask).dark;
    DataCellsSuffice(version);
    DataCellsDistinct(size, reserved, PathLength(size));
    DataCellsSound(size, reserved, PathLength(size));
    forall k | 0 <= k < |bits|
      ensures cells[k] in plain <==> bits[k]
    {
      assert cells[k] in cells;
      PaintedReadBack(FunctionPatterns(version).dark, cells, bits, |bits|, k);
    }
    assert ReadBits(Symbol(size, drawn.dark), version, mask, |bits|) == bits;
    PackedUnpacked(codewords);
  }

  lemma FormatReserved(version: Version)
    ensures FormatRegion(SymbolSize(version)) <= ReservedCells(version)
  {
    hide FormatRegion, TimingRegion, FinderRegion, AlignmentRows, VersionRegion;
  }

  /** Whatever the mask, the symbol of a payload that fits reads back as exactly that payload. */
  lemma SymbolRoundTrip(bytes: seq<Byte>, version: Version, mask: nat)
    requires Fits(version, |bytes|) && mask < 8
    ensures Read(Symbol(SymbolSize(version), Drawn(Encoded(bytes, version), version, mask).dark)) == Some(bytes)
  {
    hide Drawn, ReadCodewords, DataCodewords, ReadBlocks, Payload, Interleaved, ShapeOf, RawCodewordCount, DataCodewordCount;
    var shape := ShapeOf(version);
    var data := DataCodewords(bytes, version);
    CodewordsReadBack(Encoded(bytes, version), version, mask);
    DataReadBack(data, shape, shape.blocks);
    assert data[..shape.DataLength()] == data;
    PayloadRoundTrip(bytes, version);
  }

  /** In the codewords of every payload, each block with its error correction has no syndrome. */
  lemma BlocksAreCodewords(bytes: seq<Byte>, version: Version, block: nat, index: nat)
    requires Fits(version, |bytes|) && block < ShapeOf(version).blocks && index < ShapeOf(version).ecc
    ensures var codewords, s := Encoded(bytes, version), ShapeOf(version);
            Evaluate(ReadBlock(codewords, s, block) + ReadEcc(codewords, s, block), Raise(2, index)) == 0
  {
    hide DataCodewords, Interleaved, ShapeOf, RawCodewordCount, DataCodewordCount, Remainder, Generator;
    var s, data := ShapeOf(version), DataCodewords(bytes, version);
    BlockReadBack(data, s, block);
    EccReadBack(data, s, block);
    SyndromesVanish(Block(data, s, block), s.ecc, index);
  }
}
