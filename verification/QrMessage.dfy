/** A reader of the standard gets the payload out of the codewords of a drawn symbol. */
module MessageReads {
  import opened BchCodes
  import opened Conformance
  import opened GaloisField
  import opened Interleaving
  import opened PatternsShow
  import opened Reader
  import opened ReedSolomon
  import opened Segment
  import opened StandardSymbols
  import opened Versions

  // ----- Blocks

  lemma ShapeIs(version: Version)
    ensures var s, b := ShapeOf(version), BLOCKS[version];
            && s.blocks == Count(b) && s.ecc == b.ecc && s.Width() == b.width && s.ShortBlocks() == b.short
            && s.DataLength() == DataLength(b)
  {
    hide RawModuleCount, RawCodewordCount, BlockCount, EccLength, Count, DataCodewordCount;
    TableShape(version);
    SameShape(ShapeOf(version), BLOCKS[version]);
  }

  lemma SameShape(s: Shape, b: Blocks)
    requires s.Valid() && s.blocks == Count(b) && s.ecc == b.ecc
    requires s.raw / s.blocks == b.width + b.ecc && s.raw % s.blocks == b.long
    ensures s.Width() == b.width && s.ShortBlocks() == b.short && s.DataLength() == DataLength(b)
  {
    DataLengthIs(s);
    assert b.width * (b.short + b.long) == b.width * b.short + b.width * b.long;
  }

  lemma TableShape(version: Version)
    ensures var b := BLOCKS[version];
            && Count(b) > 0 && BlockCount(version) == Count(b) && EccLength(version) == b.ecc
            && RawCodewordCount(version) / Count(b) == b.width + b.ecc && RawCodewordCount(version) % Count(b) == b.long
  {
    RawTable(version);
    hide RawModuleCount, BlockCount, EccLength;
    if version <= 8 {
      ShapeTo8(version);
    } else if version <= 14 {
      ShapeTo14(version);
    } else if version <= 20 {
      ShapeTo20(version);
    } else if version <= 27 {
      ShapeTo27(version);
    } else {
      ShapeTo40(version);
    }
  }

  lemma ShapeTo8(version: Version)
    requires version <= 8
    ensures var raw, b := RAW_MODULES[version] / 8, BLOCKS[version];
            && Count(b) > 0 && BlockCount(version) == Count(b) && EccLength(version) == b.ecc
            && raw / Count(b) == b.width + b.ecc && raw % Count(b) == b.long
  {}

  lemma ShapeTo14(version: Version)
    requires 8 < version <= 14
    ensures var raw, b := RAW_MODULES[version] / 8, BLOCKS[version];
            && Count(b) > 0 && BlockCount(version) == Count(b) && EccLength(version) == b.ecc
            && raw / Count(b) == b.width + b.ecc && raw % Count(b) == b.long
  {}

  lemma ShapeTo20(version: Version)
    requires 14 < version <= 20
    ensures var raw, b := RAW_MODULES[version] / 8, BLOCKS[version];
            && Count(b) > 0 && BlockCount(version) == Count(b) && EccLength(version) == b.ecc
            && raw / Count(b) == b.width + b.ecc && raw % Count(b) == b.long
  {}

  lemma ShapeTo27(version: Version)
    requires 20 < version <= 27
    ensures var raw, b := RAW_MODULES[version] / 8, BLOCKS[version];
            && Count(b) > 0 && BlockCount(version) == Count(b) && EccLength(version) == b.ecc
            && raw / Count(b) == b.width + b.ecc && raw % Count(b) == b.long
  {}

  lemma ShapeTo40(version: Version)
    requires 27 < version
    ensures var raw, b := RAW_MODULES[version] / 8, BLOCKS[version];
            && Count(b) > 0 && BlockCount(version) == Count(b) && EccLength(version) == b.ecc
            && raw / Count(b) == b.width + b.ecc && raw % Count(b) == b.long
  {}

  lemma BlockHeld(data: seq<Byte>, s: Shape, b: Blocks, k: nat)
    requires s.Valid() && |data| == s.DataLength() && k < s.blocks
    requires s.blocks == Count(b) && s.ecc == b.ecc && s.Width() == b.width && s.ShortBlocks() == b.short && s.DataLength() == DataLength(b)
    ensures Holds(Interleaved(data, s), b, k, Block(data, s, k), Ecc(data, s, k))
  {
    hide Block, Ecc, Interleaved, Shape.DataLength, DataLength;
    BlockReadBack(data, s, k);
    EccReadBack(data, s, k);
    DataLengthIs(s);
    forall i | 0 <= i < s.Length(k)
      ensures DataPlace(b, k, i) == s.Slot(k, i) < s.raw
    {
      SlotInRange(s, k, i);
    }
    forall i | 0 <= i < s.ecc
      ensures EccPlace(b, k, i) == s.EccSlot(k, i) < s.raw
    {
      SlotInRange(s, k, i);
    }
    assert forall i :: 0 <= i < s.Length(k) ==> ReadBlock(Interleaved(data, s), s, k)[i] == Interleaved(data, s)[s.Slot(k, i)];
    assert forall i :: 0 <= i < s.ecc ==> ReadEcc(Interleaved(data, s), s, k)[i] == Interleaved(data, s)[s.EccSlot(k, i)];
  }

  // ----- Syndromes

  lemma TimesTwo(a: Byte)
    ensures Times(a, 2) == if a < 0x80 then 2 * a else Add(2 * a - 0x100, 0x1d)
  {
    hide Xor, Add, Double, Times;
    TimesStep(a, 2);
    TimesOne(a);
    AddLaws(Double(a), 0);
    if a >= 0x80 {
      ReducedDouble(a);
    } else {
      PlainDouble(a);
    }
  }

  lemma PlainDouble(a: Byte)
    requires a < 0x80
    ensures Double(a) == 2 * a
  {}

  lemma ReducedDouble(a: Byte)
    requires a >= 0x80
    ensures Double(a) == Add(2 * a - 0x100, 0x1d)
  {
    hide Xor;
    PowersOfTwo();
    ShiftLeftIs(1, 8);
    XorDisjoint(1, 2 * a - 0x100, 8);
    XorDisjoint(1, 0x1d, 8);
    XorExchange(0x100, 2 * a - 0x100, 0x100, 0x1d);
    XorZero(0x100);
    XorZero(Xor(2 * a - 0x100, 0x1d));
  }

  lemma {:induction false} AlphaIsPower(i: nat)
    ensures Alpha(i) == Raise(2, i)
  {
    hide Times, Add;
    if i > 0 {
      AlphaIsPower(i - 1);
      TimesTwo(Raise(2, i - 1));
    }
  }

  lemma {:induction false} SyndromeIsValue(block: seq<Byte>, i: nat)
    ensures Syndrome(block, i) == Evaluate(block, Raise(2, i))
  {
    hide Times, Add, Raise, Alpha;
    if block != [] {
      SyndromeIsValue(block[..|block| - 1], i);
      AlphaIsPower(i);
    }
  }

  lemma BlockIsClean(data: seq<Byte>, s: Shape, k: nat)
    requires s.Valid() && |data| == s.DataLength() && k < s.blocks
    ensures Clean(Block(data, s, k) + Ecc(data, s, k), s.ecc)
  {
    hide Block, Evaluate, Syndrome, Remainder, Generator, Raise, Shape.DataLength;
    var block := Block(data, s, k);
    forall i: nat | i < s.ecc
      ensures Syndrome(block + Ecc(data, s, k), i) == 0
    {
      SyndromesVanish(block, s.ecc, i);
      SyndromeIsValue(block + Ecc(data, s, k), i);
    }
  }

  // ----- The parts of a stream

  function PartsOf(data: seq<Byte>, s: Shape, count: nat): (parts: seq<Part>)
    requires s.Valid() && |data| == s.DataLength() && count <= s.blocks
    ensures |parts| == count
  {
    seq(count, k requires 0 <= k < count => Part(Block(data, s, k), Ecc(data, s, k)))
  }

  lemma {:induction false} PartsJoin(data: seq<Byte>, s: Shape, count: nat)
    requires s.Valid() && |data| == s.DataLength() && count <= s.blocks
    ensures s.Start(count) <= |data| && Joined(PartsOf(data, s, count)) == data[..s.Start(count)]
  {
    hide Ecc, Shape.DataLength;
    if count > 0 {
      PartsJoin(data, s, count - 1);
      BlockInData(s, count - 1);
      assert PartsOf(data, s, count)[..count - 1] == PartsOf(data, s, count - 1);
    }
  }

  lemma StreamAssembles(data: seq<Byte>, version: Version)
    requires |data| == DataCodewordCount(version)
    ensures var s := ShapeOf(version);
            && Assembles(Interleaved(data, s), BLOCKS[version], PartsOf(data, s, s.blocks))
            && Joined(PartsOf(data, s, s.blocks)) == data
  {
    hide Holds, Clean, Interleaved, Block, Ecc, DataCodewordCount, Shape.DataLength, Joined, Count, DataLength;
    var s, b := ShapeOf(version), BLOCKS[version];
    ShapeIs(version);
    forall k | 0 <= k < s.blocks
      ensures Holds(Interleaved(data, s), b, k, Block(data, s, k), Ecc(data, s, k))
      ensures Clean(Block(data, s, k) + Ecc(data, s, k), b.ecc)
    {
      BlockHeld(data, s, b, k);
      BlockIsClean(data, s, k);
    }
    PartsJoin(data, s, s.blocks);
    assert s.Start(s.blocks) == |data| by { DataIsAll(s, data); }
  }

  lemma DataIsAll(s: Shape, data: seq<Byte>)
    requires s.Valid() && |data| == s.DataLength()
    ensures s.Start(s.blocks) == |data|
  {}

  // ----- The message

  lemma {:induction false} NumberConcat(a: seq<bool>, b: seq<bool>)
    ensures Number(a + b) == Number(a) * PowerOfTwo(|b|) + Number(b)
  {
    hide Number, PowerOfTwo;
    if b == [] {
      assert a + b == a;
      NoDigits();
    } else {
      var rest := b[..|b| - 1];
      assert (a + b)[..|a + b| - 1] == a + rest;
      NumberConcat(a, rest);
      LastDigit(a + b);
      LastDigit(b);
      DoubleProduct(Number(a), PowerOfTwo(|rest|));
    }
  }

  lemma NoDigits()
    ensures Number([]) == 0 && PowerOfTwo(0) == 1
  {}

  lemma LastDigit(bits: seq<bool>)
    requires bits != []
    ensures var n := |bits| - 1;
            Number(bits) == 2 * Number(bits[..n]) + Digit(bits[n]) && PowerOfTwo(|bits|) == 2 * PowerOfTwo(n)
  {}

  lemma DoubleProduct(a: nat, power: nat)
    ensures a * (2 * power) == 2 * (a * power)
  {}

  lemma Halves(bits: seq<bool>)
    requires |bits| == 8
    ensures Number(bits) == 16 * Number(bits[..4]) + Number(bits[4..]) && Number(bits[4..]) < 16 && Number(bits[..4]) < 16
  {
    hide Number;
    assert bits == bits[..4] + bits[4..];
    NumberConcat(bits[..4], bits[4..]);
    NumberBound(bits[4..]);
    NumberBound(bits[..4]);
    PowersOfTwo();
  }

  function Nibble(bits: seq<bool>, k: nat): nat
    requires 4 * k + 4 <= |bits|
  {
    Number(bits[4 * k..4 * k + 4])
  }

  /** Two nibbles of the stream make a codeword. */
  lemma CodewordNibbles(bits: seq<bool>, j: nat)
    requires 8 * j + 8 <= |bits|
    ensures Upper(CodewordAt(bits, j)) == Nibble(bits, 2 * j) && Lower(CodewordAt(bits, j)) == Nibble(bits, 2 * j + 1)
  {
    hide Number;
    var digits := bits[8 * j..8 * j + 8];
    Halves(digits);
    assert digits[..4] == bits[8 * j..8 * j + 4] && digits[4..] == bits[8 * j + 4..8 * j + 8];
  }

  /** Two nibbles make a byte where its bits stand. */
  lemma ByteNibbles(bits: seq<bool>, k: nat, value: Byte)
    requires 4 * k + 8 <= |bits| && bits[4 * k..4 * k + 8] == BitsOf(value, 8)
    ensures value == 16 * Nibble(bits, k) + Nibble(bits, k + 1)
  {
    hide Number, BitsOf;
    var digits := bits[4 * k..4 * k + 8];
    Halves(digits);
    PowersOfTwo();
    NumberOfBits(value, 8);
    assert digits[..4] == bits[4 * k..4 * k + 4] && digits[4..] == bits[4 * k + 4..4 * k + 8];
  }

  lemma LongNibbles(bits: seq<bool>, value: nat)
    requires |bits| >= 20 && value < 0x10000 && bits[4..20] == BitsOf(value, 16)
    ensures value == 0x1000 * Nibble(bits, 1) + 0x100 * Nibble(bits, 2) + 16 * Nibble(bits, 3) + Nibble(bits, 4)
  {
    hide Number, BitsOf;
    var digits := bits[4..20];
    PowersOfTwo();
    NumberOfBits(value, 16);
    NumberConcat(digits[..8], digits[8..]);
    assert digits == digits[..8] + digits[8..];
    Halves(digits[..8]);
    Halves(digits[8..]);
    assert digits[..8][..4] == bits[4..8] && digits[..8][4..] == bits[8..12];
    assert digits[8..][..4] == bits[12..16] && digits[8..][4..] == bits[16..20];
  }

  lemma ZeroNibble(bits: seq<bool>)
    requires bits == Repeat(false, 4)
    ensures Number(bits) == 0
  {
    NumberOfFour(bits);
  }

  /** The header and the bytes, nibble by nibble. */
  lemma StreamNibbles(bytes: seq<Byte>, version: Version)
    requires |bytes| < PowerOfTwo(CharacterCountBits(version))
    ensures var bits, n, h := Stream(bytes, version), |bytes|, HeaderLength(version);
            && |bits| == 8 * (h + n + 1)
            && Nibble(bits, 0) == 4
            && n == (if version <= 9 then 16 * Nibble(bits, 1) + Nibble(bits, 2)
                     else 0x1000 * Nibble(bits, 1) + 0x100 * Nibble(bits, 2) + 16 * Nibble(bits, 3) + Nibble(bits, 4))
            && (forall i :: 0 <= i < n ==> bytes[i] == 16 * Nibble(bits, 2 * (h + i) + 1) + Nibble(bits, 2 * (h + i) + 2))
            && Nibble(bits, 2 * (h + n) + 1) == 0
  {
    hide Number, BitsOf, Unpacked, Repeat;
    var bits, n, h, cc := Stream(bytes, version), |bytes|, HeaderLength(version), CharacterCountBits(version);
    PowersOfTwo();
    assert bits[0..4] == BitsOf(MODE_BYTE, 4);
    NumberOfBits(MODE_BYTE, 4);
    assert bits[4..4 + cc] == BitsOf(n, cc);
    if version <= 9 {
      ByteNibbles(bits, 1, n);
    } else {
      LongNibbles(bits, n);
    }
    assert bits[4 + cc..4 + cc + 8 * n] == Unpacked(bytes);
    forall i | 0 <= i < n
      ensures bytes[i] == 16 * Nibble(bits, 2 * (h + i) + 1) + Nibble(bits, 2 * (h + i) + 2)
    {
      UnpackedSlice(bytes, i);
      assert bits[4 * (2 * (h + i) + 1)..4 * (2 * (h + i) + 1) + 8] == Unpacked(bytes)[8 * i..8 * i + 8];
      ByteNibbles(bits, 2 * (h + i) + 1, bytes[i]);
    }
    assert bits[4 + cc + 8 * n..4 + cc + 8 * n + 4] == Repeat(false, 4);
    ZeroNibble(Repeat(false, 4));
  }

  lemma DataNibbles(bytes: seq<Byte>, version: Version)
    requires Fits(version, |bytes|)
    ensures var data, bits, last := DataCodewords(bytes, version), Stream(bytes, version), HeaderLength(version) + |bytes|;
            && |bits| == 8 * (last + 1) && last < |data| && data[last + 1..] == Filler(|data| - (last + 1))
            && forall j :: 0 <= j <= last ==> Upper(data[j]) == Nibble(bits, 2 * j) && Lower(data[j]) == Nibble(bits, 2 * j + 1)
  {
    hide Stream, DataCodewordCount, Nibble, CodewordAt, Upper, Lower, Fits;
    var bits, last := Stream(bytes, version), HeaderLength(version) + |bytes|;
    var data := DataCodewords(bytes, version);
    FitsExactly(version, |bytes|);
    DataFills(version);
    hide DataLength;
    assert |Packed(bits)| == last + 1;
    forall j | 0 <= j <= last
      ensures Upper(data[j]) == Nibble(bits, 2 * j) && Lower(data[j]) == Nibble(bits, 2 * j + 1)
    {
      assert data[j] == Packed(bits)[j] == CodewordAt(bits, j);
      CodewordNibbles(bits, j);
    }
  }

  /** The data codewords of a payload are the standard's message. */
  lemma DataIsMessage(bytes: seq<Byte>, version: Version)
    requires Fits(version, |bytes|)
    ensures Message(DataCodewords(bytes, version), version, bytes)
  {
    hide Stream, DataCodewords, DataCodewordCount, Nibble, CodewordAt, Upper, Lower, Fits, DataLength, CharacterCountBits, Filler;
    LengthFitsHeader(bytes, version);
    StreamNibbles(bytes, version);
    DataNibbles(bytes, version);
    DataFills(version);
    FillerAlternates(DataCodewords(bytes, version), HeaderLength(version) + |bytes|);
  }

  lemma FillerAlternates(data: seq<Byte>, last: nat)
    requires last < |data| && data[last + 1..] == Filler(|data| - (last + 1))
    ensures forall i :: last < i < |data| ==> data[i] == if (i - last) % 2 == 1 then 236 else 17
  {
    forall i | last < i < |data|
      ensures data[i] == if (i - last) % 2 == 1 then 236 else 17
    {
      assert data[i] == data[last + 1..][i - last - 1];
    }
  }

  lemma DataFills(version: Version)
    ensures DataCodewordCount(version) == DataLength(BLOCKS[version]) > 2
  {
    hide RawModuleCount, RawCodewordCount, EccLength, BlockCount;
    ShapeIs(version);
    SomeData(version);
  }

  lemma SomeData(version: Version)
    ensures DataLength(BLOCKS[version]) > 2
  {}

  /** A payload fits exactly if the standard's capacity of the version is not exceeded. */
  lemma FitsExactly(version: Version, n: nat)
    ensures Fits(version, n) <==> n <= Capacity(version)
  {
    hide DataCodewordCount, DataLength;
    DataFills(version);
  }

  // ----- The symbol

  /** Whatever the mask, a reader gets exactly the payload out of its symbol. */
  lemma SymbolCarries(bytes: seq<Byte>, version: Version, mask: nat)
    requires Fits(version, |bytes|) && mask < 8
    ensures Carries(Symbol(Side(version), Drawn(Encoded(bytes, version), version, mask).dark), version, bytes)
  {
    hide Drawn, Interleaved, DataCodewords, DataCodewordCount, Shows, Transmits, Assembles, Message, Joined, PartsOf, ShapeOf, Fits;
    hide RawCodewordCount;
    var stream, s := Encoded(bytes, version), ShapeOf(version);
    var data := DataCodewords(bytes, version);
    var symbol := Symbol(Side(version), Drawn(stream, version, mask).dark);
    DrawnShows(stream, version, mask);
    StreamIsTransmitted(stream, version, mask);
    StreamAssembles(data, version);
    DataIsMessage(bytes, version);
    var parts := PartsOf(data, s, s.blocks);
    assert Shows(symbol, version, mask) && Transmits(symbol, version, mask, stream)
           && Assembles(stream, BLOCKS[version], parts) && Message(Joined(parts), version, bytes);
  }

  // ----- And nothing else

  lemma {:induction false} SameBits(a: nat, b: nat, count: nat)
    requires a < PowerOfTwo(count) && b < PowerOfTwo(count)
    requires forall i: nat :: i < count ==> (HasBit(a, i) <==> HasBit(b, i))
    ensures a == b
  {
    if count > 0 {
      forall i: nat | i < count - 1
        ensures HasBit(a / 2, i) <==> HasBit(b / 2, i)
      {
        HalfQuotient(a, PowerOfTwo(i));
        HalfQuotient(b, PowerOfTwo(i));
        assert HasBit(a, i + 1) <==> HasBit(b, i + 1);
      }
      SameBits(a / 2, b / 2, count - 1);
      assert HasBit(a, 0) <==> HasBit(b, 0);
    }
  }

  lemma OneMask(symbol: Symbol, version: Version, m: nat, n: nat)
    requires Announces(symbol, version, m) && Announces(symbol, version, n)
    ensures m == n
  {
    hide HasBit, Xor, BchWord;
    var a: nat :| FormatSpelled(symbol, version, a) && Xor(a, 0x5412) / 0x400 == m;
    var b: nat :| FormatSpelled(symbol, version, b) && Xor(b, 0x5412) / 0x400 == n;
    assert PowerOfTwo(15) == 0x8000 by { PowersOfTwo(); }
    SameBits(a, b, 15);
  }

  lemma OneStream(symbol: Symbol, version: Version, mask: nat, a: seq<Byte>, b: seq<Byte>)
    requires Transmits(symbol, version, mask, a) && Transmits(symbol, version, mask, b)
    ensures a == b
  {
    hide CodewordOf, Path;
  }

  lemma OneAssembly(stream: seq<Byte>, b: Blocks, p: seq<Part>, q: seq<Part>)
    requires Assembles(stream, b, p) && Assembles(stream, b, q)
    ensures p == q
  {
    hide Clean, DataPlace, EccPlace;
    forall k | 0 <= k < |p|
      ensures p[k] == q[k]
    {
      assert Holds(stream, b, k, p[k].data, p[k].ecc) && Holds(stream, b, k, q[k].data, q[k].ecc);
    }
  }

  lemma OneMessage(data: seq<Byte>, version: Version, a: seq<Byte>, b: seq<Byte>)
    requires Message(data, version, a) && Message(data, version, b)
    ensures a == b
  {
    hide Upper, Lower;
  }

  /** A symbol carries one payload at most. */
  lemma CarriesOnce(symbol: Symbol, v: Version, a: seq<Byte>, w: Version, b: seq<Byte>)
    requires Carries(symbol, v, a) && Carries(symbol, w, b)
    ensures v == w && a == b
  {
    hide PatternsShown, Announces, VersionSpelled, Transmits, Assembles, Message, Joined;
    var m: nat, stream: seq<Byte>, parts: seq<Part> :|
      Shows(symbol, v, m) && Transmits(symbol, v, m, stream) && Assembles(stream, BLOCKS[v], parts) && Message(Joined(parts), v, a);
    var n: nat, stream': seq<Byte>, parts': seq<Part> :|
      Shows(symbol, w, n) && Transmits(symbol, w, n, stream') && Assembles(stream', BLOCKS[w], parts') && Message(Joined(parts'), w, b);
    OneMask(symbol, v, m, n);
    OneStream(symbol, v, m, stream, stream');
    OneAssembly(stream, BLOCKS[v], parts, parts');
    OneMessage(Joined(parts), v, a, b);
  }
}
