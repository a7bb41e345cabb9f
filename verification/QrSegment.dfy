/**
 The byte segment of a symbol: the bit stream of section 7.4 of ISO/IEC 18004, its packing into
 codewords, and the reader that takes the payload back out.
 */
module Segment {
  import opened GaloisField
  import opened Options
  import opened Versions

  const MODE_BYTE := 4

  /** The number whose binary digits, highest first, are `bits`. */
  function Number(bits: seq<bool>): nat {
    if bits == [] then 0 else 2 * Number(bits[..|bits| - 1]) + if bits[|bits| - 1] then 1 else 0
  }

  /** The `length` lowest binary digits of `value`, highest first. */
  function BitsOf(value: nat, length: nat): (bits: seq<bool>)
    ensures |bits| == length
  {
    if length == 0 then [] else BitsOf(value / 2, length - 1) + [Odd(value)]
  }

  /** The bits of a list of codewords, in order. */
  function Unpacked(codewords: seq<Byte>): (bits: seq<bool>)
    ensures |bits| == 8 * |codewords|
  {
    if codewords == [] then [] else Unpacked(codewords[..|codewords| - 1]) + BitsOf(codewords[|codewords| - 1], 8)
  }

  function Repeat(bit: bool, count: nat): (bits: seq<bool>)
    ensures |bits| == count
  {
    seq(count, _ => bit)
  }

  /** The bit stream: mode, length, bytes, terminator. */
  function Stream(bytes: seq<Byte>, version: Version): (bits: seq<bool>)
    ensures |bits| == 4 + CharacterCountBits(version) + 8 * |bytes| + 4
  {
    BitsOf(MODE_BYTE, 4) + BitsOf(|bytes|, CharacterCountBits(version)) + Unpacked(bytes) + Repeat(false, 4)
  }

  /** The codeword written in bits 8j to 8j + 7. */
  function CodewordAt(bits: seq<bool>, j: nat): Byte
    requires 8 * j + 8 <= |bits|
  {
    NumberBound(bits[8 * j..8 * j + 8]);
    PowersOfTwo();
    Number(bits[8 * j..8 * j + 8])
  }

  function Packed(bits: seq<bool>): (codewords: seq<Byte>)
    ensures |codewords| == |bits| / 8
  {
    seq(|bits| / 8, j requires 0 <= j < |bits| / 8 => CodewordAt(bits, j))
  }

  function Filler(count: nat): (pads: seq<Byte>)
    ensures |pads| == count
  {
    seq(count, k => if k % 2 == 0 then 0xec else 0x11)
  }

  /** The data codewords of a payload that fits. */
  function DataCodewords(bytes: seq<Byte>, version: Version): (codewords: seq<Byte>)
    requires Fits(version, |bytes|)
    ensures |codewords| == DataCodewordCount(version)
  {
    var packed := Packed(Stream(bytes, version));
    packed + Filler(DataCodewordCount(version) - |packed|)
  }

  /** What a reader of the data codewords takes the payload to be. */
  function Payload(codewords: seq<Byte>, version: Version): Option<seq<Byte>> {
    var bits := Unpacked(codewords);
    var header := 4 + CharacterCountBits(version);
    if |bits| < header || Number(bits[..4]) != MODE_BYTE then None
    else
      var count := Number(bits[4..header]);
      if |bits| < header + 8 * count then None
      else Some(Packed(bits[header..header + 8 * count]))
  }

  // ----- Numbers and their digits

  lemma {:induction false} NumberBound(bits: seq<bool>)
    ensures Number(bits) < PowerOfTwo(|bits|)
  {
    if bits != [] {
      NumberBound(bits[..|bits| - 1]);
    }
  }

  lemma {:induction false} NumberOfBits(value: nat, length: nat)
    requires value < PowerOfTwo(length)
    ensures Number(BitsOf(value, length)) == value
  {
    if length > 0 {
      NumberOfBits(value / 2, length - 1);
      assert BitsOf(value, length)[..length - 1] == BitsOf(value / 2, length - 1);
    }
  }

  lemma {:induction false} BitsOfNumber(bits: seq<bool>)
    ensures BitsOf(Number(bits), |bits|) == bits
  {
    if bits != [] {
      var n := |bits| - 1;
      BitsOfNumber(bits[..n]);
      assert Number(bits) / 2 == Number(bits[..n]);
      assert bits == bits[..n] + [bits[n]];
    }
  }

  lemma {:induction false} DigitOfBits(value: nat, length: nat, index: nat)
    requires index < length
    ensures BitsOf(value, length)[index] == BitAt(value, length - 1 - index)
  {
    if index < length - 1 {
      DigitOfBits(value / 2, length - 1, index);
    }
  }

  lemma {:induction false} UnpackedSlice(codewords: seq<Byte>, j: nat)
    requires j < |codewords|
    ensures Unpacked(codewords)[8 * j..8 * j + 8] == BitsOf(codewords[j], 8)
  {
    hide BitsOf;
    var n := |codewords| - 1;
    var init := Unpacked(codewords[..n]);
    assert Unpacked(codewords) == init + BitsOf(codewords[n], 8);
    if j < n {
      UnpackedSlice(codewords[..n], j);
      assert Unpacked(codewords)[8 * j..8 * j + 8] == init[8 * j..8 * j + 8];
    } else {
      assert |init| == 8 * j;
    }
  }

  lemma UnpackedBit(codewords: seq<Byte>, index: nat)
    requires index < 8 * |codewords|
    ensures Unpacked(codewords)[index] == BitAt(codewords[index / 8], 7 - index % 8)
  {
    hide Unpacked, BitAt, BitsOf;
    var j, k := index / 8, index % 8;
    UnpackedSlice(codewords, j);
    assert Unpacked(codewords)[index] == Unpacked(codewords)[8 * j..8 * j + 8][k];
    DigitOfBits(codewords[j], 8, k);
  }

  lemma PackedUnpacked(codewords: seq<Byte>)
    ensures Packed(Unpacked(codewords)) == codewords
  {
    hide Unpacked, BitsOf, Number;
    PowersOfTwo();
    assert |Packed(Unpacked(codewords))| == |codewords|;
    forall j | 0 <= j < |codewords|
      ensures Packed(Unpacked(codewords))[j] == codewords[j]
    {
      UnpackedSlice(codewords, j);
      NumberOfBits(codewords[j], 8);
    }
  }

  lemma {:induction false} UnpackedPacked(bits: seq<bool>)
    requires |bits| % 8 == 0
    ensures Unpacked(Packed(bits)) == bits
  {
    hide BitsOf, Number;
    if bits != [] {
      var last := |bits| / 8 - 1;
      var n := 8 * last;
      assert |bits| == n + 8;
      UnpackedPacked(bits[..n]);
      PackedPrefix(bits, last);
      assert Packed(bits)[last] == Number(bits[n..n + 8]);
      BitsOfNumber(bits[n..n + 8]);
      assert bits == bits[..n] + bits[n..n + 8];
    }
  }

  lemma PackedPrefix(bits: seq<bool>, count: nat)
    requires 8 * count <= |bits|
    ensures Packed(bits)[..count] == Packed(bits[..8 * count])
  {
    hide Number;
    forall j | 0 <= j < count
      ensures Packed(bits)[j] == Packed(bits[..8 * count])[j]
    {
      assert bits[..8 * count][8 * j..8 * j + 8] == bits[8 * j..8 * j + 8];
    }
  }

  lemma {:induction false} UnpackedConcat(a: seq<Byte>, b: seq<Byte>)
    ensures Unpacked(a + b) == Unpacked(a) + Unpacked(b)
  {
    if b == [] {
      assert a + b == a;
    } else {
      assert (a + b)[..|a + b| - 1] == a + b[..|b| - 1];
      UnpackedConcat(a, b[..|b| - 1]);
    }
  }

  // ----- The segment survives

  /** A payload that fits is read back from its data codewords. */
  lemma PayloadRoundTrip(bytes: seq<Byte>, version: Version)
    requires Fits(version, |bytes|)
    ensures Payload(DataCodewords(bytes, version), version) == Some(bytes)
  {
    hide Packed, Unpacked, BitsOf, Number, DataCodewordCount;
    var cc := CharacterCountBits(version);
    var stream := Stream(bytes, version);
    var filler := Filler(DataCodewordCount(version) - |Packed(stream)|);
    assert |stream| % 8 == 0;
    UnpackedConcat(Packed(stream), filler);
    UnpackedPacked(stream);
    var bits := Unpacked(DataCodewords(bytes, version));
    assert bits == stream + Unpacked(filler);
    assert bits[..4] == BitsOf(MODE_BYTE, 4);
    assert bits[4..4 + cc] == BitsOf(|bytes|, cc);
    assert bits[4 + cc..4 + cc + 8 * |bytes|] == Unpacked(bytes);
    PowersOfTwo();
    NumberOfBits(MODE_BYTE, 4);
    LengthFitsHeader(bytes, version);
    NumberOfBits(|bytes|, cc);
    PackedUnpacked(bytes);
  }

  lemma LengthFitsHeader(bytes: seq<Byte>, version: Version)
    requires Fits(version, |bytes|)
    ensures |bytes| < PowerOfTwo(CharacterCountBits(version))
  {
    hide RawModuleCount;
    PowersOfTwo();
    BlockShape(version);
    RawTable(version);
  }

  // ----- The loops

  method AppendBits(bits: seq<bool>, value: nat, length: nat) returns (extended: seq<bool>)
    ensures extended == bits + BitsOf(value, length)
  {
    hide BitsOf, BitAt;
    extended := bits;
    var index := length;
    while index > 0
      invariant 0 <= index <= length
      invariant extended == bits + BitsOf(value, length)[..length - index]
    {
      index := index - 1;
      DigitOfBits(value, length, length - 1 - index);
      extended := extended + [BitAt(value, index)];
    }
  }

  method DataCodewordsFor(bytes: seq<Byte>, version: Version) returns (codewords: array<Byte>)
    requires Fits(version, |bytes|)
    ensures fresh(codewords)
    ensures codewords[..] == DataCodewords(bytes, version)
  {
    hide BitsOf, Number, Packed, DataCodewordCount;
    var bits := AppendBits([], MODE_BYTE, 4);
    bits := AppendBits(bits, |bytes|, CharacterCountBits(version));
    bits := AppendBytes(bits, bytes);

    var capacity := DataCodewordCount(version) * 8;
    bits := Terminate(bits, capacity);
    assert bits == Stream(bytes, version);
    bits := AlignToByte(bits);
    assert bits == Stream(bytes, version);

    codewords := new Byte[DataCodewordCount(version)](_ => 0);
    Pack(bits, codewords);
    Pad(|bits| / 8, codewords);
    assert codewords[..] == codewords[..|bits| / 8] + codewords[|bits| / 8..];
  }

  method AppendBytes(bits: seq<bool>, bytes: seq<Byte>) returns (extended: seq<bool>)
    ensures extended == bits + Unpacked(bytes)
  {
    hide BitsOf;
    extended := bits;
    for read := 0 to |bytes|
      invariant extended == bits + Unpacked(bytes[..read])
    {
      assert bytes[..read + 1][..read] == bytes[..read];
      extended := AppendBits(extended, bytes[read], 8);
    }
    assert bytes[..|bytes|] == bytes;
  }

  method Terminate(bits: seq<bool>, capacity: nat) returns (terminated: seq<bool>)
    requires |bits| <= capacity
    ensures terminated == bits + Repeat(false, if |bits| + 4 <= capacity then 4 else capacity - |bits|)
  {
    terminated := bits;
    var index := 0;
    while index < 4 && |terminated| < capacity
      invariant 0 <= index <= 4 && |bits| + index <= capacity
      invariant terminated == bits + Repeat(false, index)
    {
      terminated := terminated + [false];
      index := index + 1;
    }
  }

  /** How many bits are missing to the next byte boundary. */
  function Missing(length: nat): nat { (8 - length % 8) % 8 }

  lemma MissingNext(length: nat)
    ensures Missing(length) == 0 <==> length % 8 == 0
    ensures length % 8 != 0 ==> Missing(length + 1) == Missing(length) - 1
  {}

  method AlignToByte(bits: seq<bool>) returns (aligned: seq<bool>)
    ensures |aligned| % 8 == 0
    ensures aligned == bits + Repeat(false, Missing(|bits|))
  {
    hide Missing;
    aligned := bits;
    MissingNext(|bits|);
    while |aligned| % 8 != 0
      invariant |bits| <= |aligned|
      invariant aligned == bits + Repeat(false, |aligned| - |bits|)
      invariant |aligned| + Missing(|aligned|) == |bits| + Missing(|bits|)
      decreases Missing(|aligned|)
    {
      MissingNext(|aligned|);
      aligned := aligned + [false];
    }
    MissingNext(|aligned|);
  }

  method Pack(bits: seq<bool>, codewords: array<Byte>)
    requires |bits| % 8 == 0 && |bits| / 8 <= codewords.Length
    requires forall k :: 0 <= k < codewords.Length ==> codewords[k] == 0
    modifies codewords
    ensures codewords[..|bits| / 8] == Packed(bits)
    ensures forall k :: |bits| / 8 <= k < codewords.Length ==> codewords[k] == old(codewords[k])
  {
    hide Or, ShiftLeft, Begun, CodewordAt;
    BegunStart(bits);
    for index := 0 to |bits|
      invariant forall k :: 0 <= k < index / 8 ==> codewords[k] == CodewordAt(bits, k)
      invariant index < |bits| ==> codewords[index / 8] == Begun(bits, index)
      invariant forall k :: (index + 7) / 8 <= k < codewords.Length ==> codewords[k] == 0
    {
      BegunNext(bits, index);
      codewords[index / 8] := Or(codewords[index / 8], ShiftLeft(if bits[index] then 1 else 0, 7 - index % 8));
    }
  }

  /** The codeword under construction once bits up to `index` have been or-ed in. */
  function Begun(bits: seq<bool>, index: nat): nat
    requires index <= |bits|
  {
    ShiftLeft(Number(bits[index / 8 * 8..index]), 8 - index % 8)
  }

  lemma OrNextBit(bits: seq<bool>, index: nat)
    requires index < |bits|
    ensures Or(Begun(bits, index), ShiftLeft(if bits[index] then 1 else 0, 7 - index % 8)) ==
            ShiftLeft(Number(bits[index / 8 * 8..index + 1]), 7 - index % 8) < 0x100
  {
    hide Or, ShiftLeft;
    var digits := bits[index / 8 * 8..index + 1];
    OrBelow(Number(bits[index / 8 * 8..index]), bits[index], 7 - index % 8);
    assert digits[..|digits| - 1] == bits[index / 8 * 8..index];
    PowersOfTwo();
    NumberBound(digits);
    ShiftLeftBound(Number(digits), index % 8 + 1, 7 - index % 8);
  }

  lemma BegunStart(bits: seq<bool>)
    ensures Begun(bits, 0) == 0
  {
    ShiftLeftZero(8);
  }

  lemma BegunNext(bits: seq<bool>, index: nat)
    requires index < |bits| && |bits| % 8 == 0
    ensures var next := Or(Begun(bits, index), ShiftLeft(if bits[index] then 1 else 0, 7 - index % 8));
            && next < 0x100
            && (index % 8 < 7 ==> next == Begun(bits, index + 1) && (index + 1) / 8 == index / 8)
            && (index % 8 == 7 ==>
                  next == CodewordAt(bits, index / 8) && Begun(bits, index + 1) == 0 && (index + 1) / 8 == index / 8 + 1)
  {
    hide Number, Or, ShiftLeft;
    OrNextBit(bits, index);
    if index % 8 < 7 {
      assert (index + 1) / 8 == index / 8;
    } else {
      assert bits[(index + 1) / 8 * 8..index + 1] == [];
      NumberOfNothing();
      ShiftLeftZero(8);
      ShiftLeftByZero(Number(bits[index / 8 * 8..index + 1]));
    }
  }

  lemma ShiftLeftByZero(value: nat)
    ensures ShiftLeft(value, 0) == value
  {}

  lemma NumberOfNothing()
    ensures Number([]) == 0
  {}

  method Pad(start: nat, codewords: array<Byte>)
    requires start <= codewords.Length
    modifies codewords
    ensures codewords[..start] == old(codewords[..start])
    ensures codewords[start..] == Filler(codewords.Length - start)
  {
    hide Xor;
    var pad := 0xec;
    for index := start to codewords.Length
      invariant pad == if (index - start) % 2 == 0 then 0xec else 0x11
      invariant codewords[..start] == old(codewords[..start])
      invariant forall k :: start <= k < index ==> codewords[k] == if (k - start) % 2 == 0 then 0xec else 0x11
    {
      codewords[index] := pad;
      PadAlternates();
      pad := Xor(pad, 0xfd);
    }
  }

  lemma PadAlternates()
    ensures Xor(0xec, 0xfd) == 0x11
    ensures Xor(0x11, 0xfd) == 0xec
  {
    hide Xor;
    XorStep(0xec, 0xfd);
    XorStep(0x76, 0x7e);
    XorStep(0x3b, 0x3f);
    XorStep(0x1d, 0x1f);
    XorStep(0x0e, 0x0f);
    XorStep(7, 7);
    XorZero(7);
    XorZero(0xfd);
    XorAssociative(0xec, 0xfd, 0xfd);
    XorZero(0xec);
  }
}
