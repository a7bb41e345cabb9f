/** Splitting the data into blocks, and the order of section 7.6 of ISO/IEC 18004. */
module Interleaving {
  import opened Arithmetic
  import opened GaloisField
  import opened ReedSolomon

  /** How one version divides its codewords: the block count, the codewords of error correction per block, the total. */
  datatype Shape = Shape(blocks: nat, ecc: nat, raw: nat) {
    predicate Valid() { 0 < blocks && 0 < ecc <= raw / blocks }

    /** Data codewords in a short block. */
    function Width(): nat
      requires Valid()
    {
      raw / blocks - ecc
    }

    /** Blocks of the short kind; they come first. */
    function ShortBlocks(): nat
      requires Valid()
    {
      blocks - raw % blocks
    }

    function Length(block: nat): nat
      requires Valid()
    {
      Width() + if block < ShortBlocks() then 0 else 1
    }

    function Start(block: nat): nat
      requires Valid()
    {
      block * Width() + if block < ShortBlocks() then 0 else block - ShortBlocks()
    }

    function DataLength(): nat
      requires Valid()
    {
      Start(blocks)
    }

    /** The slot of codeword `index` of a data block. */
    function Slot(block: nat, index: nat): nat
      requires Valid() && block < blocks && index < Length(block)
    {
      if index < Width() then index * blocks + block else Width() * blocks + (block - ShortBlocks())
    }

    /** The slot of codeword `index` of a block's error correction. */
    function EccSlot(block: nat, index: nat): nat
      requires Valid()
    {
      DataLength() + (index * blocks + block)
    }
  }

  // ----- Slots and blocks

  lemma DataLengthIs(s: Shape)
    requires s.Valid()
    ensures s.DataLength() == s.raw - s.ecc * s.blocks
    ensures s.DataLength() == s.Width() * s.blocks + s.raw % s.blocks
  {
    assert s.raw == s.raw / s.blocks * s.blocks + s.raw % s.blocks;
  }

  lemma BlockInData(s: Shape, block: nat)
    requires s.Valid() && block < s.blocks
    ensures s.Start(block + 1) == s.Start(block) + s.Length(block)
    ensures s.Start(block + 1) <= s.DataLength()
  {
    MultiplyMonotone(block + 1, s.blocks, s.Width());
  }

  lemma SlotInRange(s: Shape, block: nat, index: nat)
    requires s.Valid() && block < s.blocks
    ensures index < s.Length(block) ==> s.Slot(block, index) < s.DataLength()
    ensures index < s.Width() ==> index * s.blocks + block < s.Width() * s.blocks
    ensures index < s.ecc ==> s.DataLength() <= s.EccSlot(block, index) < s.raw
  {
    DataLengthIs(s);
    RowBound(s.blocks, s.Width(), index, block);
    RowBound(s.blocks, s.ecc, index, block);
    hide Shape.DataLength;
  }

  // ----- Blocks, and the codewords in transmission order

  function Block(data: seq<Byte>, s: Shape, block: nat): (part: seq<Byte>)
    requires s.Valid() && |data| == s.DataLength() && block < s.blocks
    ensures |part| == s.Length(block)
  {
    BlockInData(s, block);
    data[s.Start(block)..s.Start(block + 1)]
  }

  function Ecc(data: seq<Byte>, s: Shape, block: nat): (codewords: seq<Byte>)
    requires s.Valid() && |data| == s.DataLength() && block < s.blocks
    ensures |codewords| == s.ecc
  {
    Remainder(Block(data, s, block), Generator(s.ecc)[1..])
  }

  /** The block a slot belongs to, and the codeword's index in that block's data or error correction. */
  function Owner(s: Shape, slot: nat): (nat, nat)
    requires s.Valid()
  {
    if slot < s.Width() * s.blocks then (slot % s.blocks, slot / s.blocks)
    else if slot < s.DataLength() then (s.ShortBlocks() + (slot - s.Width() * s.blocks), s.Width())
    else ((slot - s.DataLength()) % s.blocks, (slot - s.DataLength()) / s.blocks)
  }

  lemma OwnerInRange(s: Shape, slot: nat)
    requires s.Valid() && slot < s.raw
    ensures Owner(s, slot).0 < s.blocks
    ensures slot < s.DataLength() ==> Owner(s, slot).1 < s.Length(Owner(s, slot).0)
    ensures s.DataLength() <= slot ==> Owner(s, slot).1 < s.ecc
  {
    hide Shape.DataLength;
    DataLengthIs(s);
    if slot < s.Width() * s.blocks {
      RowInRange(slot, s.blocks, s.Width());
    } else if slot >= s.DataLength() {
      RowInRange(slot - s.DataLength(), s.blocks, s.ecc);
    }
  }

  /** Slots and codewords correspond one to one: each codeword has a slot, and its slot is no other's. */
  lemma OwnerOfSlot(s: Shape, block: nat, index: nat)
    requires s.Valid() && block < s.blocks
    ensures index < s.Length(block) ==> s.Slot(block, index) < s.DataLength() && Owner(s, s.Slot(block, index)) == (block, index)
    ensures index < s.ecc ==> s.DataLength() <= s.EccSlot(block, index) < s.raw && Owner(s, s.EccSlot(block, index)) == (block, index)
  {
    SlotInRange(s, block, index);
    DataLengthIs(s);
    RowAndColumn(s.blocks, index, block);
    hide Shape.DataLength;
  }

  lemma SlotOfOwner(s: Shape, slot: nat)
    requires s.Valid() && slot < s.raw
    ensures var (block, index) := Owner(s, slot);
            && block < s.blocks
            && if slot < s.DataLength() then index < s.Length(block) && s.Slot(block, index) == slot
               else index < s.ecc && s.EccSlot(block, index) == slot
  {
    OwnerInRange(s, slot);
    DataLengthIs(s);
    if slot >= s.DataLength() {
      RowOf(s.blocks, slot - s.DataLength());
    } else {
      RowOf(s.blocks, slot);
    }
  }

  lemma RowOf(width: nat, n: nat)
    requires width > 0
    ensures n / width * width + n % width == n
  {}

  function CodewordInSlot(data: seq<Byte>, s: Shape, slot: nat): Byte
    requires s.Valid() && |data| == s.DataLength() && slot < s.raw
  {
    OwnerInRange(s, slot);
    var (block, index) := Owner(s, slot);
    if slot < s.DataLength() then Block(data, s, block)[index] else Ecc(data, s, block)[index]
  }

  function Interleaved(data: seq<Byte>, s: Shape): (codewords: seq<Byte>)
    requires s.Valid() && |data| == s.DataLength()
    ensures |codewords| == s.raw
  {
    seq(s.raw, slot requires 0 <= slot < s.raw => CodewordInSlot(data, s, slot))
  }

  // ----- The reader

  function ReadBlock(codewords: seq<Byte>, s: Shape, block: nat): (part: seq<Byte>)
    requires s.Valid() && |codewords| == s.raw && block < s.blocks
    ensures |part| == s.Length(block)
  {
    DataLengthIs(s);
    seq(s.Length(block), i requires 0 <= i < s.Length(block) => (SlotInRange(s, block, i); codewords[s.Slot(block, i)]))
  }

  function ReadEcc(codewords: seq<Byte>, s: Shape, block: nat): (part: seq<Byte>)
    requires s.Valid() && |codewords| == s.raw && block < s.blocks
    ensures |part| == s.ecc
  {
    seq(s.ecc, i requires 0 <= i < s.ecc => (SlotInRange(s, block, i); codewords[s.EccSlot(block, i)]))
  }

  function ReadBlocks(codewords: seq<Byte>, s: Shape, count: nat): seq<Byte>
    requires s.Valid() && |codewords| == s.raw && count <= s.blocks
  {
    if count == 0 then [] else ReadBlocks(codewords, s, count - 1) + ReadBlock(codewords, s, count - 1)
  }

  lemma BlockReadBack(data: seq<Byte>, s: Shape, block: nat)
    requires s.Valid() && |data| == s.DataLength() && block < s.blocks
    ensures ReadBlock(Interleaved(data, s), s, block) == Block(data, s, block)
  {
    hide Block;
    forall i | 0 <= i < s.Length(block)
      ensures ReadBlock(Interleaved(data, s), s, block)[i] == Block(data, s, block)[i]
    {
      SlotInRange(s, block, i);
      DataLengthIs(s);
      RowAndColumn(s.blocks, i, block);
    }
  }

  lemma EccReadBack(data: seq<Byte>, s: Shape, block: nat)
    requires s.Valid() && |data| == s.DataLength() && block < s.blocks
    ensures ReadEcc(Interleaved(data, s), s, block) == Ecc(data, s, block)
  {
    hide Block, Ecc;
    forall i | 0 <= i < s.ecc
      ensures ReadEcc(Interleaved(data, s), s, block)[i] == Ecc(data, s, block)[i]
    {
      SlotInRange(s, block, i);
      DataLengthIs(s);
      RowAndColumn(s.blocks, i, block);
    }
  }

  lemma {:induction false} DataReadBack(data: seq<Byte>, s: Shape, count: nat)
    requires s.Valid() && |data| == s.DataLength() && count <= s.blocks
    ensures s.Start(count) <= |data|
    ensures ReadBlocks(Interleaved(data, s), s, count) == data[..s.Start(count)]
  {
    if count > 0 {
      DataReadBack(data, s, count - 1);
      BlockInData(s, count - 1);
      BlockReadBack(data, s, count - 1);
    }
  }

  // ----- The loops

  method Interleave(data: seq<Byte>, s: Shape) returns (result: array<Byte>)
    requires s.Valid() && |data| == s.DataLength()
    ensures fresh(result)
    ensures result[..] == Interleaved(data, s)
  {
    hide CodewordInSlot;
    var dataBlocks, eccBlocks := SplitBlocks(data, s);
    result := new Byte[s.raw](_ => 0);
    var written := WriteBlocks(data, s, dataBlocks, result);
    written := WriteEcc(data, s, eccBlocks, written, result);
  }

  method SplitBlocks(data: seq<Byte>, s: Shape) returns (dataBlocks: seq<seq<Byte>>, eccBlocks: seq<seq<Byte>>)
    requires s.Valid() && |data| == s.DataLength()
    ensures |dataBlocks| == |eccBlocks| == s.blocks
    ensures forall b :: 0 <= b < s.blocks ==> dataBlocks[b] == Block(data, s, b) && eccBlocks[b] == Ecc(data, s, b)
  {
    hide Remainder, Generator;
    var shortBlockLength := s.raw / s.blocks;
    var shortBlocks := s.blocks - s.raw % s.blocks;
    var divisor := ReedSolomonDivisor(s.ecc);
    dataBlocks, eccBlocks := [], [];
    var read := 0;
    for index := 0 to s.blocks
      invariant read == s.Start(index)
      invariant divisor[..] == Generator(s.ecc)[1..]
      invariant |dataBlocks| == |eccBlocks| == index
      invariant forall b :: 0 <= b < index ==> dataBlocks[b] == Block(data, s, b) && eccBlocks[b] == Ecc(data, s, b)
    {
      BlockInData(s, index);
      var length := shortBlockLength - s.ecc + if index < shortBlocks then 0 else 1;
      var block := data[read..read + length];
      read := read + length;
      var remainder := ReedSolomonRemainder(block, divisor);
      dataBlocks := dataBlocks + [block];
      eccBlocks := eccBlocks + [remainder[..]];
    }
  }

  method WriteBlocks(ghost data: seq<Byte>, s: Shape, dataBlocks: seq<seq<Byte>>, result: array<Byte>)
    returns (written: nat)
    requires s.Valid() && |data| == s.DataLength() && result.Length == s.raw && |dataBlocks| == s.blocks
    requires forall b :: 0 <= b < s.blocks ==> dataBlocks[b] == Block(data, s, b)
    modifies result
    ensures written == s.DataLength() <= s.raw
    ensures forall slot :: 0 <= slot < written ==> result[slot] == CodewordInSlot(data, s, slot)
  {
    hide CodewordInSlot, Block;
    DataLengthIs(s);
    written := 0;
    var longestBlock := s.raw / s.blocks - s.ecc + 1;
    for index := 0 to longestBlock
      invariant written == Written(s, index, 0) <= s.raw
      invariant forall slot :: 0 <= slot < written ==> result[slot] == CodewordInSlot(data, s, slot)
    {
      for b := 0 to s.blocks
        invariant written == Written(s, index, b) <= s.raw
        invariant forall slot :: 0 <= slot < written ==> result[slot] == CodewordInSlot(data, s, slot)
      {
        NextWritten(data, s, index, b);
        if index < |dataBlocks[b]| {
          result[written] := dataBlocks[b][index];
          written := written + 1;
        }
      }
      RowWritten(s, index);
    }
  }

  /** Slots filled once blocks before `block` have had codeword `index` written. */
  function Written(s: Shape, index: nat, block: nat): nat
    requires s.Valid()
  {
    if index < s.Width() then index * s.blocks + block
    else if index == s.Width() then s.Width() * s.blocks + if block < s.ShortBlocks() then 0 else block - s.ShortBlocks()
    else s.DataLength()
  }

  lemma RowWritten(s: Shape, index: nat)
    requires s.Valid() && index <= s.Width()
    ensures Written(s, index, s.blocks) == Written(s, index + 1, 0) <= s.raw
  {
    DataLengthIs(s);
    if index < s.Width() {
      MultiplyMonotone(index + 1, s.Width(), s.blocks);
      assert (index + 1) * s.blocks == index * s.blocks + s.blocks;
    }
  }

  lemma NextWritten(data: seq<Byte>, s: Shape, index: nat, block: nat)
    requires s.Valid() && |data| == s.DataLength() && index <= s.Width() && block < s.blocks
    ensures var written := Written(s, index, block);
            if index < s.Length(block) then
              && Written(s, index, block + 1) == written + 1 <= s.raw
              && CodewordInSlot(data, s, written) == Block(data, s, block)[index]
            else
              Written(s, index, block + 1) == written
  {
    hide Block;
    DataLengthIs(s);
    SlotInRange(s, block, index);
    RowAndColumn(s.blocks, index, block);
  }

  method WriteEcc(ghost data: seq<Byte>, s: Shape, eccBlocks: seq<seq<Byte>>, start: nat, result: array<Byte>)
    returns (written: nat)
    requires s.Valid() && |data| == s.DataLength() && result.Length == s.raw && |eccBlocks| == s.blocks
    requires forall b :: 0 <= b < s.blocks ==> eccBlocks[b] == Ecc(data, s, b)
    requires start == s.DataLength() <= s.raw
    requires forall slot :: 0 <= slot < start ==> result[slot] == CodewordInSlot(data, s, slot)
    modifies result
    ensures written == s.raw
    ensures forall slot :: 0 <= slot < s.raw ==> result[slot] == CodewordInSlot(data, s, slot)
  {
    hide CodewordInSlot, Ecc;
    DataLengthIs(s);
    written := start;
    for index := 0 to s.ecc
      invariant written == s.EccSlot(0, index) <= s.raw
      invariant forall slot :: 0 <= slot < written ==> result[slot] == CodewordInSlot(data, s, slot)
    {
      for b := 0 to s.blocks
        invariant written == s.EccSlot(b, index) <= s.raw
        invariant forall slot :: 0 <= slot < written ==> result[slot] == CodewordInSlot(data, s, slot)
      {
        NextEccWritten(data, s, index, b);
        result[written] := eccBlocks[b][index];
        written := written + 1;
      }
      assert (index + 1) * s.blocks == index * s.blocks + s.blocks;
    }
  }

  lemma NextEccWritten(data: seq<Byte>, s: Shape, index: nat, block: nat)
    requires s.Valid() && |data| == s.DataLength() && index < s.ecc && block < s.blocks
    ensures s.EccSlot(block, index) < s.raw
    ensures CodewordInSlot(data, s, s.EccSlot(block, index)) == Ecc(data, s, block)[index]
  {
    hide Block, Ecc;
    DataLengthIs(s);
    SlotInRange(s, block, index);
    RowAndColumn(s.blocks, index, block);
  }
}
