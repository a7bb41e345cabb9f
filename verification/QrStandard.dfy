/**
 Symbols as ISO/IEC 18004 describes them to a reader, at error-correction level M: where the bits are, what a mask
 inverts, how blocks lie in the stream, and the tables of the standard. Only bytes, cells and exclusive or are shared with
 the encoder.
 */
module StandardSymbols {
  import opened GaloisField
  import opened Geometry
  import opened Versions

  datatype Symbol = Symbol(size: nat, dark: set<Cell>)

  // ----- Tables

  /** Centres of the alignment patterns along either axis: annex E. */
  const CENTRES: seq<seq<int>> := [
    [], [], [6, 18], [6, 22], [6, 26], [6, 30], [6, 34],
    [6, 22, 38], [6, 24, 42], [6, 26, 46], [6, 28, 50], [6, 30, 54], [6, 32, 58], [6, 34, 62],
    [6, 26, 46, 66], [6, 26, 48, 70], [6, 26, 50, 74], [6, 30, 54, 78], [6, 30, 56, 82], [6, 30, 58, 86], [6, 34, 62, 90],
    [6, 28, 50, 72, 94], [6, 26, 50, 74, 98], [6, 30, 54, 78, 102], [6, 28, 54, 80, 106], [6, 32, 58, 84, 110],
    [6, 30, 58, 86, 114], [6, 34, 62, 90, 118],
    [6, 26, 50, 74, 98, 122], [6, 30, 54, 78, 102, 126], [6, 26, 52, 78, 104, 130], [6, 30, 56, 82, 108, 134],
    [6, 34, 60, 86, 112, 138], [6, 30, 58, 86, 114, 142], [6, 34, 62, 90, 118, 146],
    [6, 30, 54, 78, 102, 126, 150], [6, 24, 50, 76, 102, 128, 154], [6, 28, 54, 80, 106, 132, 158],
    [6, 32, 58, 84, 110, 136, 162], [6, 26, 54, 82, 110, 138, 166], [6, 30, 58, 86, 114, 142, 170]
  ]

  /** Error-correction codewords of a block; blocks of the short kind and their data codewords; blocks with one more. */
  datatype Blocks = Blocks(ecc: nat, short: nat, width: nat, long: nat)

  /** Table 9. */
  const BLOCKS: seq<Blocks> := [
    Blocks(0, 0, 0, 0),
    Blocks(10, 1, 16, 0), Blocks(16, 1, 28, 0), Blocks(26, 1, 44, 0), Blocks(18, 2, 32, 0), Blocks(24, 2, 43, 0),
    Blocks(16, 4, 27, 0), Blocks(18, 4, 31, 0), Blocks(22, 2, 38, 2), Blocks(22, 3, 36, 2), Blocks(26, 4, 43, 1),
    Blocks(30, 1, 50, 4), Blocks(22, 6, 36, 2), Blocks(22, 8, 37, 1), Blocks(24, 4, 40, 5), Blocks(24, 5, 41, 5),
    Blocks(28, 7, 45, 3), Blocks(28, 10, 46, 1), Blocks(26, 9, 43, 4), Blocks(26, 3, 44, 11), Blocks(26, 3, 41, 13),
    Blocks(26, 17, 42, 0), Blocks(28, 17, 46, 0), Blocks(28, 4, 47, 14), Blocks(28, 6, 45, 14), Blocks(28, 8, 47, 13),
    Blocks(28, 19, 46, 4), Blocks(28, 22, 45, 3), Blocks(28, 3, 45, 23), Blocks(28, 21, 45, 7), Blocks(28, 19, 47, 10),
    Blocks(28, 2, 46, 29), Blocks(28, 10, 46, 23), Blocks(28, 14, 46, 21), Blocks(28, 14, 46, 23), Blocks(28, 12, 47, 26),
    Blocks(28, 6, 47, 34), Blocks(28, 29, 46, 14), Blocks(28, 13, 46, 32), Blocks(28, 40, 47, 7), Blocks(28, 18, 47, 31)
  ]

  // ----- Function modules

  function Side(version: Version): nat { 4 * version + 17 }

  /** Centres of alignment patterns: everywhere but in the three finder corners. */
  predicate Aligned(version: Version, i: nat, j: nat) {
    var n := |CENTRES[version]|;
    i < n && j < n && !(i == 0 && j == 0) && !(i == 0 && j == n - 1) && !(i == n - 1 && j == 0)
  }

  predicate Near(version: Version, i: nat, j: nat, c: Cell)
    requires Aligned(version, i, j)
  {
    var x, y := CENTRES[version][i], CENTRES[version][j];
    x - 2 <= c.x <= x + 2 && y - 2 <= c.y <= y + 2
  }

  predicate InAlignment(version: Version, c: Cell) {
    var n := |CENTRES[version]|;
    exists i, j :: 0 <= i < n && 0 <= j < n && Aligned(version, i, j) && Near(version, i, j, c)
  }

  predicate InFinder(version: Version, c: Cell) {
    var far := Side(version) - 8;
    (c.x <= 7 && c.y <= 7) || (c.x >= far && c.y <= 7) || (c.x <= 7 && c.y >= far)
  }

  /** Finders, separators and format areas fill the corners. */
  predicate InCorner(version: Version, c: Cell) {
    var far := Side(version) - 8;
    (c.x <= 8 && c.y <= 8) || (c.x >= far && c.y <= 8) || (c.x <= 8 && c.y >= far)
  }

  predicate InVersion(version: Version, c: Cell) {
    var near := Side(version) - 11;
    version >= 7 && ((near <= c.x < near + 3 && c.y < 6) || (near <= c.y < near + 3 && c.x < 6))
  }

  predicate FunctionModule(version: Version, c: Cell) {
    c.x == 6 || c.y == 6 || InCorner(version, c) || InVersion(version, c) || InAlignment(version, c)
  }

  function Distance(c: Cell, x: int, y: int): nat {
    var dx, dy := if c.x < x then x - c.x else c.x - x, if c.y < y then y - c.y else c.y - y;
    if dx < dy then dy else dx
  }

  predicate Inside(version: Version, c: Cell) { 0 <= c.x < Side(version) && 0 <= c.y < Side(version) }

  /** Finders with their separators, timing in between, alignment patterns: section 5.3. */
  ghost predicate PatternsShown(symbol: Symbol, version: Version) {
    var last := Side(version) - 1;
    && (forall c :: Inside(version, c) && InFinder(version, c) ==>
          var d := Distance(c, if c.x <= 7 then 3 else last - 3, if c.y <= 7 then 3 else last - 3);
          c in symbol.dark <==> d != 2 && d != 4)
    && (forall c :: Inside(version, c) && (c.x == 6 || c.y == 6) && !InFinder(version, c) ==>
          (c in symbol.dark <==> (c.x + c.y) % 2 == 0))
    && forall i: nat, j: nat, c :: Aligned(version, i, j) && Near(version, i, j, c) ==>
         (c in symbol.dark <==> Distance(c, CENTRES[version][i], CENTRES[version][j]) != 1)
  }

  // ----- Format and version: words of a BCH code, annexes C and D

  /** Multiplication of polynomials over two elements, written as numbers. */
  function PolynomialProduct(q: nat, generator: nat): nat {
    if q == 0 then 0 else Xor(2 * PolynomialProduct(q / 2, generator), if q % 2 == 1 then generator else 0)
  }

  ghost predicate BchWord(word: nat, generator: nat) { exists q: nat :: PolynomialProduct(q, generator) == word }

  predicate HasBit(word: nat, i: nat) { word / PowerOfTwo(i) % 2 == 1 }

  const FIRST_FORMAT: seq<Cell> := [
    Cell(8, 0), Cell(8, 1), Cell(8, 2), Cell(8, 3), Cell(8, 4), Cell(8, 5), Cell(8, 7), Cell(8, 8), Cell(7, 8),
    Cell(5, 8), Cell(4, 8), Cell(3, 8), Cell(2, 8), Cell(1, 8), Cell(0, 8)
  ]

  function SecondFormat(side: nat, i: nat): Cell {
    if i < 8 then Cell(side - 1 - i, 8) else Cell(8, side - 15 + i)
  }

  ghost predicate FormatSpelled(symbol: Symbol, version: Version, word: nat) {
    && word < 0x8000
    && (forall i: nat :: i < 15 ==> (FIRST_FORMAT[i] in symbol.dark <==> HasBit(word, i)))
    && (forall i: nat :: i < 15 ==> (SecondFormat(Side(version), i) in symbol.dark <==> HasBit(word, i)))
    && Cell(8, Side(version) - 8) in symbol.dark
  }

  /** Level M is 00; the three bits of the mask follow, then the check bits. */
  ghost predicate Announces(symbol: Symbol, version: Version, mask: nat) {
    exists word: nat :: FormatSpelled(symbol, version, word)
      && Xor(word, 0x5412) / 0x400 == mask && BchWord(Xor(word, 0x5412), 0x537)
  }

  ghost predicate VersionSpelled(symbol: Symbol, version: Version) {
    exists word: nat :: word / 0x1000 == version && BchWord(word, 0x1f25)
      && forall i: nat :: i < 18 ==>
           && (Cell(Side(version) - 11 + i % 3, i / 3) in symbol.dark <==> HasBit(word, i))
           && (Cell(i / 3, Side(version) - 11 + i % 3) in symbol.dark <==> HasBit(word, i))
  }

  // ----- The path of the data, section 7.7.3

  /** Pairs of columns from the right, the first upwards and then in turn, without the column of the timing pattern. */
  function Scan(side: nat, k: nat): Cell
    requires side > 0
  {
    var pair, step, column := k / (2 * side), k % (2 * side) / 2, k % 2;
    var right := if side - 1 - 2 * pair > 6 then side - 1 - 2 * pair else side - 2 - 2 * pair;
    Cell(right - column, if pair % 2 == 0 then side - 1 - step else step)
  }

  /** The data modules among the first modules of the path. */
  function DataModules(version: Version, count: nat): seq<Cell> {
    if count == 0 then []
    else
      var c := Scan(Side(version), count - 1);
      DataModules(version, count - 1) + if FunctionModule(version, c) then [] else [c]
  }

  function Path(version: Version): seq<Cell> { DataModules(version, (Side(version) - 1) * Side(version)) }

  // ----- Masks, table 10: row i, column j

  predicate Inverted(mask: nat, i: int, j: int) {
    || (mask == 0 && (i + j) % 2 == 0)
    || (mask == 1 && i % 2 == 0)
    || (mask == 2 && j % 3 == 0)
    || (mask == 3 && (i + j) % 3 == 0)
    || (mask == 4 && (i / 2 + j / 3) % 2 == 0)
    || (mask == 5 && i * j % 2 == 0 && i * j % 3 == 0)
    || (mask == 6 && (i * j % 2 + i * j % 3) % 2 == 0)
    || (mask == 7 && ((i + j) % 2 + i * j % 3) % 2 == 0)
  }

  // ----- Codewords

  /** Bit k of the stream. */
  predicate Bit(symbol: Symbol, version: Version, mask: nat, k: nat)
    requires k < |Path(version)|
  {
    var c := Path(version)[k];
    (c in symbol.dark) != Inverted(mask, c.y, c.x)
  }

  function Digit(bit: bool): nat { if bit then 1 else 0 }

  function CodewordOf(symbol: Symbol, version: Version, mask: nat, index: nat): Byte
    requires 8 * index + 8 <= |Path(version)|
  {
    var k := 8 * index;
    128 * Digit(Bit(symbol, version, mask, k)) + 64 * Digit(Bit(symbol, version, mask, k + 1))
    + 32 * Digit(Bit(symbol, version, mask, k + 2)) + 16 * Digit(Bit(symbol, version, mask, k + 3))
    + 8 * Digit(Bit(symbol, version, mask, k + 4)) + 4 * Digit(Bit(symbol, version, mask, k + 5))
    + 2 * Digit(Bit(symbol, version, mask, k + 6)) + Digit(Bit(symbol, version, mask, k + 7))
  }

  // ----- Blocks, section 7.6

  function Count(b: Blocks): nat { b.short + b.long }

  function DataLength(b: Blocks): nat { b.short * b.width + b.long * (b.width + 1) }

  function Total(b: Blocks): nat { DataLength(b) + Count(b) * b.ecc }

  /** Where the stream has codeword `index` of a block's data. */
  function DataPlace(b: Blocks, block: nat, index: nat): int {
    if index < b.width then index * Count(b) + block else b.width * Count(b) + block - b.short
  }

  function EccPlace(b: Blocks, block: nat, index: nat): int { DataLength(b) + index * Count(b) + block }

  /** A stream takes every block apart into data and error correction. */
  ghost predicate Holds(stream: seq<Byte>, b: Blocks, block: nat, data: seq<Byte>, ecc: seq<Byte>) {
    && |data| == (if block < b.short then b.width else b.width + 1) && |ecc| == b.ecc
    && (forall i :: 0 <= i < |data| ==> 0 <= DataPlace(b, block, i) < |stream| && stream[DataPlace(b, block, i)] == data[i])
    && forall i :: 0 <= i < |ecc| ==> 0 <= EccPlace(b, block, i) < |stream| && stream[EccPlace(b, block, i)] == ecc[i]
  }

  // ----- Error correction: powers of two in the field of 256 elements, and syndromes

  function Alpha(i: nat): Byte {
    if i == 0 then 1
    else if Alpha(i - 1) < 0x80 then 2 * Alpha(i - 1)
    else Add(2 * Alpha(i - 1) - 0x100, 0x1d)
  }

  function Syndrome(block: seq<Byte>, i: nat): Byte {
    if block == [] then 0 else Add(Times(Syndrome(block[..|block| - 1], i), Alpha(i)), block[|block| - 1])
  }

  predicate Clean(block: seq<Byte>, ecc: nat) { forall i: nat :: i < ecc ==> Syndrome(block, i) == 0 }

  // ----- The message, sections 7.4.2 to 7.4.10: byte mode, length, bytes

  function Upper(b: Byte): nat { b / 16 }

  function Lower(b: Byte): nat { b % 16 }

  function HeaderLength(version: Version): nat { if version <= 9 then 1 else 2 }

  function Length(data: seq<Byte>, version: Version): nat
    requires |data| > 2
  {
    if version <= 9 then 16 * Lower(data[0]) + Upper(data[1])
    else 0x1000 * Lower(data[0]) + 0x100 * Upper(data[1]) + 16 * Lower(data[1]) + Upper(data[2])
  }

  /** Bytes straddle codewords; behind them zeros end the message, and two pad codewords alternate. */
  predicate Message(data: seq<Byte>, version: Version, bytes: seq<Byte>) {
    var h, n := HeaderLength(version), |bytes|;
    && |data| > h + n && |data| > 2
    && Upper(data[0]) == 4 && Length(data, version) == n
    && (forall i :: 0 <= i < n ==> bytes[i] == 16 * Lower(data[h + i]) + Upper(data[h + i + 1]))
    && Lower(data[h + n]) == 0
    && forall i :: h + n < i < |data| ==> data[i] == if (i - h - n) % 2 == 1 then 236 else 17
  }

  // ----- The whole symbol

  ghost predicate Shows(symbol: Symbol, version: Version, mask: nat) {
    && symbol.size == Side(version) && mask < 8
    && PatternsShown(symbol, version) && Announces(symbol, version, mask) && (version >= 7 ==> VersionSpelled(symbol, version))
  }

  ghost predicate Transmits(symbol: Symbol, version: Version, mask: nat, stream: seq<Byte>) {
    && |stream| == Total(BLOCKS[version]) && 8 * |stream| <= |Path(version)|
    && (forall i :: 0 <= i < |stream| ==> stream[i] == CodewordOf(symbol, version, mask, i))
    && forall k :: 8 * |stream| <= k < |Path(version)| ==> !Bit(symbol, version, mask, k)
  }

  datatype Part = Part(data: seq<Byte>, ecc: seq<Byte>)

  function Joined(parts: seq<Part>): seq<Byte> {
    if parts == [] then [] else Joined(parts[..|parts| - 1]) + parts[|parts| - 1].data
  }

  ghost predicate Assembles(stream: seq<Byte>, b: Blocks, parts: seq<Part>) {
    && |parts| == Count(b)
    && forall k :: 0 <= k < |parts| ==>
         Holds(stream, b, k, parts[k].data, parts[k].ecc) && Clean(parts[k].data + parts[k].ecc, b.ecc)
  }

  /** What a reader gets out of a symbol. */
  ghost predicate Carries(symbol: Symbol, version: Version, bytes: seq<Byte>) {
    exists mask: nat, stream: seq<Byte>, parts: seq<Part> ::
      && Shows(symbol, version, mask) && Transmits(symbol, version, mask, stream)
      && Assembles(stream, BLOCKS[version], parts) && Message(Joined(parts), version, bytes)
  }

  /** The most bytes a version holds. */
  function Capacity(version: Version): int { DataLength(BLOCKS[version]) - HeaderLength(version) - 1 }
}
