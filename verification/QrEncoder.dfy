/** The encoder of web/src/lib/qr.ts: from a payload to the symbol that carries it. */
module Encoder {
  import opened Canvases
  import opened GaloisField
  import opened Geometry
  import opened Interleaving
  import opened MessageReads
  import opened Options
  import opened PatternsShow
  import opened Penalties
  import opened Pictures
  import opened Reader
  import opened Segment
  import opened StandardSymbols
  import opened Versions

  /** The data drawn but not yet masked. */
  function Base(codewords: seq<Byte>, version: Version): (p: Picture)
    ensures p.size == SymbolSize(version) && p.reserved == ReservedCells(version)
  {
    FunctionPatternsReserve(version);
    WithData(FunctionPatterns(version), Unpacked(codewords))
  }

  function Candidate(base: Picture, mask: nat): Picture {
    WithFormat(WithMask(base, mask), mask)
  }

  function CandidatePenalty(base: Picture, mask: nat): int
    requires base.size > 0
  {
    Penalty(Candidate(base, mask).dark, base.size)
  }

  /** The first of the masks before `count` with the least penalty. */
  predicate FirstLeast(base: Picture, mask: nat, count: nat)
    requires base.size > 0
  {
    && mask < count
    && (forall m: nat :: m < count ==> CandidatePenalty(base, mask) <= CandidatePenalty(base, m))
    && (forall m: nat :: m < mask ==> CandidatePenalty(base, mask) < CandidatePenalty(base, m))
  }

  /** The picture between two trials: the data unmasked, the last trial's format bits still there. */
  function Resting(base: Picture, tried: nat): Picture {
    if tried == 0 then base else WithFormat(base, tried - 1)
  }

  lemma TrialShowsCandidate(base: Picture, tried: nat, mask: nat)
    requires FormatRegion(base.size) <= base.reserved
    ensures WithFormat(WithMask(Resting(base, tried), mask), mask) == Candidate(base, mask)
  {
    hide WithFormat, WithMask, FormatRegion;
    if tried > 0 {
      MaskThenFormat(base, mask, tried - 1);
      FormatTwice(WithMask(base, mask), tried - 1, mask);
    }
  }

  lemma TrialLeavesData(base: Picture, mask: nat)
    requires FormatRegion(base.size) <= base.reserved
    ensures WithMask(Candidate(base, mask), mask) == Resting(base, mask + 1)
  {
    hide WithFormat, FormatRegion, MaskCells;
    MaskThenFormat(WithMask(base, mask), mask, mask);
    MaskTwice(base, mask);
  }

  /** Draws the function patterns and the data, then keeps whichever mask scores best. */
  method BuildSymbol(codewords: seq<Byte>, version: Version) returns (canvas: Canvas)
    ensures fresh(canvas) && canvas.Valid() && canvas.size == SymbolSize(version)
    ensures exists mask: nat :: FirstLeast(Base(codewords, version), mask, 8) && canvas.View() == Candidate(Base(codewords, version), mask)
  {
    hide FunctionPatterns, WithData, Unpacked, WithMask, WithFormat, Penalty, ReservedCells, FormatRegion, Candidate;
    var size := version * 4 + 17;
    canvas := new Canvas(size);
    canvas.DrawFunctionPatterns(version);
    canvas.DrawCodewords(codewords);
    ghost var base := Base(codewords, version);
    assert canvas.View() == base;
    FormatReserved(version);

    var bestMask: nat := 0;
    var bestPenalty: Option<int> := None; // none yet: every penalty is less
    for mask := 0 to 8
      invariant canvas.View() == Resting(base, mask)
      invariant mask == 0 ==> bestPenalty == None && bestMask == 0
      invariant mask > 0 ==> FirstLeast(base, bestMask, mask) && bestPenalty == Some(CandidatePenalty(base, bestMask))
    {
      canvas.ApplyMask(mask);
      canvas.DrawFormatBits(mask);
      TrialShowsCandidate(base, mask, mask);
      var penalty := PenaltyScore(canvas);
      if bestPenalty.None? || penalty < bestPenalty.value {
        bestPenalty := Some(penalty);
        bestMask := mask;
      }
      canvas.ApplyMask(mask); // masking is its own inverse
      TrialLeavesData(base, mask);
    }
    canvas.ApplyMask(bestMask);
    canvas.DrawFormatBits(bestMask);
    TrialShowsCandidate(base, 8, bestMask);
  }

  /** What a mask would cost. */
  function MaskPenalty(bytes: seq<Byte>, version: Version, mask: nat): int
    requires Fits(version, |bytes|)
  {
    Penalty(Drawn(Encoded(bytes, version), version, mask).dark, Side(version))
  }

  /** The symbol shows the first mask of least penalty, in the smallest version that holds the payload. */
  ghost predicate BestSymbol(symbol: Symbol, version: Version, mask: nat, bytes: seq<Byte>) {
    && |bytes| <= Capacity(version) && (forall smaller: Version :: smaller < version ==> Capacity(smaller) < |bytes|)
    && Shows(symbol, version, mask)
    && Fits(version, |bytes|)
    && (forall m: nat :: m < 8 ==> MaskPenalty(bytes, version, mask) <= MaskPenalty(bytes, version, m))
    && (forall m: nat :: m < mask ==> MaskPenalty(bytes, version, mask) < MaskPenalty(bytes, version, m))
  }

  /** The smallest symbol carrying exactly these bytes, or none when no version holds them. */
  method EncodeQr(bytes: seq<Byte>) returns (code: Option<Canvas>)
    ensures code.None? <==> |bytes| > 2331
    ensures code.Some? ==> code.value.Valid()
    ensures code.Some? ==>
              exists version: Version, mask: nat ::
                var symbol := Symbol(code.value.size, code.value.View().dark);
                Carries(symbol, version, bytes) && BestSymbol(symbol, version, mask, bytes)
  {
    hide Fits, Carries, Shows, Encoded, Base, Candidate, FirstLeast, DataCodewordCount, Interleaved, Capacity;
    var found, version := SmallestVersion(|bytes|);
    CapacitiesUpTo(|bytes|);
    if !found {
      ghost var largest: Version := 40;
      assert !Fits(largest, |bytes|) && Capacity(largest) == 2331;
      return None;
    }
    var data := DataCodewordsFor(bytes, version);
    var codewords := Interleave(data[..], ShapeOf(version));
    EncodedIs(bytes, version);
    var canvas := BuildSymbol(codewords[..], version);
    ghost var mask: nat :| FirstLeast(Base(codewords[..], version), mask, 8) && canvas.View() == Candidate(Base(codewords[..], version), mask);
    ghost var symbol := Symbol(canvas.size, canvas.View().dark);
    MaskIsBest(bytes, version, mask, symbol);
    assert Carries(symbol, version, bytes) && BestSymbol(symbol, version, mask, bytes);
    return Some(canvas);
  }

  lemma CapacitiesUpTo(n: nat)
    ensures forall version: Version :: Fits(version, n) <==> n <= Capacity(version)
    ensures forall version: Version :: Capacity(version) <= Capacity(40) == 2331
  {
    hide Fits, Capacity;
    forall version: Version
      ensures Fits(version, n) <==> n <= Capacity(version)
      ensures Capacity(version) <= Capacity(40) == 2331
    {
      FitsExactly(version, n);
      CapacityBound(version);
    }
  }

  lemma CapacityBound(version: Version)
    ensures Capacity(version) <= Capacity(40) == 2331
  {}

  lemma MaskIsBest(bytes: seq<Byte>, version: Version, mask: nat, symbol: Symbol)
    requires Fits(version, |bytes|) && forall smaller: Version :: smaller < version ==> !Fits(smaller, |bytes|)
    requires FirstLeast(Base(Encoded(bytes, version), version), mask, 8)
    requires symbol == Symbol(Side(version), Candidate(Base(Encoded(bytes, version), version), mask).dark)
    ensures Carries(symbol, version, bytes) && BestSymbol(symbol, version, mask, bytes)
  {
    hide Fits, Capacity, Carries, Shows, Encoded, Base, Candidate, Penalty, Drawn;
    var stream := Encoded(bytes, version);
    CapacitiesUpTo(|bytes|);
    forall m: nat | m < 8
      ensures MaskPenalty(bytes, version, m) == CandidatePenalty(Base(stream, version), m)
    {
      DrawnIs(stream, version, m);
    }
    DrawnIs(stream, version, mask);
    DrawnShows(stream, version, mask);
    SymbolCarries(bytes, version, mask);
  }

  lemma EncodedIs(bytes: seq<Byte>, version: Version)
    requires Fits(version, |bytes|)
    ensures Encoded(bytes, version) == Interleaved(DataCodewords(bytes, version), ShapeOf(version))
  {}

  lemma DrawnIs(codewords: seq<Byte>, version: Version, mask: nat)
    ensures Drawn(codewords, version, mask) == Candidate(Base(codewords, version), mask)
  {}
}
