/** The Reed-Solomon codewords of one block. */
module ReedSolomon {
  import opened GaloisField

  /** Coefficients in descending order. */
  type Polynomial = seq<Byte>

  function Evaluate(p: Polynomial, x: Byte): Byte {
    if p == [] then 0 else Add(Times(Evaluate(p[..|p| - 1], x), x), p[|p| - 1])
  }

  function Raise(x: Byte, exponent: nat): Byte {
    if exponent == 0 then 1 else Times(Raise(x, exponent - 1), x)
  }

  /** The polynomial's coefficient at `index`, zero outside. */
  function At(p: Polynomial, index: int): Byte {
    if 0 <= index < |p| then p[index] else 0
  }

  function Zeros(length: nat): (p: Polynomial)
    ensures |p| == length
  {
    seq(length, _ => 0)
  }

  function Sum(p: Polynomial, q: Polynomial): (r: Polynomial)
    requires |p| == |q|
    ensures |r| == |p|
  {
    seq(|p|, i requires 0 <= i < |p| => Add(p[i], q[i]))
  }

  function Product(p: Polynomial, factor: Byte): (r: Polynomial)
    ensures |r| == |p|
  {
    seq(|p|, i requires 0 <= i < |p| => Times(p[i], factor))
  }

  /** A coefficient of p * (x - root). */
  function RootTerm(p: Polynomial, root: Byte, index: int): Byte {
    Add(At(p, index), Times(At(p, index - 1), root))
  }

  /** p * (x - root) */
  function TimesRoot(p: Polynomial, root: Byte): (r: Polynomial)
    ensures |r| == |p| + 1
  {
    seq(|p| + 1, i => RootTerm(p, root, i))
  }

  /** (x - 2^0)(x - 2^1) ... (x - 2^(degree-1)) */
  function Generator(degree: nat): (p: Polynomial)
    ensures |p| == degree + 1
  {
    if degree == 0 then [1] else TimesRoot(Generator(degree - 1), Raise(2, degree - 1))
  }

  function Shifted(r: Polynomial): (s: Polynomial)
    requires |r| > 0
    ensures |s| == |r|
  {
    r[1..] + [0]
  }

  function Remainder(data: seq<Byte>, divisor: Polynomial): (r: Polynomial)
    requires |divisor| > 0
    ensures |r| == |divisor|
  {
    if data == [] then Zeros(|divisor|)
    else
      var r := Remainder(data[..|data| - 1], divisor);
      Sum(Shifted(r), Product(divisor, Add(data[|data| - 1], r[0])))
  }

  // ----- The loops

  method ReedSolomonDivisor(degree: nat) returns (coefficients: array<Byte>)
    requires degree > 0
    ensures fresh(coefficients)
    ensures coefficients[..] == Generator(degree)[1..]
  {
    hide Add, Times, Generator, RootRound;
    coefficients := new Byte[degree](_ => 0);
    coefficients[degree - 1] := 1;
    var root: Byte := 1;
    FirstGenerator();
    for index := 0 to degree
      invariant root == Raise(2, index)
      invariant coefficients[..] == Padded(degree, index)
    {
      NextGenerator(degree, index, coefficients[..]);
      MultiplyByRoot(coefficients, root);
      root := Multiply(root, 2);
    }
  }

  /** The divisor under construction: the first `index` factors, without the coefficient of x^degree. */
  function Padded(degree: nat, index: nat): (p: Polynomial)
    requires index <= degree && degree > 0
    ensures |p| == degree
  {
    (Zeros(degree - index) + Generator(index))[1..]
  }

  lemma FirstGenerator()
    ensures Generator(0) == [1]
  {}

  /** What one round of the division's inner loop leaves in place of the coefficients. */
  function RootRound(before: Polynomial, root: Byte): (after: Polynomial)
    ensures |after| == |before|
  {
    seq(|before|, i => RootTerm(before, root, i + 1))
  }

  method MultiplyByRoot(coefficients: array<Byte>, root: Byte)
    modifies coefficients
    ensures coefficients[..] == RootRound(old(coefficients[..]), root)
  {
    hide Add, Times;
    ghost var before := coefficients[..];
    var degree := coefficients.Length;
    for term := 0 to degree
      invariant forall k :: term <= k < degree ==> coefficients[k] == before[k]
      invariant forall k :: 0 <= k < term ==> coefficients[k] == RootTerm(before, root, k + 1)
    {
      var product := Multiply(coefficients[term], root);
      coefficients[term] := product;
      if term + 1 < degree {
        AddLaws(product, before[term + 1]);
        coefficients[term] := Add(coefficients[term], coefficients[term + 1]);
      } else {
        AddLaws(product, 0);
      }
    }
  }

  lemma NextGenerator(degree: nat, index: nat, before: Polynomial)
    requires index < degree && before == Padded(degree, index)
    ensures RootRound(before, Raise(2, index)) == Padded(degree, index + 1)
  {
    hide Add, Times, Raise, Generator;
    var g, root := Generator(index), Raise(2, index);
    var after, next := RootRound(before, root), Zeros(degree - index - 1) + TimesRoot(g, root);
    assert Generator(index + 1) == TimesRoot(g, root) by { NextGeneratorIsProduct(index); }
    forall k | 0 <= k < degree
      ensures after[k] == next[1..][k]
    {
      var j := k + 1 - (degree - index - 1);
      assert At(before, k + 1) == At(g, j);
      assert At(before, k) == At(g, j - 1);
      assert after[k] == RootTerm(g, root, j);
      if j < 0 {
        TimesZero(root);
        AddLaws(0, 0);
      }
    }
  }

  lemma NextGeneratorIsProduct(index: nat)
    ensures Generator(index + 1) == TimesRoot(Generator(index), Raise(2, index))
  {
    hide TimesRoot;
  }

  method ReedSolomonRemainder(data: seq<Byte>, divisor: array<Byte>) returns (result: array<Byte>)
    requires divisor.Length > 0
    ensures fresh(result)
    ensures result[..] == Remainder(data, divisor[..])
  {
    hide Add, Times;
    result := new Byte[divisor.Length](_ => 0);
    for read := 0 to |data|
      invariant result[..] == Remainder(data[..read], divisor[..])
    {
      assert data[..read + 1][..read] == data[..read];
      DivideByte(data[read], divisor, result);
    }
    assert data[..|data|] == data;
  }

  method DivideByte(byte: Byte, divisor: array<Byte>, result: array<Byte>)
    requires divisor != result && divisor.Length == result.Length > 0
    modifies result
    ensures result[..] == Sum(Shifted(old(result[..])), Product(divisor[..], Add(byte, old(result[0]))))
  {
    hide Add, Times;
    ghost var before := result[..];
    var factor := Add(byte, result[0]);
    forall k | 0 <= k < result.Length - 1 {
      result[k] := result[k + 1];
    }
    result[result.Length - 1] := 0;
    ghost var shifted := result[..];
    assert shifted == Shifted(before);
    for index := 0 to divisor.Length
      invariant forall k :: index <= k < result.Length ==> result[k] == shifted[k]
      invariant forall k :: 0 <= k < index ==> result[k] == Add(shifted[k], Times(divisor[k], factor))
    {
      var term := Multiply(divisor[index], factor);
      result[index] := Add(result[index], term);
    }
    assert result[..] == Sum(shifted, Product(divisor[..], factor));
  }

  // ----- Evaluation is a homomorphism

  lemma {:induction false} EvaluateConcat(p: Polynomial, q: Polynomial, x: Byte)
    ensures Evaluate(p + q, x) == Add(Times(Evaluate(p, x), Raise(x, |q|)), Evaluate(q, x))
  {
    hide Add, Times;
    if q == [] {
      assert p + q == p;
      TimesOne(Evaluate(p, x));
      AddLaws(Evaluate(p, x), 0);
    } else {
      var init, last := q[..|q| - 1], q[|q| - 1];
      var e, power := Evaluate(p, x), Raise(x, |init|);
      assert (p + q)[..|p + q| - 1] == p + init;
      EvaluateConcat(p, init, x);
      LeftDistributive(Times(e, power), Evaluate(init, x), x);
      TimesAssociative(e, power, x);
      AddAssociative(Times(e, Times(power, x)), Times(Evaluate(init, x), x), last);
    }
  }

  lemma {:induction false} EvaluateSum(p: Polynomial, q: Polynomial, x: Byte)
    requires |p| == |q|
    ensures Evaluate(Sum(p, q), x) == Add(Evaluate(p, x), Evaluate(q, x))
  {
    hide Add, Times;
    if p == [] {
      AddLaws(0, 0);
    } else {
      var n := |p| - 1;
      assert Sum(p, q)[..n] == Sum(p[..n], q[..n]);
      EvaluateSum(p[..n], q[..n], x);
      var a, b := Evaluate(p[..n], x), Evaluate(q[..n], x);
      LeftDistributive(a, b, x);
      AddExchange(Times(a, x), Times(b, x), p[n], q[n]);
    }
  }

  lemma {:induction false} EvaluateProduct(p: Polynomial, factor: Byte, x: Byte)
    ensures Evaluate(Product(p, factor), x) == Times(Evaluate(p, x), factor)
  {
    hide Add, Times;
    if p == [] {
      TimesZero(factor);
    } else {
      var n := |p| - 1;
      assert Product(p, factor)[..n] == Product(p[..n], factor);
      EvaluateProduct(p[..n], factor, x);
      var a := Evaluate(p[..n], x);
      LeftDistributive(Times(a, x), p[n], factor);
      TimesAssociative(a, factor, x);
      TimesCommutative(factor, x);
      TimesAssociative(a, x, factor);
    }
  }

  lemma EvaluateTimesRoot(p: Polynomial, root: Byte, x: Byte)
    ensures Evaluate(TimesRoot(p, root), x) == Times(Evaluate(p, x), Add(x, root))
  {
    hide Add, Times;
    var high, low := p + [0], [0] + Product(p, root);
    TimesZero(root);
    assert TimesRoot(p, root) == Sum(high, low);
    EvaluateSum(high, low, x);
    assert high[..|p|] == p;
    AddLaws(Times(Evaluate(p, x), x), 0);
    EvaluateProduct(p, root, x);
    EvaluateConcat([0], Product(p, root), x);
    assert Evaluate([0], x) == Add(Times(0, x), 0);
    TimesZero(x);
    AddLaws(0, 0);
    TimesZero(Raise(x, |p|));
    AddLaws(Evaluate(Product(p, root), x), 0);
    RightDistributive(x, root, Evaluate(p, x));
  }

  /** The product of the differences between a point and the first powers of two. */
  function RootProduct(degree: nat, x: Byte): Byte {
    if degree == 0 then 1 else Times(RootProduct(degree - 1, x), Add(x, Raise(2, degree - 1)))
  }

  /** The value of the generator at any point is the product of its distances to the roots. */
  lemma {:induction false} GeneratorIsProduct(degree: nat, x: Byte)
    ensures Evaluate(Generator(degree), x) == RootProduct(degree, x)
  {
    hide Add, Times, TimesRoot;
    if degree == 0 {
      FirstGenerator();
      EvaluateOne(x);
    } else {
      GeneratorIsProduct(degree - 1, x);
      NextGeneratorIsProduct(degree - 1);
      EvaluateTimesRoot(Generator(degree - 1), Raise(2, degree - 1), x);
    }
  }

  lemma EvaluateOne(x: Byte)
    ensures Evaluate([1], x) == 1
  {
    assert [1][..0] == [];
    TimesZero(x);
    AddLaws(0, 1);
  }

  lemma {:induction false} GeneratorRoots(degree: nat, index: nat)
    requires index < degree
    ensures Evaluate(Generator(degree), Raise(2, index)) == 0
  {
    hide Add, Times;
    hide TimesRoot;
    var x, root := Raise(2, index), Raise(2, degree - 1);
    NextGeneratorIsProduct(degree - 1);
    var rest := Evaluate(Generator(degree - 1), x);
    EvaluateTimesRoot(Generator(degree - 1), root, x);
    if index == degree - 1 {
      AddLaws(x, x);
      TimesZero(rest);
    } else {
      GeneratorRoots(degree - 1, index);
      TimesZero(Add(x, root));
    }
  }

  /** Every root of the divisor is a root of the block followed by its remainder. */
  lemma {:induction false} CodewordRoot(data: seq<Byte>, divisor: Polynomial, x: Byte)
    requires |divisor| > 0
    requires Evaluate([1] + divisor, x) == 0
    ensures Evaluate(data + Remainder(data, divisor), x) == 0
  {
    hide Add, Times;
    var n := |divisor|;
    if data == [] {
      assert data + Remainder(data, divisor) == Zeros(n);
      EvaluateZeros(n, x);
    } else {
      var init, byte := data[..|data| - 1], data[|data| - 1];
      var r := Remainder(init, divisor);
      CodewordRoot(init, divisor, x);
      EvaluateConcat(init, r, x);
      RemainderStep(r, divisor, byte, x);
      EvaluateConcat(data, Remainder(data, divisor), x);
      CancelStep(Evaluate(init, x), Evaluate(r, x), byte, Raise(x, n), x);
    }
  }

  lemma {:induction false} EvaluateZeros(length: nat, x: Byte)
    ensures Evaluate(Zeros(length), x) == 0
  {
    hide Add, Times;
    if length > 0 {
      assert Zeros(length)[..length - 1] == Zeros(length - 1);
      EvaluateZeros(length - 1, x);
      TimesZero(x);
      AddLaws(0, 0);
    }
  }

  /** One step of the division turns the remainder R into x R + byte x^n, at every root. */
  lemma RemainderStep(r: Polynomial, divisor: Polynomial, byte: Byte, x: Byte)
    requires |r| == |divisor| > 0
    requires Evaluate([1] + divisor, x) == 0
    ensures Evaluate(Sum(Shifted(r), Product(divisor, Add(byte, r[0]))), x) ==
            Add(Times(Evaluate(r, x), x), Times(byte, Raise(x, |r|)))
  {
    hide Add, Times;
    var n, factor := |r|, Add(byte, r[0]);
    var tail := r[1..];
    var power := Raise(x, n);
    EvaluateSum(Shifted(r), Product(divisor, factor), x);
    EvaluateProduct(divisor, factor, x);
    DivisorAtRoot(divisor, x);
    assert Shifted(r)[..n - 1] == tail;
    var t := Times(Evaluate(tail, x), x);
    AddLaws(t, 0);
    assert Evaluate(Shifted(r), x) == t;
    assert Times(Evaluate(r, x), x) == Add(Times(r[0], power), t) by {
      EvaluateHead(r[0], tail, x);
      assert [r[0]] + tail == r;
      LeftDistributive(Times(r[0], Raise(x, n - 1)), Evaluate(tail, x), x);
      TimesAssociative(r[0], Raise(x, n - 1), x);
    }
    TimesCommutative(power, factor);
    LeftDistributive(byte, r[0], power);
    var a, b := Times(r[0], power), Times(byte, power);
    // t + (b + a) == (a + t) + b
    AddAssociative(t, b, a);
    AddLaws(Add(t, b), a);
    AddAssociative(a, t, b);
  }

  lemma EvaluateHead(head: Byte, tail: Polynomial, x: Byte)
    ensures Evaluate([head] + tail, x) == Add(Times(head, Raise(x, |tail|)), Evaluate(tail, x))
  {
    hide Add, Times;
    EvaluateConcat([head], tail, x);
    assert [head][..0] == [];
    assert Evaluate([head], x) == Add(Times(0, x), head);
    TimesZero(x);
    AddLaws(head, 0);
  }

  lemma DivisorAtRoot(divisor: Polynomial, x: Byte)
    requires Evaluate([1] + divisor, x) == 0
    ensures Evaluate(divisor, x) == Raise(x, |divisor|)
  {
    hide Add, Times;
    EvaluateHead(1, divisor, x);
    TimesOne(Raise(x, |divisor|));
    AddCancel(Raise(x, |divisor|), Evaluate(divisor, x));
  }

  lemma AddCancel(a: Byte, b: Byte)
    requires Add(a, b) == 0
    ensures a == b
  {
    hide Add;
    AddAssociative(a, b, b);
    AddLaws(b, b);
    AddLaws(a, 0);
    AddLaws(b, 0);
  }

  lemma CancelStep(d: Byte, r: Byte, byte: Byte, power: Byte, x: Byte)
    requires Add(Times(d, power), r) == 0
    ensures Add(Times(Add(Times(d, x), byte), power), Add(Times(r, x), Times(byte, power))) == 0
  {
    hide Add, Times;
    AddCancel(Times(d, power), r);
    LeftDistributive(Times(d, x), byte, power);
    TimesAssociative(d, x, power);
    TimesCommutative(x, power);
    TimesAssociative(d, power, x);
    var s := Add(Times(r, x), Times(byte, power));
    AddLaws(s, s);
  }

  /** The syndromes of a block and its error-correction codewords are all zero. */
  lemma SyndromesVanish(block: seq<Byte>, degree: nat, index: nat)
    requires index < degree
    ensures Evaluate(block + Remainder(block, Generator(degree)[1..]), Raise(2, index)) == 0
  {
    LeadingCoefficient(degree);
    assert [1] + Generator(degree)[1..] == Generator(degree);
    GeneratorRoots(degree, index);
    CodewordRoot(block, Generator(degree)[1..], Raise(2, index));
  }

  lemma {:induction false} LeadingCoefficient(degree: nat)
    ensures Generator(degree)[0] == 1
  {
    hide Add, Times;
    if degree > 0 {
      LeadingCoefficient(degree - 1);
      TimesZero(Raise(2, degree - 1));
      AddLaws(1, 0);
    }
  }
}
