/** Format and version words are words of the standard's BCH codes. */
module BchCodes {
  import opened Arithmetic
  import opened GaloisField
  import opened Pictures
  import opened StandardSymbols
  import opened Versions

  lemma {:induction false} RegisterBound(data: nat, steps: nat, top: nat, generator: nat)
    requires data < PowerOfTwo(top + 1) <= generator < PowerOfTwo(top + 2)
    ensures BchRemainder(data, steps, top, generator) < PowerOfTwo(top + 1)
  {
    hide Xor, ShiftRight;
    if steps > 0 {
      RegisterBound(data, steps - 1, top, generator);
      var before := BchRemainder(data, steps - 1, top, generator);
      ShiftRightTop(before, top);
      if before >= PowerOfTwo(top) {
        XorTopBit(2 * before, generator, top + 1);
      } else {
        XorZero(2 * before);
      }
    }
  }

  /** The shift register divides: data shifted up and the remainder differ by a multiple of the generator. */
  lemma {:induction false} RegisterDivides(data: nat, steps: nat, top: nat, generator: nat) returns (q: nat)
    requires data < PowerOfTwo(top + 1) <= generator < PowerOfTwo(top + 2)
    ensures PolynomialProduct(q, generator) == Xor(ShiftLeft(data, steps), BchRemainder(data, steps, top, generator))
  {
    hide Xor, ShiftRight;
    if steps == 0 {
      q := 0;
      XorZero(data);
    } else {
      var before, shifted := BchRemainder(data, steps - 1, top, generator), ShiftLeft(data, steps - 1);
      var p := RegisterDivides(data, steps - 1, top, generator);
      RegisterBound(data, steps - 1, top, generator);
      ShiftRightTop(before, top);
      var bit := ShiftRight(before, top);
      q := 2 * p + bit;
      var term := if bit == 1 then generator else 0;
      assert bit * generator == term;
      XorAssociative(2 * shifted, 2 * before, term);
      XorEven(shifted, before);
      XorZero(0);
    }
  }

  lemma {:induction false} XorDisjoint(value: nat, low: nat, count: nat)
    requires low < PowerOfTwo(count)
    ensures Xor(ShiftLeft(value, count), low) == ShiftLeft(value, count) + low
  {
    if count == 0 {
      XorZero(value);
    } else {
      XorDisjoint(value, low / 2, count - 1);
    }
  }

  lemma {:induction false} ShiftLeftIs(value: nat, count: nat)
    ensures ShiftLeft(value, count) == value * PowerOfTwo(count)
  {
    if count > 0 {
      ShiftLeftIs(value, count - 1);
    }
  }

  lemma {:induction false} ShiftRightIs(value: nat, count: nat)
    ensures ShiftRight(value, count) == value / PowerOfTwo(count)
  {
    if count > 0 {
      ShiftRightIs(value / 2, count - 1);
      HalfQuotient(value, PowerOfTwo(count - 1));
    }
  }

  lemma HalfQuotient(value: nat, power: nat)
    requires power > 0
    ensures value / 2 / power == value / (2 * power)
  {
    var q, r := value / 2 / power, value / 2 % power;
    DivisionIdentity(value / 2, power);
    assert value == q * (2 * power) + (2 * r + value % 2);
    QuotientUnique(value, 2 * power, q, 2 * r + value % 2);
  }

  lemma BitIsDigit(word: nat, i: nat)
    ensures BitAt(word, i) <==> HasBit(word, i)
  {
    ShiftRightIs(word, i);
  }

  /** Data in front, the check behind it: a word of the code. */
  lemma SystematicWord(data: nat, top: nat, generator: nat)
    requires data < PowerOfTwo(top + 1) <= generator < PowerOfTwo(top + 2)
    ensures var word := Or(ShiftLeft(data, top + 1), BchRemainder(data, top + 1, top, generator));
            word / PowerOfTwo(top + 1) == data && BchWord(word, generator)
  {
    hide Xor, Or, BchRemainder, ShiftLeft;
    var check := BchRemainder(data, top + 1, top, generator);
    RegisterBound(data, top + 1, top, generator);
    OrDisjoint(data, check, top + 1);
    XorDisjoint(data, check, top + 1);
    ShiftLeftIs(data, top + 1);
    QuotientUnique(data * PowerOfTwo(top + 1) + check, PowerOfTwo(top + 1), data, check);
    var q := RegisterDivides(data, top + 1, top, generator);
  }

  lemma FormatIsWord(mask: nat)
    requires mask < 8
    ensures var plain := Xor(FormatBits(mask), 0x5412); plain / 0x400 == mask && BchWord(plain, 0x537)
  {
    hide Xor, Or, BchRemainder, ShiftLeft, BchWord;
    PowersOfTwo();
    SmallPowers();
    SystematicWord(mask, 9, 0x537);
    var word := Or(ShiftLeft(mask, 10), BchRemainder(mask, 10, 9, 0x537));
    XorAssociative(word, 0x5412, 0x5412);
    XorZero(0x5412);
    XorZero(word);
  }

  lemma VersionIsWord(version: Version)
    ensures VersionBits(version) / 0x1000 == version && BchWord(VersionBits(version), 0x1f25)
  {
    hide Xor, Or, BchRemainder, ShiftLeft, BchWord;
    PowersOfTwo();
    SmallPowers();
    SystematicWord(version, 11, 0x1f25);
  }

  lemma SmallPowers()
    ensures PowerOfTwo(11) == 0x800 && PowerOfTwo(12) == 0x1000
  {
    assert PowerOfTwo(10) == 0x400 by { PowersOfTwo(); }
  }

  // ----- No two words agree in front

  lemma {:induction false} XorKeepsTop(a: nat, b: nat, top: nat)
    requires b < PowerOfTwo(top) <= a
    ensures Xor(a, b) >= PowerOfTwo(top)
  {
    hide Xor;
    if top == 0 {
      XorZero(a);
    } else {
      XorStep(a, b);
      XorKeepsTop(a / 2, b / 2, top - 1);
    }
  }

  lemma {:induction false} ProductTop(q: nat, top: nat, generator: nat)
    requires q > 0 && PowerOfTwo(top) <= generator < PowerOfTwo(top + 1)
    ensures PolynomialProduct(q, generator) >= PowerOfTwo(top)
  {
    hide Xor;
    var half := 2 * PolynomialProduct(q / 2, generator);
    XorZero(half);
    XorZero(generator);
    if q / 2 > 0 {
      ProductTop(q / 2, top, generator);
      XorKeepsTop(half, generator, top + 1);
    }
  }

  lemma {:induction false} ProductAdds(p: nat, q: nat, generator: nat)
    ensures PolynomialProduct(Xor(p, q), generator) == Xor(PolynomialProduct(p, generator), PolynomialProduct(q, generator))
    decreases p + q
  {
    hide Xor;
    XorStep(p, q);
    XorZero(generator);
    XorZero(0);
    if p != 0 || q != 0 {
      ProductAdds(p / 2, q / 2, generator);
      var a, b := PolynomialProduct(p / 2, generator), PolynomialProduct(q / 2, generator);
      var s, t := if Odd(p) then generator else 0, if Odd(q) then generator else 0;
      XorEven(a, b);
      XorExchange(2 * a, s, 2 * b, t);
      ProductStep(p, generator);
      ProductStep(q, generator);
      ProductStep(Xor(p, q), generator);
    }
  }

  lemma ProductStep(q: nat, generator: nat)
    ensures PolynomialProduct(q, generator) == Xor(2 * PolynomialProduct(q / 2, generator), if Odd(q) then generator else 0)
  {
    if q == 0 {
      XorZero(0);
    }
  }

  lemma {:induction false} XorLow(a: nat, b: nat, count: nat)
    requires a / PowerOfTwo(count) == b / PowerOfTwo(count)
    ensures Xor(a, b) < PowerOfTwo(count)
  {
    hide Xor;
    XorStep(a, b);
    if count == 0 {
      XorZero(a);
    } else {
      HalfQuotient(a, PowerOfTwo(count - 1));
      HalfQuotient(b, PowerOfTwo(count - 1));
      XorLow(a / 2, b / 2, count - 1);
    }
  }

  /** No two words of the code agree in front of the check. */
  lemma WordsApart(a: nat, b: nat, top: nat, generator: nat)
    requires PowerOfTwo(top) <= generator < PowerOfTwo(top + 1)
    requires BchWord(a, generator) && BchWord(b, generator) && a / PowerOfTwo(top) == b / PowerOfTwo(top)
    ensures a == b
  {
    hide Xor, PolynomialProduct;
    var p: nat :| PolynomialProduct(p, generator) == a;
    var q: nat :| PolynomialProduct(q, generator) == b;
    ProductAdds(p, q, generator);
    XorLow(a, b, top);
    if Xor(p, q) > 0 {
      ProductTop(Xor(p, q), top, generator);
    }
    SameXor(p, q);
  }

  lemma SameXor(a: nat, b: nat)
    ensures Xor(a, b) == 0 ==> a == b
  {
    hide Xor;
    if Xor(a, b) == 0 {
      XorAssociative(a, b, b);
      XorZero(b);
      XorZero(a);
    }
  }
}
