/**
 Arithmetic on codeword bytes: the bitwise operations of web/src/lib/qr.ts on non-negative
 numbers, and multiplication in GF(2^8) modulo x^8 + x^4 + x^3 + x^2 + 1.
 */
module GaloisField {

  type Byte = value: nat | value < 0x100

  // ----- Bitwise operations on numbers

  predicate Odd(value: nat) { value % 2 == 1 }

  /** value >>> count */
  function ShiftRight(value: nat, count: nat): nat {
    if count == 0 then value else ShiftRight(value / 2, count - 1)
  }

  /** ((value >>> index) & 1) !== 0 */
  predicate BitAt(value: nat, index: nat) {
    Odd(ShiftRight(value, index))
  }

  /** left ^ right */
  function Xor(left: nat, right: nat): nat {
    if left == 0 && right == 0 then 0
    else 2 * Xor(left / 2, right / 2) + if Odd(left) != Odd(right) then 1 else 0
  }

  /** left | right */
  function Or(left: nat, right: nat): nat {
    if left == 0 && right == 0 then 0
    else 2 * Or(left / 2, right / 2) + if Odd(left) || Odd(right) then 1 else 0
  }

  /** value << count */
  function ShiftLeft(value: nat, count: nat): nat {
    if count == 0 then value else 2 * ShiftLeft(value, count - 1)
  }

  function PowerOfTwo(exponent: nat): (power: nat)
    ensures power > 0
  {
    if exponent == 0 then 1 else 2 * PowerOfTwo(exponent - 1)
  }

  lemma PowersOfTwo()
    ensures PowerOfTwo(3) == 8
    ensures PowerOfTwo(4) == 16
    ensures PowerOfTwo(7) == 0x80
    ensures PowerOfTwo(8) == 0x100
    ensures PowerOfTwo(9) == 0x200
    ensures PowerOfTwo(10) == 0x400
    ensures PowerOfTwo(13) == 0x2000
    ensures PowerOfTwo(14) == 0x4000
    ensures PowerOfTwo(16) == 0x10000
  {
    assert PowerOfTwo(2) == 4;
    assert PowerOfTwo(6) == 64;
    assert PowerOfTwo(10) == 1024;
    assert PowerOfTwo(12) == 4096;
    assert PowerOfTwo(14) == 0x4000;
  }

  lemma {:induction false} ShiftRightStep(value: nat, count: nat)
    ensures ShiftRight(value, count + 1) == ShiftRight(value, count) / 2
  {
    if count > 0 {
      ShiftRightStep(value / 2, count - 1);
    }
  }

  lemma {:induction false} ShiftRightBound(value: nat, count: nat)
    ensures ShiftRight(value, count) <= value
    ensures value < PowerOfTwo(count) ==> ShiftRight(value, count) == 0
  {
    if count > 0 {
      ShiftRightBound(value / 2, count - 1);
    }
  }

  lemma {:induction false} ShiftLeftBound(value: nat, width: nat, count: nat)
    requires value < PowerOfTwo(width)
    ensures ShiftLeft(value, count) < PowerOfTwo(width + count)
  {
    if count > 0 {
      ShiftLeftBound(value, width, count - 1);
    }
  }

  lemma {:induction false} ShiftLeftZero(count: nat)
    ensures ShiftLeft(0, count) == 0
  {
    if count > 0 {
      ShiftLeftZero(count - 1);
    }
  }

  lemma {:induction false} ShiftLeftTwice(value: nat, count: nat)
    ensures ShiftLeft(2 * value, count) == ShiftLeft(value, count + 1)
  {
    if count > 0 {
      ShiftLeftTwice(value, count - 1);
    }
  }

  /** A bit is or-ed in below the digits already there. */
  lemma {:induction false} OrBelow(value: nat, bit: bool, count: nat)
    ensures Or(ShiftLeft(value, count + 1), ShiftLeft(if bit then 1 else 0, count)) ==
            ShiftLeft(2 * value + if bit then 1 else 0, count)
  {
    ShiftLeftTwice(value, count);
    if count == 0 {
      OrZero(value);
    } else {
      OrBelow(value, bit, count - 1);
      ShiftLeftTwice(value, count - 1);
    }
  }

  lemma {:induction false} OrZero(value: nat)
    ensures Or(value, 0) == value
  {
    if value != 0 {
      OrZero(value / 2);
    }
  }

  /** Digits or-ed in where a shift has left zeros. */
  lemma {:induction false} OrDisjoint(value: nat, low: nat, count: nat)
    requires low < PowerOfTwo(count)
    ensures Or(ShiftLeft(value, count), low) == ShiftLeft(value, count) + low
    ensures ShiftRight(ShiftLeft(value, count) + low, count) == value
  {
    if count == 0 {
      OrZero(value);
    } else {
      OrDisjoint(value, low / 2, count - 1);
    }
  }

  lemma {:induction false} ShiftRightTop(value: nat, count: nat)
    requires value < 2 * PowerOfTwo(count)
    ensures ShiftRight(value, count) == if value < PowerOfTwo(count) then 0 else 1
  {
    if count > 0 {
      ShiftRightTop(value / 2, count - 1);
    }
  }

  lemma XorStep(a: nat, b: nat)
    ensures Xor(a, b) / 2 == Xor(a / 2, b / 2)
    ensures Odd(Xor(a, b)) <==> Odd(a) != Odd(b)
  {}

  lemma SameHalves(a: nat, b: nat)
    requires a / 2 == b / 2 && (Odd(a) <==> Odd(b))
    ensures a == b
  {}

  lemma {:induction false} XorCommutative(a: nat, b: nat)
    ensures Xor(a, b) == Xor(b, a)
    decreases a + b
  {
    if a != 0 || b != 0 {
      XorCommutative(a / 2, b / 2);
    }
  }

  lemma {:induction false} XorZero(a: nat)
    ensures Xor(a, 0) == a
    ensures Xor(0, a) == a
    ensures Xor(a, a) == 0
  {
    if a != 0 {
      XorZero(a / 2);
    }
  }

  lemma {:induction false} XorAssociative(a: nat, b: nat, c: nat)
    ensures Xor(Xor(a, b), c) == Xor(a, Xor(b, c))
    decreases a + b + c
  {
    if a == 0 && b == 0 && c == 0 {
      XorZero(0);
    } else {
      XorAssociative(a / 2, b / 2, c / 2);
      XorHalves(a, b, c);
      SameHalves(Xor(Xor(a, b), c), Xor(a, Xor(b, c)));
    }
  }

  lemma XorHalves(a: nat, b: nat, c: nat)
    ensures Xor(Xor(a, b), c) / 2 == Xor(Xor(a / 2, b / 2), c / 2)
    ensures Xor(a, Xor(b, c)) / 2 == Xor(a / 2, Xor(b / 2, c / 2))
    ensures Odd(Xor(Xor(a, b), c)) == Odd(Xor(a, Xor(b, c)))
  {
    hide Xor, Odd;
    XorStep(a, b);
    XorStep(Xor(a, b), c);
    XorStep(b, c);
    XorStep(a, Xor(b, c));
  }

  lemma XorExchange(a: nat, b: nat, c: nat, d: nat)
    ensures Xor(Xor(a, b), Xor(c, d)) == Xor(Xor(a, c), Xor(b, d))
  {
    hide Xor;
    XorAssociative(a, b, Xor(c, d));
    XorAssociative(b, c, d);
    XorCommutative(b, c);
    XorAssociative(c, b, d);
    XorAssociative(a, c, Xor(b, d));
  }

  lemma {:induction false} XorTopBit(a: nat, b: nat, top: nat)
    requires a < 2 * PowerOfTwo(top) && b < 2 * PowerOfTwo(top)
    ensures Xor(a, b) < 2 * PowerOfTwo(top)
    ensures Xor(a, b) < PowerOfTwo(top) <==> (a < PowerOfTwo(top) <==> b < PowerOfTwo(top))
  {
    hide Xor;
    XorStep(a, b);
    if top > 0 {
      XorTopBit(a / 2, b / 2, top - 1);
    } else {
      XorZero(a);
      XorZero(b);
    }
  }

  lemma {:induction false} BitOfXor(a: nat, b: nat, index: nat)
    ensures BitAt(Xor(a, b), index) <==> BitAt(a, index) != BitAt(b, index)
  {
    hide Xor;
    XorStep(a, b);
    if index > 0 {
      BitOfXor(a / 2, b / 2, index - 1);
    }
  }

  // ----- Addition and multiplication of bytes

  function Add(a: Byte, b: Byte): Byte {
    PowersOfTwo();
    XorTopBit(a, b, 7);
    Xor(a, b)
  }

  /** value * x: shift left, and reduce when bit 8 appears. */
  function Double(value: Byte): Byte {
    PowersOfTwo();
    XorTopBit(2 * value, 0x11d, 8);
    if value < 0x80 then 2 * value else Xor(2 * value, 0x11d)
  }

  function Scale(bit: bool, value: Byte): Byte { if bit then value else 0 }

  /** Horner's rule over the bits of the right factor, highest first. */
  function Times(left: Byte, right: Byte): Byte {
    if right == 0 then 0
    else Add(Double(Times(left, right / 2)), Scale(Odd(right), left))
  }

  method Multiply(left: Byte, right: Byte) returns (result: Byte)
    ensures result == Times(left, right)
  {
    hide Xor, Times, BitAt;
    var product := 0;
    var bit := 8;
    PowersOfTwo();
    ShiftRightBound(right, 8);
    TimesZero(left);
    while bit > 0
      invariant 0 <= bit <= 8
      invariant ShiftRight(right, bit) <= right
      invariant product == Times(left, ShiftRight(right, bit))
    {
      bit := bit - 1;
      ghost var before: Byte := product;
      product := Xor(product * 2, product / 0x80 * 0x11d);
      ReducedShift(before);
      product := Xor(product, (if BitAt(right, bit) then 1 else 0) * left);
      HornerStep(left, right, bit);
    }
    result := product % 0x100;
  }

  lemma ReducedShift(value: Byte)
    ensures Xor(value * 2, value / 0x80 * 0x11d) == Double(value)
  {
    hide Xor;
    XorZero(2 * value);
    assert value / 0x80 * 0x11d == if value < 0x80 then 0 else 0x11d;
  }

  lemma HornerStep(left: Byte, right: Byte, bit: nat)
    ensures ShiftRight(right, bit) <= right
    ensures ShiftRight(right, bit + 1) <= right
    ensures Times(left, ShiftRight(right, bit)) ==
            Xor(Double(Times(left, ShiftRight(right, bit + 1))), (if BitAt(right, bit) then 1 else 0) * left)
  {
    hide Xor, Times;
    ShiftRightStep(right, bit);
    ShiftRightBound(right, bit);
    ShiftRightBound(right, bit + 1);
    TimesStep(left, ShiftRight(right, bit));
  }

  // ----- Laws of addition

  lemma AddLaws(a: Byte, b: Byte)
    ensures Add(a, b) == Add(b, a)
    ensures Add(a, 0) == a
    ensures Add(0, a) == a
    ensures Add(a, a) == 0
  {
    hide Xor;
    XorCommutative(a, b);
    XorZero(a);
  }

  lemma AddAssociative(a: Byte, b: Byte, c: Byte)
    ensures Add(Add(a, b), c) == Add(a, Add(b, c))
  {
    hide Xor;
    XorAssociative(a, b, c);
  }

  lemma AddExchange(a: Byte, b: Byte, c: Byte, d: Byte)
    ensures Add(Add(a, b), Add(c, d)) == Add(Add(a, c), Add(b, d))
  {
    hide Xor;
    XorExchange(a, b, c, d);
  }

  lemma AddHalves(a: Byte, b: Byte)
    ensures Add(a, b) / 2 == Add(a / 2, b / 2)
    ensures Odd(Add(a, b)) <==> Odd(a) != Odd(b)
  {
    hide Xor;
    XorStep(a, b);
  }

  lemma ScaleXor(s: bool, t: bool, a: Byte)
    ensures Add(Scale(s, a), Scale(t, a)) == Scale(s != t, a)
  {
    hide Add;
    AddLaws(a, a);
    AddLaws(a, 0);
    AddLaws(0, 0);
  }

  lemma ScaleAdd(s: bool, a: Byte, b: Byte)
    ensures Scale(s, Add(a, b)) == Add(Scale(s, a), Scale(s, b))
  {
    hide Add;
    AddLaws(0, 0);
  }

  lemma DoubleAdd(a: Byte, b: Byte)
    ensures Double(Add(a, b)) == Add(Double(a), Double(b))
  {
    hide Xor;
    PowersOfTwo();
    XorTopBit(a, b, 7);
    XorEven(a, b);
    XorZero(0x11d);
    if a >= 0x80 && b >= 0x80 {
      XorExchange(2 * a, 0x11d, 2 * b, 0x11d);
      XorZero(2 * Xor(a, b));
    } else if a >= 0x80 {
      XorAssociative(2 * a, 0x11d, 2 * b);
      XorCommutative(0x11d, 2 * b);
      XorAssociative(2 * a, 2 * b, 0x11d);
    } else if b >= 0x80 {
      XorAssociative(2 * a, 2 * b, 0x11d);
    }
  }

  lemma XorEven(a: nat, b: nat)
    ensures Xor(2 * a, 2 * b) == 2 * Xor(a, b)
  {
    hide Xor;
    XorStep(2 * a, 2 * b);
  }

  // ----- Laws of multiplication

  lemma {:induction false} TimesZero(a: Byte)
    ensures Times(a, 0) == 0
    ensures Times(0, a) == 0
  {
    hide Add;
    AddLaws(0, 0);
    if a != 0 {
      TimesZero(a / 2);
    }
  }

  lemma TimesStep(a: Byte, b: Byte)
    ensures Times(a, b) == Add(Double(Times(a, b / 2)), Scale(Odd(b), a))
  {
    hide Add;
    AddLaws(0, 0);
  }

  lemma {:induction false} TimesOne(a: Byte)
    ensures Times(1, a) == a
    ensures Times(a, 1) == a
  {
    hide Xor;
    TimesStep(a, 1);
    AddLaws(a, 0);
    TimesZero(a);
    TimesStep(1, a);
    if a != 0 {
      TimesOne(a / 2);
      AddLowBit(a / 2, Odd(a));
    }
  }

  lemma AddLowBit(half: Byte, bit: bool)
    requires half < 0x80
    ensures Add(2 * half, if bit then 1 else 0) == 2 * half + if bit then 1 else 0
  {
    hide Xor;
    XorStep(2 * half, if bit then 1 else 0);
    XorZero(half);
  }

  lemma {:induction false} LeftDistributive(a: Byte, b: Byte, c: Byte)
    ensures Times(Add(a, b), c) == Add(Times(a, c), Times(b, c))
    decreases c
  {
    hide Add, Double, Scale;
    if c == 0 {
      AddLaws(0, 0);
    } else {
      var h, bit := c / 2, Odd(c);
      LeftDistributive(a, b, h);
      DoubleAdd(Times(a, h), Times(b, h));
      ScaleAdd(bit, a, b);
      AddExchange(Double(Times(a, h)), Scale(bit, a), Double(Times(b, h)), Scale(bit, b));
    }
  }

  lemma {:induction false} RightDistributive(a: Byte, b: Byte, c: Byte)
    ensures Times(c, Add(a, b)) == Add(Times(c, a), Times(c, b))
    decreases a + b
  {
    hide Add, Double, Scale, Times;
    if a == 0 && b == 0 {
      AddLaws(0, 0);
      TimesZero(c);
    } else {
      RightDistributive(a / 2, b / 2, c);
      TimesStep(c, Add(a, b));
      TimesStep(c, a);
      TimesStep(c, b);
      AddHalves(a, b);
      DoubleAdd(Times(c, a / 2), Times(c, b / 2));
      ScaleXor(Odd(a), Odd(b), c);
      AddExchange(Double(Times(c, a / 2)), Double(Times(c, b / 2)), Scale(Odd(a), c), Scale(Odd(b), c));
    }
  }

  lemma {:induction false} TimesDoubleLeft(a: Byte, b: Byte)
    ensures Times(Double(a), b) == Double(Times(a, b))
    decreases b
  {
    hide Add, Double, Times;
    TimesStep(a, b);
    TimesStep(Double(a), b);
    if b == 0 {
      TimesZero(a);
      TimesZero(Double(a));
      DoubleZero();
    } else {
      var h := b / 2;
      TimesDoubleLeft(a, h);
      DoubleAdd(Double(Times(a, h)), Scale(Odd(b), a));
      DoubleZero();
    }
  }

  lemma DoubleZero()
    ensures Double(0) == 0
  {}

  lemma {:induction false} TimesCommutative(a: Byte, b: Byte)
    ensures Times(a, b) == Times(b, a)
    decreases b
  {
    hide Add, Times;
    TimesZero(a);
    if b != 0 {
      var h, bit := b / 2, Odd(b);
      TimesCommutative(a, h);
      TimesStep(a, b);
      TimesDoubleLeft(h, a);
      AddLowBit(h, bit);
      LeftDistributive(2 * h, if bit then 1 else 0, a);
      TimesOne(a);
    }
  }

  lemma TimesDoubleRight(a: Byte, b: Byte)
    ensures Times(a, Double(b)) == Double(Times(a, b))
  {
    hide Double, Times;
    TimesCommutative(a, Double(b));
    TimesCommutative(a, b);
    TimesDoubleLeft(b, a);
  }

  lemma {:induction false} TimesAssociative(a: Byte, b: Byte, c: Byte)
    ensures Times(Times(a, b), c) == Times(a, Times(b, c))
    decreases c
  {
    hide Add, Double, Times;
    TimesZero(a);
    TimesZero(b);
    TimesZero(Times(a, b));
    if c != 0 {
      var h := c / 2;
      TimesAssociative(a, b, h);
      TimesStep(Times(a, b), c);
      TimesStep(b, c);
      TimesDoubleRight(a, Times(b, h));
      RightDistributive(Double(Times(b, h)), Scale(Odd(c), b), a);
    }
  }
}
