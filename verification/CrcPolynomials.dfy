/** What the CRC-32 register means: the remainder of the message polynomial on division by the
generator polynomial, over the field of two elements.
*/
module CrcPolynomials {
  import opened Bits
  import opened Crc32

  /** A polynomial, as the set of the exponents whose coefficient is 1. */
  type Poly = set<nat>

  function Plus(a: Poly, b: Poly): Poly { (a - b) + (b - a) }

  function TimesX(a: Poly): Poly { set i | i in a :: i + 1 }

  function Shift(a: Poly, n: nat): Poly {
    if n == 0 then a else TimesX(Shift(a, n - 1))
  }

  /** The product with p of the polynomial that has these coefficients, the highest first. */
  function Times(q: seq<bool>, p: Poly): Poly
    decreases |q|
  {
    if q == [] then {} else
      var n := |q| - 1;
      Plus(TimesX(Times(q[..n], p)), if q[n] then p else {})
  }

  /** The generator of RFC 1952, section 8, and ISO 3309. */
  const GENERATOR: Poly := {32, 26, 23, 22, 16, 12, 11, 10, 8, 7, 5, 4, 2, 1, 0}

  // ---------------------------------------------------------------- the register as a polynomial

  /** The lowest bit of the register is the coefficient of x^31. */
  function Coefficient(c: bv32, i: nat): bool
    requires i < 32
  {
    Bit(c, 31 - i)
  }

  function Reg(c: bv32): Poly { set i: nat | i < 32 && Coefficient(c, i) }

  lemma {:induction false} BitOfXor(a: bv32, b: bv32, j: nat)
    ensures Bit(Xor(a, b), j) <==> Bit(a, j) != Bit(b, j)
    decreases j
  {
    hide Half, Odd, Xor;
    HalfIsLinear(a, b);
    if j > 0 { BitOfXor(Half(a), Half(b), j - 1); }
  }

  lemma PolynomialByte0()
    ensures !Bit(0xEDB8_8320, 0) && !Bit(0xEDB8_8320, 1) && !Bit(0xEDB8_8320, 2) && !Bit(0xEDB8_8320, 3)
    ensures !Bit(0xEDB8_8320, 4) && Bit(0xEDB8_8320, 5) && !Bit(0xEDB8_8320, 6) && !Bit(0xEDB8_8320, 7)
  {}

  lemma PolynomialByte1()
    ensures Bit(0x00ED_B883, 0) && Bit(0x00ED_B883, 1) && !Bit(0x00ED_B883, 2) && !Bit(0x00ED_B883, 3)
    ensures !Bit(0x00ED_B883, 4) && !Bit(0x00ED_B883, 5) && !Bit(0x00ED_B883, 6) && Bit(0x00ED_B883, 7)
  {}

  lemma PolynomialByte2()
    ensures !Bit(0x0000_EDB8, 0) && !Bit(0x0000_EDB8, 1) && !Bit(0x0000_EDB8, 2) && Bit(0x0000_EDB8, 3)
    ensures Bit(0x0000_EDB8, 4) && Bit(0x0000_EDB8, 5) && !Bit(0x0000_EDB8, 6) && Bit(0x0000_EDB8, 7)
  {}

  lemma PolynomialByte3()
    ensures Bit(0x0000_00ED, 0) && !Bit(0x0000_00ED, 1) && Bit(0x0000_00ED, 2) && Bit(0x0000_00ED, 3)
    ensures !Bit(0x0000_00ED, 4) && Bit(0x0000_00ED, 5) && Bit(0x0000_00ED, 6) && Bit(0x0000_00ED, 7)
  {}

  /** The constant of the code holds the coefficients of the generator below x^32. */
  lemma PolynomialIsGenerator(i: nat)
    requires i < 32
    ensures Coefficient(POLYNOMIAL, i) <==> i in GENERATOR
  {
    hide Bit;
    var j := 31 - i;
    if j >= 24 {
      PolynomialByte3();
      BitAbove(POLYNOMIAL, j - 8);
      BitAbove(0x00ED_B883, j - 16);
      BitAbove(0x0000_EDB8, j - 24);
    } else if j >= 16 {
      PolynomialByte2();
      BitAbove(POLYNOMIAL, j - 8);
      BitAbove(0x00ED_B883, j - 16);
    } else if j >= 8 {
      PolynomialByte1();
      BitAbove(POLYNOMIAL, j - 8);
    } else {
      PolynomialByte0();
    }
  }

  lemma BitBeyond(c: bv32)
    ensures !Bit(c, 32)
  {
    hide Bit, DropByte;
    var d := DropByte(DropByte(c));
    BitAbove(c, 24);
    BitAbove(DropByte(c), 16);
    BitAbove(d, 8);
    BitAbove(DropByte(d), 0);
    AllShiftedOut(c);
  }

  lemma AllShiftedOut(c: bv32)
    ensures !Bit(DropByte(DropByte(DropByte(DropByte(c)))), 0)
  {}

  lemma {:induction false} NoBits(j: nat)
    ensures !Bit(0, j)
  {
    if j > 0 {
      assert Half(0) == 0;
      NoBits(j - 1);
    }
  }

  /** The register after one more message bit. */
  function FeedBit(c: bv32, b: bool): bv32 { Step(Xor(c, if b then 1 else 0)) }

  /** The bit that goes into the quotient: the coefficient of x^32 once the register has moved up. */
  function Top(c: bv32, b: bool): bool { Odd(c) != b }

  lemma StepBits(c: bv32, b: bool, j: nat)
    requires j < 32
    ensures Bit(FeedBit(c, b), j) <==> ((j < 31 && Bit(c, j + 1)) != (Top(c, b) && Bit(POLYNOMIAL, j)))
  {
    hide Half, Odd, Xor;
    var m := if b then 1 else 0;
    var x := Xor(c, m);
    MessageBit(b);
    HalfIsLinear(c, m);
    BitOfXor(Half(x), POLYNOMIAL, j);
    BitOfXor(c, m, j + 1);
    NoBits(j);
    assert Bit(x, j + 1) == Bit(Half(x), j) && Bit(m, j + 1) == Bit(Half(m), j);
    if j == 31 { BitBeyond(x); }
  }

  lemma MessageBit(b: bool)
    ensures var m: bv32 := if b then 1 else 0; Half(m) == 0 && Odd(m) == b
  {}

  /** One step of long division: bring down a bit, and subtract the generator if x^32 is there. */
  lemma DivisionStep(c: bv32, b: bool)
    ensures Plus(TimesX(Reg(c)), if b then {32} else {}) ==
            Plus(Reg(FeedBit(c, b)), if Top(c, b) then GENERATOR else {})
  {
    hide Bit, FeedBit, Odd;
    var left := Plus(TimesX(Reg(c)), if b then {32} else {});
    var right := Plus(Reg(FeedBit(c, b)), if Top(c, b) then GENERATOR else {});
    forall i: nat ensures i in left <==> i in right {
      DivisionAt(c, b, i);
    }
  }

  lemma DivisionAt(c: bv32, b: bool, i: nat)
    ensures i in Plus(TimesX(Reg(c)), if b then {32} else {}) <==>
            i in Plus(Reg(FeedBit(c, b)), if Top(c, b) then GENERATOR else {})
  {
    hide FeedBit;
    RaisedAt(c, i);
    if i < 32 {
      StepBits(c, b, 31 - i);
      PolynomialIsGenerator(i);
    }
  }

  lemma RaisedAt(c: bv32, i: nat)
    ensures i in TimesX(Reg(c)) <==> 0 < i <= 32 && Bit(c, 32 - i)
  {
    hide Bit;
    if 0 < i <= 32 && Bit(c, 32 - i) { assert i - 1 in Reg(c) by { assert Coefficient(c, i - 1); } }
  }

  // ---------------------------------------------------------------- a byte is eight bits, lowest first

  function FeedBits(c: bv32, bits: seq<bool>): bv32
    decreases |bits|
  {
    if bits == [] then c else
      var n := |bits| - 1;
      FeedBit(FeedBits(c, bits[..n]), bits[n])
  }

  function BitsOf(w: bv32, n: nat): (bits: seq<bool>)
    ensures |bits| == n
  {
    seq(n, j requires 0 <= j < n => Bit(w, j))
  }

  function MessageBits(data: seq<bv8>): seq<bool>
    decreases |data|
  {
    if data == [] then [] else
      var n := |data| - 1;
      MessageBits(data[..n]) + BitsOf(Wide(data[n]), 8)
  }

  function Halves(w: bv32, n: nat): bv32 {
    if n == 0 then w else Half(Halves(w, n - 1))
  }

  lemma {:induction false} HalvesAhead(w: bv32, n: nat)
    ensures Halves(Half(w), n) == Half(Halves(w, n))
  {
    hide Half;
    if n > 0 { HalvesAhead(w, n - 1); }
  }

  lemma {:induction false} BitIsOddHalf(w: bv32, j: nat)
    ensures Bit(w, j) == Odd(Halves(w, j))
    decreases j
  {
    hide Half, Odd;
    if j > 0 {
      BitIsOddHalf(Half(w), j - 1);
      HalvesAhead(w, j - 1);
    }
  }

  lemma StepSplits(c: bv32, h: bv32)
    ensures Step(Xor(c, h)) == Xor(FeedBit(c, Odd(h)), Half(h))
  {
    hide Half, Odd, Xor;
    var m: bv32 := if Odd(h) then 1 else 0;
    MessageBit(Odd(h));
    HalfIsLinear(c, h);
    HalfIsLinear(c, m);
    XorCancels(Half(c));
    XorAssociates(Half(c), Half(h), POLYNOMIAL);
    XorAssociates(Half(c), POLYNOMIAL, Half(h));
    XorCommutes(Half(h), POLYNOMIAL);
  }

  lemma {:induction false} BitsEnterInTurn(c: bv32, w: bv32, n: nat)
    ensures Steps(Xor(c, w), n) == Xor(FeedBits(c, BitsOf(w, n)), Halves(w, n))
    decreases n
  {
    hide Step, Xor, Half, Odd, FeedBit, Bit;
    if n > 0 {
      BitsEnterInTurn(c, w, n - 1);
      StepsAdd(Xor(c, w), n - 1, 1);
      OneStep(Steps(Xor(c, w), n - 1));
      assert BitsOf(w, n)[..n - 1] == BitsOf(w, n - 1);
      BitIsOddHalf(w, n - 1);
      StepSplits(FeedBits(c, BitsOf(w, n - 1)), Halves(w, n - 1));
    }
  }

  lemma OneStep(c: bv32)
    ensures Steps(c, 1) == Step(c)
  {
    hide Step;
    assert Steps(c, 1) == Steps(Step(c), 0);
  }

  lemma ByteEnters(c: bv32, b: bv8)
    ensures Feed(c, b) == FeedBits(c, BitsOf(Wide(b), 8))
  {
    hide Xor, FeedBits, BitsOf, Steps, Halves, Wide;
    BitsEnterInTurn(c, Wide(b), 8);
    ByteIsUsedUp(b);
    XorCancels(FeedBits(c, BitsOf(Wide(b), 8)));
  }

  lemma ByteIsUsedUp(b: bv8)
    ensures Halves(Wide(b), 8) == 0
  {
    var w := Wide(b);
    HalfEightTimes(w);
    EightHalves(w);
  }

  lemma EightHalves(w: bv32)
    ensures Halves(w, 8) == Half(Half(Half(Half(Half(Half(Half(Half(w))))))))
  {
    hide Half;
    assert Halves(w, 1) == Half(w) && Halves(w, 2) == Half(Halves(w, 1)) && Halves(w, 3) == Half(Halves(w, 2));
    assert Halves(w, 4) == Half(Halves(w, 3)) && Halves(w, 5) == Half(Halves(w, 4)) && Halves(w, 6) == Half(Halves(w, 5));
    assert Halves(w, 7) == Half(Halves(w, 6)) && Halves(w, 8) == Half(Halves(w, 7));
  }

  lemma {:induction false} FeedBitsSplits(c: bv32, a: seq<bool>, b: seq<bool>)
    ensures FeedBits(c, a + b) == FeedBits(FeedBits(c, a), b)
    decreases |b|
  {
    hide FeedBit;
    if b == [] {
      assert a + b == a;
    } else {
      var n := |b| - 1;
      FeedBitsSplits(c, a, b[..n]);
      assert (a + b)[..|a| + n] == a + b[..n];
    }
  }

  /** The loop feeds the bits of the message into the register one by one. */
  lemma {:induction false} MessageEnters(c: bv32, data: seq<bv8>)
    ensures FeedAll(c, data) == FeedBits(c, MessageBits(data))
    decreases |data|
  {
    hide Feed, FeedBits, BitsOf, Wide;
    if data == [] {
      NothingEnters(c);
    } else {
      var n := |data| - 1;
      MessageEnters(c, data[..n]);
      assert data == data[..n] + [data[n]];
      FeedAllAppends(c, data[..n], data[n]);
      ByteEnters(FeedAll(c, data[..n]), data[n]);
      FeedBitsSplits(c, MessageBits(data[..n]), BitsOf(Wide(data[n]), 8));
    }
  }

  lemma NothingEnters(c: bv32)
    ensures FeedBits(c, []) == c
  {}

  // ---------------------------------------------------------------- long division

  function Quotient(c: bv32, bits: seq<bool>): (q: seq<bool>)
    ensures |q| == |bits|
    decreases |bits|
  {
    if bits == [] then [] else
      var n := |bits| - 1;
      Quotient(c, bits[..n]) + [Top(FeedBits(c, bits[..n]), bits[n])]
  }

  lemma TimesXOverPlus(a: Poly, b: Poly)
    ensures TimesX(Plus(a, b)) == Plus(TimesX(a), TimesX(b))
  {}

  lemma {:induction false} ShiftOverPlus(a: Poly, b: Poly, n: nat)
    ensures Shift(Plus(a, b), n) == Plus(Shift(a, n), Shift(b, n))
  {
    hide Plus, TimesX;
    if n > 0 {
      ShiftOverPlus(a, b, n - 1);
      TimesXOverPlus(Shift(a, n - 1), Shift(b, n - 1));
    }
  }

  lemma {:induction false} ShiftAhead(a: Poly, n: nat)
    ensures Shift(TimesX(a), n) == TimesX(Shift(a, n))
  {
    hide TimesX;
    if n > 0 { ShiftAhead(a, n - 1); }
  }

  lemma {:induction false} ShiftSmall(n: nat)
    ensures Shift({0}, n) == {n} && Shift({}, n) == {}
  {
    if n > 0 { ShiftSmall(n - 1); }
  }

  lemma PlusSwaps(a: Poly, b: Poly, c: Poly)
    ensures Plus(Plus(a, b), c) == Plus(Plus(a, c), b)
    ensures Plus(Plus(a, b), c) == Plus(a, Plus(b, c))
  {
    forall x ensures x in Plus(Plus(a, b), c) <==> x in Plus(Plus(a, c), b) {}
  }

  lemma Rearrange(q: Poly, x: Poly, b: Poly, y: Poly, t: Poly)
    requires Plus(x, b) == Plus(y, t)
    ensures Plus(Plus(q, x), b) == Plus(Plus(q, t), y)
  {
    hide Plus;
    PlusSwaps(q, x, b);
    PlusSwaps(q, y, t);
  }

  /** The dividend grows by a bit as the message does. */
  lemma DividendGrows(m: Poly, r: Poly, b: bool)
    ensures Plus(Shift(Plus(TimesX(m), if b then {0} else {}), 32), TimesX(r)) ==
            Plus(TimesX(Plus(Shift(m, 32), r)), if b then {32} else {})
  {
    hide Plus, TimesX, Shift;
    var low: Poly := if b then {0} else {};
    ShiftOverPlus(TimesX(m), low, 32);
    ShiftAhead(m, 32);
    ShiftSmall(32);
    TimesXOverPlus(Shift(m, 32), r);
    PlusSwaps(TimesX(Shift(m, 32)), Shift(low, 32), TimesX(r));
  }

  lemma TimesAppends(q: seq<bool>, b: bool, p: Poly)
    ensures Times(q + [b], p) == Plus(TimesX(Times(q, p)), if b then p else {})
  {
    hide Plus, TimesX;
    assert (q + [b])[..|q|] == q;
  }

  lemma DivisionAppends(c: bv32, bits: seq<bool>, b: bool)
    ensures Quotient(c, bits + [b]) == Quotient(c, bits) + [Top(FeedBits(c, bits), b)]
    ensures FeedBits(c, bits + [b]) == FeedBit(FeedBits(c, bits), b)
  {
    hide Top, FeedBit;
    assert (bits + [b])[..|bits|] == bits;
  }

  lemma ShiftNext(a: Poly, n: nat)
    ensures Shift(a, n + 1) == TimesX(Shift(a, n))
  {}

  /** What the register says about the bits so far. */
  ghost predicate IsRemainder(c: bv32, bits: seq<bool>) {
    Plus(Shift(Times(bits, {0}), 32), Shift(Reg(c), |bits|)) ==
    Plus(Times(Quotient(c, bits), GENERATOR), Reg(FeedBits(c, bits)))
  }

  lemma RemainderGrows(c: bv32, bits: seq<bool>, b: bool)
    requires IsRemainder(c, bits)
    ensures IsRemainder(c, bits + [b])
  {
    hide Plus, TimesX, Times, Shift, Reg, FeedBit, FeedBits, Top, Quotient;
    var q, r := Times(Quotient(c, bits), GENERATOR), FeedBits(c, bits);
    DividendGrows(Times(bits, {0}), Shift(Reg(c), |bits|), b);
    TimesXOverPlus(q, Reg(r));
    DivisionStep(r, b);
    Rearrange(TimesX(q), TimesX(Reg(r)), if b then {32} else {}, Reg(FeedBit(r, b)), if Top(r, b) then GENERATOR else {});
    TimesAppends(bits, b, {0});
    DivisionAppends(c, bits, b);
    TimesAppends(Quotient(c, bits), Top(r, b), GENERATOR);
    ShiftNext(Reg(c), |bits|);
  }

  /** x^32 times the message, plus the initial register moved up by the length of the message, is a
  multiple of the generator plus the final register, which is of lower degree. */
  lemma {:induction false} RegisterIsRemainder(c: bv32, bits: seq<bool>)
    ensures IsRemainder(c, bits)
    decreases |bits|
  {
    if bits == [] {
      NothingDivided(c);
    } else {
      hide IsRemainder;
      var n := |bits| - 1;
      RegisterIsRemainder(c, bits[..n]);
      RemainderGrows(c, bits[..n], bits[n]);
      assert bits == bits[..n] + [bits[n]];
    }
  }

  lemma NothingDivided(c: bv32)
    ensures Plus(Shift(Times([], {0}), 32), Shift(Reg(c), 0)) == Plus(Times(Quotient(c, []), GENERATOR), Reg(FeedBits(c, [])))
  {
    ShiftSmall(32);
  }

  /** The CRC, its final complement undone, is the remainder of the message by the generator. */
  lemma CrcIsRemainder(data: seq<bv8>)
    ensures var bits := MessageBits(data);
            Plus(Shift(Times(bits, {0}), 32), Shift(Reg(ONES), |bits|)) ==
            Plus(Times(Quotient(ONES, bits), GENERATOR), Reg(Xor(Crc(data), ONES)))
    ensures forall i :: i in Reg(Xor(Crc(data), ONES)) ==> i < 32
  {
    hide FeedAll, FeedBits, Plus, Times, Shift, Quotient, MessageBits, Coefficient, Xor;
    MessageEnters(ONES, data);
    RegisterIsRemainder(ONES, MessageBits(data));
    XorAssociates(FeedAll(ONES, data), ONES, ONES);
    XorCancels(ONES);
    XorCancels(FeedAll(ONES, data));
  }

  // ---------------------------------------------------------------- the remainder is unique

  /** A multiple of a polynomial of degree 32 is zero or of degree at least 32. */
  lemma {:induction false} MultipleDegree(d: seq<bool>, p: Poly) returns (m: nat)
    requires 32 in p && forall x :: x in p ==> x <= 32
    ensures true !in d ==> Times(d, p) == {}
    ensures true in d ==> m >= 32 && m in Times(d, p) && forall x :: x in Times(d, p) ==> x <= m
    decreases |d|
  {
    m := 32;
    if d != [] {
      var n := |d| - 1;
      assert d == d[..n] + [d[n]];
      var k := MultipleDegree(d[..n], p);
      if true in d[..n] {
        m := k + 1;
        assert m in TimesX(Times(d[..n], p));
      }
    }
  }

  function Differ(a: seq<bool>, b: seq<bool>): (d: seq<bool>)
    requires |a| == |b|
    ensures |d| == |a|
  {
    seq(|a|, i requires 0 <= i < |a| => a[i] != b[i])
  }

  lemma {:induction false} TimesIsLinear(a: seq<bool>, b: seq<bool>, p: Poly)
    requires |a| == |b|
    ensures Times(Differ(a, b), p) == Plus(Times(a, p), Times(b, p))
    decreases |a|
  {
    if a != [] {
      var n := |a| - 1;
      assert Differ(a, b)[..n] == Differ(a[..n], b[..n]);
      TimesIsLinear(a[..n], b[..n], p);
      TimesXOverPlus(Times(a[..n], p), Times(b[..n], p));
    }
  }

  lemma {:induction false} LeadingZero(q: seq<bool>, p: Poly)
    ensures Times([false] + q, p) == Times(q, p)
    decreases |q|
  {
    hide Plus, TimesX;
    if q == [] {
      ZeroTimes(p);
      assert [false] + q == [false];
    } else {
      var n := |q| - 1;
      LeadingZero(q[..n], p);
      assert ([false] + q)[..n + 1] == [false] + q[..n];
    }
  }

  lemma ZeroTimes(p: Poly)
    ensures Times([false], p) == {}
  {}

  /** No other remainder of degree below 32 goes with any quotient, of whatever length. */
  lemma {:induction false} RemainderIsUnique(q: seq<bool>, r: Poly, q': seq<bool>, r': Poly)
    requires forall x :: x in r || x in r' ==> x < 32
    requires Plus(Times(q, GENERATOR), r) == Plus(Times(q', GENERATOR), r')
    ensures r == r'
    decreases if |q| < |q'| then |q'| - |q| else |q| - |q'|
  {
    if |q| < |q'| {
      LeadingZero(q, GENERATOR);
      RemainderIsUnique([false] + q, r, q', r');
    } else if |q| > |q'| {
      LeadingZero(q', GENERATOR);
      RemainderIsUnique(q, r, [false] + q', r');
    } else {
      TimesIsLinear(q, q', GENERATOR);
      var a, b := Times(q, GENERATOR), Times(q', GENERATOR);
      forall x ensures x in Plus(a, b) <==> x in Plus(r, r') {
        assert x in Plus(a, r) <==> x in Plus(b, r');
      }
      var m := MultipleDegree(Differ(q, q'), GENERATOR);
      assert Plus(a, b) == {};
    }
  }
}
