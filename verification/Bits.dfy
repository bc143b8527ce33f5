/** The bits of a 32-bit word. */
module Bits {
  predicate Odd(c: bv32) { c & 1 == 1 }

  function Half(c: bv32): bv32 { c >> 1 }

  /** Bit number j, the lowest being number 0. */
  function Bit(c: bv32, j: nat): bool
    decreases j
  {
    if j == 0 then Odd(c) else Bit(Half(c), j - 1)
  }

  function DropByte(c: bv32): bv32 { c >> 8 }

  lemma BitAbove(c: bv32, j: nat)
    ensures Bit(c, j + 8) == Bit(DropByte(c), j)
  {
    hide Half, Odd;
    HalfEightTimes(c);
    var d := Half(Half(Half(Half(c))));
    assert Bit(c, j + 8) == Bit(Half(c), j + 7) == Bit(Half(Half(c)), j + 6) == Bit(Half(Half(Half(c))), j + 5);
    assert Bit(Half(Half(Half(c))), j + 5) == Bit(d, j + 4);
    assert Bit(d, j + 4) == Bit(Half(d), j + 3) == Bit(Half(Half(d)), j + 2) == Bit(Half(Half(Half(d))), j + 1);
    assert Bit(Half(Half(Half(d))), j + 1) == Bit(Half(Half(Half(Half(d)))), j);
  }

  lemma HalfEightTimes(c: bv32)
    ensures Half(Half(Half(Half(Half(Half(Half(Half(c)))))))) == c >> 8
  {}

  // ---------------------------------------------------------------- words without bits

  /** Nothing is left after n halvings. */
  predicate Below(c: bv32, n: nat)
    decreases n
  {
    if n == 0 then c == 0 else Below(Half(c), n - 1)
  }

  lemma BelowAbove(c: bv32, n: nat)
    ensures Below(c, n + 8) == Below(DropByte(c), n)
  {
    hide Half;
    HalfEightTimes(c);
    var d := Half(Half(Half(Half(c))));
    assert Below(c, n + 8) == Below(Half(c), n + 7) == Below(Half(Half(c)), n + 6) == Below(Half(Half(Half(c))), n + 5);
    assert Below(Half(Half(Half(c))), n + 5) == Below(d, n + 4);
    assert Below(d, n + 4) == Below(Half(d), n + 3) == Below(Half(Half(d)), n + 2) == Below(Half(Half(Half(d))), n + 1);
    assert Below(Half(Half(Half(d))), n + 1) == Below(Half(Half(Half(Half(d)))), n);
  }

  lemma NothingLeft(c: bv32)
    ensures DropByte(DropByte(DropByte(DropByte(c)))) == 0
  {}

  lemma AllBelow(c: bv32)
    ensures Below(c, 32)
  {
    hide Below, DropByte, Half;
    var d := DropByte(DropByte(c));
    BelowAbove(c, 24);
    BelowAbove(DropByte(c), 16);
    BelowAbove(d, 8);
    BelowAbove(DropByte(d), 0);
    NothingLeft(c);
    ZeroBelow();
  }

  lemma ZeroBelow()
    ensures Below(0, 0)
  {}

  lemma HalfOfEven(c: bv32)
    ensures !Odd(c) && c != 0 ==> Half(c) != 0
  {}

  lemma {:induction false} SomeBitBelow(c: bv32, n: nat) returns (i: nat)
    requires c != 0 && Below(c, n)
    ensures i < n && Bit(c, i)
    decreases n
  {
    hide Odd, Half;
    i := 0;
    if !Odd(c) {
      HalfOfEven(c);
      var k := SomeBitBelow(Half(c), n - 1);
      i := k + 1;
    }
  }

  /** A word that is not 0 has a bit. */
  lemma SomeBit(c: bv32) returns (i: nat)
    requires c != 0
    ensures i < 32 && Bit(c, i)
  {
    AllBelow(c);
    i := SomeBitBelow(c, 32);
  }

  lemma {:induction false} NoBit(i: nat)
    ensures !Bit(0, i)
  {
    if i > 0 { NoBit(i - 1); }
  }

  // ---------------------------------------------------------------- the operations, bit by bit

  function And(a: bv32, b: bv32): bv32 { a & b }

  function Union(a: bv32, b: bv32): bv32 { a | b }

  function Without(a: bv32, b: bv32): bv32 { a & !b }

  predicate Disjoint(a: bv32, b: bv32) { And(a, b) == 0 }

  predicate Includes(a: bv32, b: bv32) { And(a, b) == b }

  lemma HalfOfAnd(a: bv32, b: bv32)
    ensures Half(And(a, b)) == And(Half(a), Half(b)) && (Odd(And(a, b)) <==> Odd(a) && Odd(b))
  {}

  lemma {:induction false} BitOfAnd(a: bv32, b: bv32, i: nat)
    ensures Bit(And(a, b), i) <==> Bit(a, i) && Bit(b, i)
    decreases i
  {
    hide And, Odd, Half;
    HalfOfAnd(a, b);
    if i > 0 { BitOfAnd(Half(a), Half(b), i - 1); }
  }

  lemma HalfOfUnion(a: bv32, b: bv32)
    ensures Half(Union(a, b)) == Union(Half(a), Half(b)) && (Odd(Union(a, b)) <==> Odd(a) || Odd(b))
  {}

  lemma {:induction false} BitOfUnion(a: bv32, b: bv32, i: nat)
    ensures Bit(Union(a, b), i) <==> Bit(a, i) || Bit(b, i)
    decreases i
  {
    hide Union, Odd, Half;
    HalfOfUnion(a, b);
    if i > 0 { BitOfUnion(Half(a), Half(b), i - 1); }
  }

  lemma HalfOfWithout(a: bv32, b: bv32)
    ensures Half(Without(a, b)) == Without(Half(a), Half(b)) && (Odd(Without(a, b)) <==> Odd(a) && !Odd(b))
  {}

  lemma {:induction false} BitOfWithout(a: bv32, b: bv32, i: nat)
    ensures Bit(Without(a, b), i) <==> Bit(a, i) && !Bit(b, i)
    decreases i
  {
    hide Without, Odd, Half;
    HalfOfWithout(a, b);
    if i > 0 { BitOfWithout(Half(a), Half(b), i - 1); }
  }

  lemma DisjointIs(a: bv32, b: bv32)
    ensures Disjoint(a, b) <==> forall i :: 0 <= i < 32 ==> !(Bit(a, i) && Bit(b, i))
  {
    hide And, Bit;
    if Disjoint(a, b) {
      forall i | 0 <= i < 32 ensures !(Bit(a, i) && Bit(b, i)) {
        BitOfAnd(a, b, i);
        NoBit(i);
      }
    } else {
      var i := SomeBit(And(a, b));
      BitOfAnd(a, b, i);
    }
  }

  lemma Included(a: bv32, b: bv32)
    requires Without(b, a) == 0
    ensures Includes(a, b)
  {}

  lemma IncludesIs(a: bv32, b: bv32)
    ensures Includes(a, b) <==> forall i :: 0 <= i < 32 && Bit(b, i) ==> Bit(a, i)
  {
    hide And, Without, Bit;
    if Includes(a, b) {
      forall i | 0 <= i < 32 && Bit(b, i) ensures Bit(a, i) { BitOfAnd(a, b, i); }
    } else {
      if Without(b, a) == 0 { Included(a, b); }
      var i := SomeBit(Without(b, a));
      BitOfWithout(b, a, i);
    }
  }
}
