/** The checksum of App/ota/ota_flash.c: the CRC-32 of section 8 of RFC 1952, computed bit by bit. */
module Crc32 {
  import opened Bits

  const POLYNOMIAL: bv32 := 0xEDB8_8320
  const ONES: bv32 := 0xFFFF_FFFF

  /** One turn of the inner loop. */
  function Step(c: bv32): bv32 {
    if Odd(c) then Xor(Half(c), POLYNOMIAL) else Half(c)
  }

  function Xor(a: bv32, b: bv32): bv32 { a ^ b }

  function Steps(c: bv32, n: nat): bv32
    decreases n
  {
    if n == 0 then c else Steps(Step(c), n - 1)
  }

  /** The register after one more byte, and after all the bytes of a sequence. */
  function Feed(c: bv32, b: bv8): bv32 { Steps(Xor(c, Wide(b)), 8) }

  function Wide(b: bv8): bv32 { b as bv32 }

  function FeedAll(c: bv32, data: seq<bv8>): bv32
    decreases |data|
  {
    if data == [] then c else FeedAll(Feed(c, data[0]), data[1..])
  }

  function Crc(data: seq<bv8>): bv32 { Xor(FeedAll(ONES, data), ONES) }

  lemma {:induction false} FeedAllAppends(c: bv32, a: seq<bv8>, b: bv8)
    ensures FeedAll(c, a + [b]) == Feed(FeedAll(c, a), b)
    decreases |a|
  {
    hide Feed;
    if a == [] {
      assert a + [b] == [b] && FeedAll(c, [b]) == FeedAll(Feed(c, b), []);
    } else {
      FeedAllAppends(Feed(c, a[0]), a[1..], b);
      assert (a + [b])[1..] == a[1..] + [b];
    }
  }

  /** ota_flash_crc32. */
  method ComputeCrc(data: seq<bv8>) returns (crc: bv32)
    ensures crc == Crc(data)
  {
    hide Step, Xor, Wide;
    crc := ONES;
    var i := 0;
    while i < |data|
      invariant 0 <= i <= |data| && crc == FeedAll(ONES, data[..i])
    {
      FeedAllAppends(ONES, data[..i], data[i]);
      assert data[..i + 1] == data[..i] + [data[i]];
      crc := Xor(crc, Wide(data[i]));
      ghost var start := crc;
      var j := 0;
      while j < 8
        invariant 0 <= j <= 8 && Steps(crc, 8 - j) == Steps(start, 8)
      {
        crc := Step(crc);
        j := j + 1;
      }
      i := i + 1;
    }
    assert data[..i] == data;
    crc := Xor(crc, ONES);
  }

  // ---------------------------------------------------------------- the step is linear and invertible

  lemma StepIsLinear(x: bv32, y: bv32)
    ensures Step(Xor(x, y)) == Xor(Step(x), Step(y))
  {
    hide Odd, Half, Xor;
    HalfIsLinear(x, y);
    PolynomialMoves(Half(x), Half(y));
  }

  lemma HalfIsLinear(x: bv32, y: bv32)
    ensures Half(Xor(x, y)) == Xor(Half(x), Half(y))
    ensures Odd(Xor(x, y)) <==> Odd(x) != Odd(y)
  {}

  lemma XorAssociates(a: bv32, b: bv32, c: bv32)
    ensures Xor(Xor(a, b), c) == Xor(a, Xor(b, c))
  {}

  lemma XorCommutes(a: bv32, b: bv32)
    ensures Xor(a, b) == Xor(b, a)
  {}

  lemma XorCancels(a: bv32)
    ensures Xor(a, a) == 0 && Xor(a, 0) == a
  {}

  lemma PolynomialMoves(a: bv32, b: bv32)
    ensures Xor(Xor(a, POLYNOMIAL), Xor(b, POLYNOMIAL)) == Xor(a, b)
    ensures Xor(Xor(a, POLYNOMIAL), b) == Xor(Xor(a, b), POLYNOMIAL)
    ensures Xor(a, Xor(b, POLYNOMIAL)) == Xor(Xor(a, b), POLYNOMIAL)
  {
    hide Xor;
    XorAssociates(a, b, POLYNOMIAL);
    XorAssociates(a, POLYNOMIAL, b);
    XorCommutes(b, POLYNOMIAL);
    XorAssociates(Xor(a, POLYNOMIAL), b, POLYNOMIAL);
    XorAssociates(Xor(a, b), POLYNOMIAL, POLYNOMIAL);
    XorCancels(POLYNOMIAL);
    XorCancels(Xor(a, b));
  }

  /** The register before a step can be recovered from the register after it. */
  lemma StepIsInjective(x: bv32, y: bv32)
    requires Step(x) == Step(y)
    ensures x == y
  {}

  lemma {:induction false} StepsLinear(x: bv32, y: bv32, n: nat)
    ensures Steps(Xor(x, y), n) == Xor(Steps(x, n), Steps(y, n))
    decreases n
  {
    hide Step, Xor;
    if n > 0 {
      StepIsLinear(x, y);
      StepsLinear(Step(x), Step(y), n - 1);
    }
  }

  lemma {:induction false} StepsInjective(x: bv32, y: bv32, n: nat)
    requires Steps(x, n) == Steps(y, n)
    ensures x == y
    decreases n
  {
    hide Step;
    if n > 0 {
      StepsInjective(Step(x), Step(y), n - 1);
      StepIsInjective(x, y);
    }
  }

  // ---------------------------------------------------------------- a byte at a time

  lemma EightSteps(a: bv32, b: bv32, c: bv32, d: bv32, e: bv32, f: bv32, g: bv32, h: bv32, i: bv32)
    requires Step(a) == b && Step(b) == c && Step(c) == d && Step(d) == e
    requires Step(e) == f && Step(f) == g && Step(g) == h && Step(h) == i
    ensures Steps(a, 8) == i
  {
    hide Step;
    assert Steps(e, 4) == Steps(f, 3) == Steps(g, 2) == Steps(h, 1) == i;
    assert Steps(a, 8) == Steps(b, 7) == Steps(c, 6) == Steps(d, 5) == Steps(e, 4);
  }

  // A step takes a shifted register down one place.

  lemma DownOne(y: bv32) requires y & 0xFF00_0000 == 0 ensures Step(y << 1) == y {}

  lemma DownTwo(y: bv32) requires y & 0xFF00_0000 == 0 ensures Step(y << 2) == y << 1 {}

  lemma DownThree(y: bv32) requires y & 0xFF00_0000 == 0 ensures Step(y << 3) == y << 2 {}

  lemma DownFour(y: bv32) requires y & 0xFF00_0000 == 0 ensures Step(y << 4) == y << 3 {}

  lemma DownFive(y: bv32) requires y & 0xFF00_0000 == 0 ensures Step(y << 5) == y << 4 {}

  lemma DownSix(y: bv32) requires y & 0xFF00_0000 == 0 ensures Step(y << 6) == y << 5 {}

  lemma DownSeven(y: bv32) requires y & 0xFF00_0000 == 0 ensures Step(y << 7) == y << 6 {}

  lemma DownEight(y: bv32) requires y & 0xFF00_0000 == 0 ensures Step(y << 8) == y << 7 {}

  /** Eight steps take a register whose low byte is zero down a byte. */
  lemma StepsDropByte(y: bv32)
    requires y & 0xFF00_0000 == 0
    ensures Steps(y << 8, 8) == y
  {
    hide Step, Steps;
    DownEight(y);
    DownSeven(y);
    DownSix(y);
    DownFive(y);
    DownFour(y);
    DownThree(y);
    DownTwo(y);
    DownOne(y);
    EightSteps(y << 8, y << 7, y << 6, y << 5, y << 4, y << 3, y << 2, y << 1, y);
  }

  /** The entries of the table of RFC 1952, section 8. */
  function Table(low: bv32): bv32 { Steps(low, 8) }

  /** The update by table of RFC 1952, section 8. */
  function FeedByTable(c: bv32, b: bv8): bv32 {
    Xor(Table(Xor(c, Wide(b)) & 0xFF), c >> 8)
  }

  function FeedAllByTable(c: bv32, data: seq<bv8>): bv32
    decreases |data|
  {
    if data == [] then c else FeedAllByTable(FeedByTable(c, data[0]), data[1..])
  }

  lemma SplitLowByte(c: bv32, b: bv8)
    ensures var x := Xor(c, Wide(b));
            x == Xor(x & 0xFF, (c >> 8) << 8) && (c >> 8) & 0xFF00_0000 == 0
  {}

  lemma FeedIsByTable(c: bv32, b: bv8)
    ensures Feed(c, b) == FeedByTable(c, b)
  {
    hide Step, Xor, Wide;
    SplitLowByte(c, b);
    StepsLinear(Xor(c, Wide(b)) & 0xFF, (c >> 8) << 8, 8);
    StepsDropByte(c >> 8);
  }

  /** The bit-serial loop computes the CRC of RFC 1952, section 8. */
  lemma {:induction false} CrcIsByTable(c: bv32, data: seq<bv8>)
    ensures FeedAll(c, data) == FeedAllByTable(c, data)
    decreases |data|
  {
    hide Feed, FeedByTable;
    if data != [] {
      FeedIsByTable(c, data[0]);
      CrcIsByTable(Feed(c, data[0]), data[1..]);
    }
  }

  // ---------------------------------------------------------------- short bursts are detected

  /** Up to four bytes as they lie in the register, the first lowest. */
  function Word(bytes: seq<bv8>): bv32
    decreases |bytes|
  {
    if bytes == [] then 0 else Prepend(bytes[0], Word(bytes[1..]))
  }

  function Prepend(b: bv8, w: bv32): bv32 { Xor(Wide(b), w << 8) }

  /** The bits that n bytes leave clear. */
  function Mask(n: nat): bv32 {
    if n == 0 then 0xFFFF_FFFF else if n == 1 then 0xFFFF_FF00 else if n == 2 then 0xFFFF_0000
    else if n == 3 then 0xFF00_0000 else 0
  }

  predicate Within(w: bv32, n: nat) { w & Mask(n) == 0 }

  lemma PrependStaysWithin(b: bv8, w: bv32, n: nat)
    requires Within(w, n)
    ensures Within(Prepend(b, w), n + 1)
  {
    if n == 0 { WithinOne(b, w); } else if n == 1 { WithinTwo(b, w); } else if n == 2 { WithinThree(b, w); }
  }

  lemma WithinOne(b: bv8, w: bv32) requires w & 0xFFFF_FFFF == 0 ensures Prepend(b, w) & 0xFFFF_FF00 == 0 {}

  lemma WithinTwo(b: bv8, w: bv32) requires w & 0xFFFF_FF00 == 0 ensures Prepend(b, w) & 0xFFFF_0000 == 0 {}

  lemma WithinThree(b: bv8, w: bv32) requires w & 0xFFFF_0000 == 0 ensures Prepend(b, w) & 0xFF00_0000 == 0 {}

  lemma {:induction false} WordStaysWithin(bytes: seq<bv8>)
    ensures Within(Word(bytes), |bytes|)
    decreases |bytes|
  {
    hide Prepend, Within;
    if bytes == [] {
      NothingIsWithin();
    } else {
      WordStaysWithin(bytes[1..]);
      PrependStaysWithin(bytes[0], Word(bytes[1..]), |bytes| - 1);
    }
  }

  lemma NothingIsWithin()
    ensures Within(0, 0)
  {}

  lemma PrependIsInjective(b: bv8, w: bv32, b': bv8, w': bv32)
    requires w & 0xFF00_0000 == 0 && w' & 0xFF00_0000 == 0 && Prepend(b, w) == Prepend(b', w')
    ensures b == b' && w == w'
  {}

  lemma WithinThreeBytes(w: bv32, n: nat)
    requires Within(w, n) && n <= 3
    ensures w & 0xFF00_0000 == 0
  {}

  lemma {:induction false} WordIsInjective(a: seq<bv8>, b: seq<bv8>)
    requires |a| == |b| <= 4 && Word(a) == Word(b)
    ensures a == b
    decreases |a|
  {
    hide Prepend, Within;
    if a != [] {
      WordStaysWithin(a[1..]);
      WordStaysWithin(b[1..]);
      WithinThreeBytes(Word(a[1..]), |a| - 1);
      WithinThreeBytes(Word(b[1..]), |b| - 1);
      PrependIsInjective(a[0], Word(a[1..]), b[0], Word(b[1..]));
      WordIsInjective(a[1..], b[1..]);
    }
  }

  lemma {:induction false} StepsAdd(c: bv32, m: nat, n: nat)
    ensures Steps(Steps(c, m), n) == Steps(c, m + n)
    decreases m
  {
    hide Step;
    if m > 0 { StepsAdd(Step(c), m - 1, n); }
  }

  /** A later byte enters the register as if it had been there from the start. */
  lemma EarlyEntry(c: bv32, b: bv8, w: bv32)
    requires w & 0xFF00_0000 == 0
    ensures Xor(Feed(c, b), w) == Steps(Xor(c, Prepend(b, w)), 8)
  {
    hide Xor, Step, Steps, Wide;
    StepsDropByte(w);
    StepsLinear(Xor(c, Wide(b)), w << 8, 8);
    XorAssociates(c, Wide(b), w << 8);
  }

  lemma {:induction false} FeedIsWord(c: bv32, bytes: seq<bv8>)
    requires |bytes| <= 4
    ensures FeedAll(c, bytes) == Steps(Xor(c, Word(bytes)), 8 * |bytes|)
    decreases |bytes|
  {
    hide Prepend, Within, Feed, Xor, Step, Steps;
    if bytes == [] {
      XorCancels(c);
      NoSteps(c);
    } else {
      var b, rest := bytes[0], bytes[1..];
      WordStaysWithin(rest);
      WithinThreeBytes(Word(rest), |rest|);
      FeedIsWord(Feed(c, b), rest);
      EarlyEntry(c, b, Word(rest));
      StepsAdd(Xor(c, Word(bytes)), 8, 8 * |rest|);
    }
  }

  lemma NoSteps(c: bv32)
    ensures Steps(c, 0) == c
  {}

  lemma {:induction false} FeedAllSplits(c: bv32, a: seq<bv8>, b: seq<bv8>)
    ensures FeedAll(c, a + b) == FeedAll(FeedAll(c, a), b)
    decreases |a|
  {
    hide Feed;
    if a == [] {
      assert a + b == b;
    } else {
      FeedAllSplits(Feed(c, a[0]), a[1..], b);
      assert (a + b)[1..] == a[1..] + b;
    }
  }

  lemma FeedIsInjective(c: bv32, c': bv32, b: bv8)
    requires Feed(c, b) == Feed(c', b)
    ensures c == c'
  {
    hide Step, Steps, Xor, Wide;
    StepsInjective(Xor(c, Wide(b)), Xor(c', Wide(b)), 8);
    XorIsInjective(c, c', Wide(b));
  }

  lemma XorIsInjective(a: bv32, b: bv32, c: bv32)
    requires Xor(a, c) == Xor(b, c) || Xor(c, a) == Xor(c, b)
    ensures a == b
  {}

  lemma {:induction false} FeedAllIsInjective(c: bv32, c': bv32, data: seq<bv8>)
    requires FeedAll(c, data) == FeedAll(c', data)
    ensures c == c'
    decreases |data|
  {
    hide Feed;
    if data != [] {
      FeedAllIsInjective(Feed(c, data[0]), Feed(c', data[0]), data[1..]);
      FeedIsInjective(c, c', data[0]);
    }
  }

  /** Different images of the same length that agree outside four consecutive bytes never have the
  same CRC. */
  lemma BurstIsDetected(before: seq<bv8>, burst: seq<bv8>, burst': seq<bv8>, after: seq<bv8>)
    requires |burst| == |burst'| <= 4 && burst != burst'
    ensures Crc(before + burst + after) != Crc(before + burst' + after)
  {
    hide FeedAll, Xor, Word, Steps;
    var c, n := FeedAll(ONES, before), 8 * |burst|;
    FeedAllSplits(ONES, before + burst, after);
    FeedAllSplits(ONES, before + burst', after);
    FeedAllSplits(ONES, before, burst);
    FeedAllSplits(ONES, before, burst');
    FeedIsWord(c, burst);
    FeedIsWord(c, burst');
    if Crc(before + burst + after) == Crc(before + burst' + after) {
      XorIsInjective(FeedAll(ONES, before + burst + after), FeedAll(ONES, before + burst' + after), ONES);
      FeedAllIsInjective(FeedAll(c, burst), FeedAll(c, burst'), after);
      StepsInjective(Xor(c, Word(burst)), Xor(c, Word(burst')), n);
      XorIsInjective(Word(burst), Word(burst'), c);
      WordIsInjective(burst, burst');
    }
  }

  function Number(x: bv32): (n: nat)
    ensures n < 0x1_0000_0000
  {
    x as nat
  }

  /** The CRC as a number. */
  function Checksum(data: seq<bv8>): (n: nat)
    ensures n < 0x1_0000_0000
  {
    Number(Crc(data))
  }

  lemma SameChecksum(a: seq<bv8>, b: seq<bv8>)
    ensures Checksum(a) == Checksum(b) ==> Crc(a) == Crc(b)
  {
    NumberAndBack(Crc(a));
    NumberAndBack(Crc(b));
  }

  lemma NumberAndBack(x: bv32)
    ensures (x as nat) as bv32 == x
  {}

  /** The same, for two images and the position of the bytes in which they may differ. */
  lemma NearImagesDiffer(a: seq<bv8>, b: seq<bv8>, k: nat)
    requires |a| == |b| && a != b && forall i :: 0 <= i < |a| && a[i] != b[i] ==> k <= i < k + 4
    ensures Crc(a) != Crc(b)
  {
    hide Crc;
    var from := if k < |a| then k else |a|;
    var to := if k + 4 < |a| then k + 4 else |a|;
    assert a == a[..from] + a[from..to] + a[to..];
    assert a[..from] == b[..from] && a[to..] == b[to..];
    assert b == a[..from] + b[from..to] + a[to..];
    BurstIsDetected(a[..from], a[from..to], b[from..to], a[to..]);
  }
}
