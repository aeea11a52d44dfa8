// The mixer behind the header keys: bit by bit a mask, and never the same key for two
// different ones, so sides whose keys differ stay apart.
module KeyMixing {
  import opened Prelude
  import opened Bits
  import opened LittleEndian
  import opened Frame
  import R = FrameReader
  import T = Target

  // ---- masking ------------------------------------------------------------------------

  function BitAt(x: nat, k: nat): nat { T.Shr(x, k) % 2 }

  lemma BitAbove(x: nat, k: nat)
    requires k > 0
    ensures BitAt(x, k) == BitAt(x / 2, k - 1)
  {
    DivDiv(x, 2, Pow2(k - 1), Pow2(k));
  }

  // A bit of the masked number is set exactly when it is set in one of the two.
  lemma {:induction false} MaskedBit(a: nat, mask: nat, k: nat)
    ensures BitAt(Xor(a, mask), k) == 1 <==> BitAt(a, k) != BitAt(mask, k)
    decreases k
  {
    if k == 0 {
      assert Pow2(0) == 1;
      LowBit(a, mask);
    } else {
      MaskedBit(a / 2, mask / 2, k - 1);
      BitAbove(a, k);
      BitAbove(mask, k);
      BitAbove(Xor(a, mask), k);
      LowBit(a, mask);
    }
  }

  lemma LowBit(a: nat, mask: nat)
    ensures Xor(a, mask) % 2 == 1 <==> a % 2 != mask % 2
    ensures Xor(a, mask) / 2 == Xor(a / 2, mask / 2)
  {
  }

  // 22 bits of length, a flag each in bits 24, 25 and 26, and five bits of command.
  ghost function PlainWord(h: Header): int {
    h.len % 0x40_0000 + Bit(h.signed) * 0x100_0000 + Bit(h.sealed) * 0x200_0000 + Bit(h.channel) * 0x400_0000
    + h.cmd % 0x20 * 0x800_0000
  }

  lemma WordIsPlain(h: Header)
    ensures 0 <= PlainWord(h) <= U32_MAX && ToU32(h) == PlainWord(h)
  {
    ToU32Sum(h);
    WordSum(h.len % MAX_CMD_LEN, Flag(h.signed), Flag(h.sealed), Flag(h.channel), h.cmd % 0x20);
  }

  lemma MaskedWord(word: u32, key: u32, b: seq<byte>, k: nat)
    requires b == ToLe(Xor32(word, key), 4)
    ensures BitAt(FromLe(b), k) == 1 <==> BitAt(word, k) != BitAt(key, k)
  {
    MaskedBit(word, key, k);
    U32RoundTrip(Xor32(word, key));
  }

  // That is what the wire carries, with every bit turned over where the key has one.
  lemma MaskedHeader(h: Header, key: u32, k: nat)
    ensures 0 <= PlainWord(h)
    ensures BitAt(FromLe(EncodeHeader(h, key)), k) == 1 <==> BitAt(PlainWord(h), k) != BitAt(key, k)
  {
    WordIsPlain(h);
    MaskedWord(ToU32(h), key, EncodeHeader(h, key), k);
  }

  // ---- a mask is a group --------------------------------------------------------------

  lemma {:induction false} XorSwap(a: nat, b: nat)
    ensures Xor(a, b) == Xor(b, a)
    decreases a + b
  {
    if a > 0 || b > 0 {
      XorSwap(a / 2, b / 2);
    }
  }

  lemma {:induction false} XorRegroup(a: nat, b: nat, c: nat)
    ensures Xor(Xor(a, b), c) == Xor(a, Xor(b, c))
    decreases a + b + c
  {
    if a > 0 || b > 0 || c > 0 {
      XorRegroup(a / 2, b / 2, c / 2);
      LowBit(a, b);
      LowBit(b, c);
      LowBit(Xor(a, b), c);
      LowBit(a, Xor(b, c));
    }
  }

  lemma {:induction false} XorShifted(a: nat, b: nat, k: nat)
    ensures T.Shr(Xor(a, b), k) == Xor(T.Shr(a, k), T.Shr(b, k))
    decreases k
  {
    assert Pow2(0) == 1;
    if k > 0 {
      XorShifted(a / 2, b / 2, k - 1);
      LowBit(a, b);
      OneLess(a, k);
      OneLess(b, k);
      OneLess(Xor(a, b), k);
    }
  }

  lemma OneLess(x: nat, k: nat)
    requires k > 0
    ensures T.Shr(x, k) == T.Shr(x / 2, k - 1)
  {
    DivDiv(x, 2, Pow2(k - 1), Pow2(k));
  }

  // ---- every step of the mixer is undone ------------------------------------------------

  // x ^ (x >> 16)
  function Folded16(x: u32): u32 { Xor32(x, x / 0x1_0000) }

  // x ^ (x >> 13)
  function Folded13(x: u32): u32 { Xor32(x, x / 0x2000) }

  lemma Shifts(x: u32)
    ensures T.Shr(x, 16) == x / 0x1_0000 && T.Shr(x / 0x1_0000, 16) == 0
    ensures T.Shr(x, 13) == x / 0x2000 && T.Shr(x / 0x2000, 13) == x / 0x400_0000
    ensures T.Shr(x / 0x400_0000, 13) == 0
  {
    Pow256IsPow2(2);
    assert Pow2(13) == 0x2000;
  }

  lemma Unfolded16(x: u32)
    ensures Folded16(Folded16(x)) == x
  {
    var s := x / 0x1_0000;
    var y := Xor32(x, s);
    Shifts(x);
    Shifts(y);
    XorShifted(x, s, 16);
    XorZero(s);
    XorTwice(x, s);
  }

  lemma Unfolded13(x: u32)
    ensures var y := Folded13(x); Xor32(Folded13(y), y / 0x400_0000) == x
  {
    var a, b := x / 0x2000, x / 0x400_0000;
    var y := Xor32(x, a);
    Shifts(x);
    Shifts(y);
    XorShifted(x, a, 13);
    XorShifted(a, b, 13);
    XorZero(b);
    Cancels(x, a, b);
  }

  lemma Cancels(x: nat, a: nat, b: nat)
    ensures Xor(Xor(Xor(x, a), Xor(a, b)), b) == x
  {
    XorRegroup(Xor(x, a), a, b);
    XorTwice(x, a);
    XorTwice(x, b);
  }

  // A product by a number that has an inverse modulo 2^32.
  lemma Divided(a: u32, factor: u32, inverse: u32)
    requires factor * inverse % (U32_MAX + 1) == 1
    ensures WrappingMul(WrappingMul(a, factor), inverse) == a
  {
    var n := U32_MAX + 1;
    var q, l := a * factor / n, factor * inverse / n;
    var w := WrappingMul(a, factor);
    assert factor * inverse == l * n + 1;
    WholeParts(a, factor, inverse, n, q, l, w);
    MulMono(0, w, inverse);
    Residue(a, a * l - q * inverse, n, w * inverse);
  }

  lemma WholeParts(a: int, factor: int, inverse: int, n: int, q: int, l: int, w: int)
    requires a * factor == q * n + w && factor * inverse == l * n + 1
    ensures w * inverse == a + (a * l - q * inverse) * n
  {
    assert (a * factor) * inverse == a * (factor * inverse);
    assert (q * n + w) * inverse == q * inverse * n + w * inverse;
    assert a * (l * n + 1) == a * l * n + a;
    assert (a * l - q * inverse) * n == a * l * n - q * inverse * n;
  }

  lemma Residue(a: nat, k: int, n: nat, v: nat)
    requires a < n && v == a + k * n
    ensures v % n == a
  {
    if k < 0 {
      MulMono(k, -1, n);
    } else {
      Distribute(n, k, 1);
      DivUnique(v, n, k);
      Remainder(v, n, k, a);
    }
  }

  lemma Remainder(v: nat, n: nat, q: nat, r: nat)
    requires n > 0 && v / n == q && v == r + q * n
    ensures v % n == r
  {
  }

  // Turned right by 13 and by 15 bits.
  function Right13(x: u32): u32 { x / 0x2000 + x % 0x2000 * 0x8_0000 }
  function Right15(x: u32): u32 { x / 0x8000 + x % 0x8000 * 0x2_0000 }

  lemma Rotated13(a: u32)
    ensures Right13(Rotate13(a)) == a
  {
    var high, low := a / 0x8_0000, a % 0x8_0000;
    assert a * 0x2000 == high * 0x1_0000_0000 + low * 0x2000;
    Residue(low * 0x2000 + high, high, U32_MAX + 1, a * 0x2000 + high);
    LowHigh(low, high, 0x2000);
  }

  lemma Rotated15(a: u32)
    ensures Right15(Rotate15(a)) == a
  {
    var high, low := a / 0x2_0000, a % 0x2_0000;
    assert a * 0x8000 == high * 0x1_0000_0000 + low * 0x8000;
    Residue(low * 0x8000 + high, high, U32_MAX + 1, a * 0x8000 + high);
    LowHigh(low, high, 0x8000);
  }

  lemma LowHigh(low: nat, high: nat, base: nat)
    requires high < base
    ensures (low * base + high) / base == low && (low * base + high) % base == high
  {
    DivUnique(low * base + high, base, low);
    Residue(high, low, base, low * base + high);
  }

  // The key before a key: the steps of the mixer undone, last first.
  function Unmixed(k: u32): u32 {
    Unscrambled(Unseeded(Unfinished(k)))
  }

  function Unfinished(k: u32): u32 {
    Unsecond(Unthird(Folded16(k)))
  }

  function Unthird(k: u32): u32 {
    var h := WrappingMul(k, 0x7ED1_B41D);
    Xor32(Folded13(h), h / 0x400_0000)
  }

  function Unsecond(k: u32): u32 { Folded16(WrappingMul(k, 0xA5CB_9243)) }

  function Unseeded(h: u32): u32 { Xor32(Unturned(Xor32(h, 4)), 0xB10C_FEED) }

  function Unturned(h: u32): u32 { Right13(WrappingMul(WrappingAdd(h, 0x19AB_949C), 0xCCCC_CCCD)) }

  function Unscrambled(k: u32): u32 {
    WrappingMul(Right15(WrappingMul(k, 0x56ED_309B)), 0xDEE1_3BB1)
  }

  function Scrambled(i: u32): u32 {
    WrappingMul(Rotate15(WrappingMul(i, 0xCC9E_2D51)), 0x1B87_3593)
  }

  lemma ScrambledBack(i: u32)
    ensures Unscrambled(Scrambled(i)) == i
  {
    var k := WrappingMul(i, 0xCC9E_2D51);
    Divided(Rotate15(k), 0x1B87_3593, 0x56ED_309B);
    Rotated15(k);
    Divided(i, 0xCC9E_2D51, 0xDEE1_3BB1);
  }

  function Turned(x: u32): u32 { WrappingAdd(WrappingMul(Rotate13(x), 5), 0xE654_6B64) }

  lemma TurnedBack(x: u32)
    ensures Unturned(Turned(x)) == x
  {
    AddedBack(WrappingMul(Rotate13(x), 5));
    Divided(Rotate13(x), 5, 0xCCCC_CCCD);
    Rotated13(x);
  }

  lemma AddedBack(m: u32)
    ensures WrappingAdd(WrappingAdd(m, 0xE654_6B64), 0x19AB_949C) == m
  {
  }

  function Seeded(k: u32): u32 { Xor32(Turned(Xor32(0xB10C_FEED, k)), 4) }

  lemma SeededBack(k: u32)
    ensures Unseeded(Seeded(k)) == k
  {
    XorTwice(Turned(Xor32(0xB10C_FEED, k)), 4);
    TurnedBack(Xor32(0xB10C_FEED, k));
    XorSwap(0xB10C_FEED, k);
    XorTwice(k, 0xB10C_FEED);
  }

  function Second(h: u32): u32 { WrappingMul(Folded16(h), 0x85EB_CA6B) }

  lemma SecondBack(h: u32)
    ensures Unsecond(Second(h)) == h
  {
    Divided(Folded16(h), 0x85EB_CA6B, 0xA5CB_9243);
    Unfolded16(h);
  }

  function Third(h: u32): u32 { WrappingMul(Folded13(h), 0xC2B2_AE35) }

  lemma ThirdBack(h: u32)
    ensures Unthird(Third(h)) == h
  {
    Divided(Folded13(h), 0xC2B2_AE35, 0x7ED1_B41D);
    Unfolded13(h);
  }

  function Finished(h: u32): u32 { Folded16(Third(Second(h))) }

  lemma FinishedBack(h: u32)
    ensures Unfinished(Finished(h)) == h
  {
    Unfolded16(Third(Second(h)));
    ThirdBack(Second(h));
    SecondBack(h);
  }

  lemma InThreeParts(i: u32)
    ensures Feedback(i) == Finished(Seeded(Scrambled(i)))
  {
  }

  // The mixer is undone step by step, so it never gives one key for two.
  lemma FeedbackBack(i: u32)
    ensures Unmixed(Feedback(i)) == i
  {
    InThreeParts(i);
    FinishedBack(Seeded(Scrambled(i)));
    SeededBack(Scrambled(i));
    ScrambledBack(i);
  }

  // ---- keys never meet ------------------------------------------------------------------

  ghost predicate OneToOne(mix: u32 -> u32) {
    forall a, b :: mix(a) == mix(b) ==> a == b
  }

  lemma FeedbackOneToOne()
    ensures OneToOne(Feedback)
  {
    forall a: u32, b: u32 | Feedback(a) == Feedback(b) ensures a == b {
      FeedbackBack(a);
      FeedbackBack(b);
    }
  }

  lemma {:induction false} StayApart(mix: u32 -> u32, a: u32, b: u32, n: nat)
    requires OneToOne(mix)
    ensures R.KeyAfter(mix, a, n) == R.KeyAfter(mix, b, n) <==> a == b
    decreases n
  {
    if n > 0 {
      StayApart(mix, mix(a), mix(b), n - 1);
    }
  }

  // Two ends whose keys differ before a frame differ before every later one, however many
  // headers each has read: keys out of step never fall back into it.
  lemma KeysStayApart(a: u32, b: u32, n: nat)
    ensures R.KeyAfter(Feedback, a, n) == R.KeyAfter(Feedback, b, n) <==> a == b
  {
    FeedbackOneToOne();
    StayApart(Feedback, a, b, n);
  }

  // The two directions of a session start from a seed and its complement, so they never use
  // the same key for the same frame.
  lemma DirectionsApart(seed: u32, complement: u32, n: nat)
    requires complement == U32_MAX - seed
    ensures R.KeyAfter(Feedback, seed, n) != R.KeyAfter(Feedback, complement, n)
  {
    KeysStayApart(seed, complement, n);
  }
}
