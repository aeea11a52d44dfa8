// Proof-of-work targets: 32-byte little-endian numbers shifted, compared and decoded byte
// by byte, each operation tied to the number the bytes stand for.
module Target {
  import opened Prelude
  import opened Bits
  import opened LittleEndian

  const HASH_LEN := 32

  // ---- little-endian numbers ----------------------------------------------------------

  lemma {:induction false} Pow256Add(a: nat, b: nat)
    ensures Pow256(a + b) == Pow256(a) * Pow256(b)
    decreases a
  {
    if a > 0 {
      Pow256Add(a - 1, b);
      assert Pow256(a + b) == 0x100 * Pow256((a - 1) + b);
    }
  }

  // Dropping low bytes is floor division.
  lemma DropLowBytes(n: seq<byte>, k: nat)
    requires k <= |n|
    ensures FromLe(n[k..] + Zeros(k)) == FromLe(n) / Pow256(k)
  {
    ZerosAbove(n[k..], k);
    FromLeConcat(n[..k], n[k..]);
    assert n[..k] + n[k..] == n;
    FromLeBounded(n[..k]);
    var q := FromLe(n[k..]);
    Distribute(Pow256(k), q, 1);
    DivUnique(FromLe(n), Pow256(k), q);
  }

  // ---- shifting right -----------------------------------------------------------------

  // `x >> k`, and `x << k` in eight bits.
  function Shr(x: nat, k: nat): nat {
    DivAtLeast(x, Pow2(k), 0);
    x / Pow2(k)
  }

  function Shl8(x: nat, k: nat): nat { x * Pow2(k) % 0x100 }

  // The low bits of x's neighbour `up`, moved into the space x >> rem leaves.
  function Merged(x: byte, up: byte, rem: nat): (r: byte)
    requires 0 < rem < 8
  {
    MergedSum(x, up, rem);
    Or(Shr(x, rem), Shl8(up, 8 - rem))
  }

  lemma MergedSum(x: byte, up: byte, rem: nat)
    requires 0 < rem < 8
    ensures Or(Shr(x, rem), Shl8(up, 8 - rem)) == x / Pow2(rem) + up % Pow2(rem) * Pow2(8 - rem)
    ensures Or(Shr(x, rem), Shl8(up, 8 - rem)) < 0x100
  {
    var p, q := Pow2(rem), Pow2(8 - rem);
    Pow2Add(rem, 8 - rem);
    Pow2Of8();
    CarriedBits(up, p, q);
    QuotientBelow(x, p, q);
    OrDisjoint(Shr(x, rem), up % p, 8 - rem);
    ScaledBetween(x / p, up % p, q, p);
  }

  lemma CarriedBits(v: nat, p: nat, q: nat)
    requires p > 0 && q > 0 && p * q == 0x100
    ensures v * q % 0x100 == v % p * q
  {
    var d, r := v / p, v % p;
    DivBounds(v, p);
    assert v == d * p + r;
    Distribute(q, d * p, r);
    assert (d * p) * q == d * 0x100;
    MulMono(r + 1, p, q);
    Distribute(q, r, 1);
    assert v * q == 0x100 * d + r * q;
  }

  lemma QuotientBelow(x: nat, p: nat, q: nat)
    requires p > 0 && x < p * q
    ensures x / p < q
  {
    DivBounds(x, p);
    MulCancelStrict(x / p, q, p);
  }

  function ShiftedBits(n: seq<byte>, rem: nat): (r: seq<byte>)
    requires 0 < rem < 8
    ensures |r| == |n|
  {
    Pow2Of8();
    seq(|n|, i requires 0 <= i < |n| => if i + 1 < |n| then Merged(n[i], n[i + 1], rem) else TopByte(n[i], rem))
  }

  function TopByte(x: byte, rem: nat): (r: byte) {
    ShrShrinks(x, rem);
    Shr(x, rem)
  }

  lemma ShrShrinks(x: nat, k: nat)
    ensures Shr(x, k) <= x
  {
    DivBounds(x, Pow2(k));
    MulMono(1, Pow2(k), Shr(x, k));
  }

  // One byte of the carry, as arithmetic: with 256 = p * q,
  // floor((x + 256 (t + 256 v)) / p) = x/p + (t mod p) q + 256 floor((t + 256 v) / p).
  lemma ShiftStep(x: byte, n: nat, t: byte, v: nat, p: nat, q: nat)
    requires p > 0 && p * q == 0x100 && n == t + 0x100 * v
    ensures (x + 0x100 * n) / p == x / p + t % p * q + 0x100 * (n / p)
  {
    assert 0x100 * n == (q * n) * p;
    QuotientOfSum(x, q * n, p);
    assert 0x100 * v == (q * v) * p;
    QuotientOfSum(t, q * v, p);
    var d, r := t / p, t % p;
    assert t == d * p + r;
    Distribute(q, d * p, r);
    assert (d * p) * q == d * 0x100;
    Distribute(q, t, 0x100 * v);
    assert q * (0x100 * v) == 0x100 * (q * v);
  }

  lemma QuotientOfSum(x: nat, k: nat, p: nat)
    requires p > 0
    ensures (x + k * p) / p == x / p + k
  {
    DivBounds(x, p);
    Distribute(p, x / p, k);
    Distribute(p, x / p + 1, k);
    DivUnique(x + k * p, p, x / p + k);
  }

  lemma {:induction false} ShiftedBitsDivides(n: seq<byte>, rem: nat)
    requires 0 < rem < 8
    ensures FromLe(ShiftedBits(n, rem)) == FromLe(n) / Pow2(rem)
  {
    var p, q := Pow2(rem), Pow2(8 - rem);
    if |n| == 1 {
      assert n[1..] == [] && ShiftedBits(n, rem)[1..] == [];
    } else if |n| > 1 {
      ShiftedBitsDivides(n[1..], rem);
      var r := ShiftedBits(n, rem);
      assert r[1..] == ShiftedBits(n[1..], rem);
      Pow2Add(rem, 8 - rem);
      Pow2Of8();
      MergedSum(n[0], n[1], rem);
      ShiftStep(n[0], FromLe(n[1..]), n[1], FromLe(n[1..][1..]), p, q);
    } else {
      DivUnique(0, p, 0);
    }
  }

  // Divide in place by 2^bits.
  method ShrLe(n: array<byte>, bits: nat)
    requires n.Length == HASH_LEN && bits / 8 <= HASH_LEN
    modifies n
    ensures FromLe(n[..]) == FromLe(old(n[..])) / Pow2(bits)
  {
    ghost var was := FromLe(n[..]);
    var bytes, rem := bits / 8, bits % 8;
    if bytes > 0 {
      MoveDown(n, bytes);
    }
    if rem > 0 {
      ShiftBits(n, rem);
    }
    ShiftsCompose(was, bytes, rem);
  }

  lemma ShiftsCompose(v: nat, bytes: nat, rem: nat)
    ensures v / Pow256(bytes) / Pow2(rem) == v / Pow2(8 * bytes + rem)
    ensures rem == 0 ==> v / Pow256(bytes) == v / Pow2(8 * bytes)
    ensures bytes == 0 ==> v / Pow2(rem) == v / Pow2(8 * bytes + rem)
    ensures v == v / Pow2(0)
  {
    Pow256IsPow2(bytes);
    Pow2Add(8 * bytes, rem);
    DivDiv(v, Pow256(bytes), Pow2(rem), Pow2(8 * bytes + rem));
  }

  method MoveDown(n: array<byte>, bytes: nat)
    requires bytes <= n.Length
    modifies n
    ensures FromLe(n[..]) == FromLe(old(n[..])) / Pow256(bytes)
  {
    DropLowBytes(n[..], bytes);
    forall i | 0 <= i < n.Length {
      n[i] := if i < n.Length - bytes then n[i + bytes] else 0;
    }
    assert n[..] == old(n[..])[bytes..] + Zeros(bytes);
  }

  method ShiftBits(n: array<byte>, rem: nat)
    requires n.Length == HASH_LEN && 0 < rem < 8
    modifies n
    ensures FromLe(n[..]) == FromLe(old(n[..])) / Pow2(rem)
  {
    ghost var was := n[..];
    ShiftedBitsDivides(was, rem);
    for i := 0 to 31
      invariant forall k :: 0 <= k < i ==> n[k] == ShiftedBits(was, rem)[k]
      invariant forall k :: i <= k < 32 ==> n[k] == was[k]
    {
      n[i] := Merged(n[i], n[i + 1], rem);
    }
    n[31] := TopByte(n[31], rem);
    assert n[..] == ShiftedBits(was, rem);
  }

  // ---- the share target ---------------------------------------------------------------

  const BASE_BITS := 224

  lemma {:induction false} FromLeOnes(n: seq<byte>)
    requires forall i :: 0 <= i < |n| ==> n[i] == 0xFF
    ensures FromLe(n) == Pow256(|n|) - 1
  {
    if n != [] {
      FromLeOnes(n[1..]);
    }
  }

  // (2^224 - 1) / 2^pot, for powers of two below 2^224.
  method ShareTargetLe(pot: byte) returns (r: Option<Hash>)
    ensures r.Some? <==> pot < BASE_BITS
    ensures r.Some? ==> FromLe(r.value) == (Pow2(BASE_BITS) - 1) / Pow2(pot)
  {
    if pot >= BASE_BITS {
      return None;
    }
    var t := new byte[HASH_LEN](i => if i < 28 then 0xFF else 0);
    BaseTarget(t[..]);
    ShrLe(t, pot);
    r := Some(t[..]);
  }

  lemma BaseTarget(t: seq<byte>)
    requires |t| == HASH_LEN && forall i :: 0 <= i < HASH_LEN ==> t[i] == if i < 28 then 0xFF else 0
    ensures FromLe(t) == Pow2(BASE_BITS) - 1
  {
    assert t == t[..28] + Zeros(4);
    ZerosAbove(t[..28], 4);
    FromLeOnes(t[..28]);
    Pow256IsPow2(28);
  }

  // ---- comparing ----------------------------------------------------------------------

  // Two numbers that agree above byte i are ordered by byte i, if it differs.
  lemma TopByteDecides(a: seq<byte>, b: seq<byte>, i: nat)
    requires |a| == |b| && i < |a| && a[i + 1..] == b[i + 1..] && a[i] < b[i]
    ensures FromLe(a) < FromLe(b)
  {
    SplitAt(a, i);
    SplitAt(b, i);
    FromLeBounded(a[..i]);
    var w := Pow256(i);
    MulMono(FromLe(a[i..]) + 1, FromLe(b[i..]), w);
    Distribute(w, FromLe(a[i..]), 1);
  }

  lemma SplitAt(a: seq<byte>, i: nat)
    requires i < |a|
    ensures FromLe(a) == FromLe(a[..i]) + FromLe(a[i..]) * Pow256(i)
    ensures FromLe(a[i..]) == a[i] + 0x100 * FromLe(a[i + 1..])
  {
    FromLeConcat(a[..i], a[i..]);
    assert a[..i] + a[i..] == a;
    FirstByte(a[i..], a[i], a[i + 1..]);
  }

  // Byte-wise comparison from the top is comparison of the numbers.
  method MeetsTarget(hash: Hash, target: Hash) returns (r: bool)
    ensures r <==> FromLe(hash) <= FromLe(target)
  {
    for i := HASH_LEN downto 0
      invariant hash[i..] == target[i..]
    {
      if hash[i] != target[i] {
        if hash[i] < target[i] {
          TopByteDecides(hash, target, i);
        } else {
          TopByteDecides(target, hash, i);
        }
        return hash[i] < target[i];
      }
      assert hash[i..] == [hash[i]] + hash[i + 1..];
      assert target[i..] == [target[i]] + target[i + 1..];
    }
    assert hash[0..] == hash && target[0..] == target;
    return true;
  }

  // ---- difficulty of a hash -----------------------------------------------------------

  // u8 `leading_zeros`.
  function LeadingZeros(b: byte): (r: nat)
    ensures r <= 8
    ensures b < Pow2(8 - r)
    ensures r < 8 ==> Pow2(7 - r) <= b
  {
    Pow2Of8();
    assert Pow2(7) == 0x80 && Pow2(6) == 0x40 && Pow2(5) == 0x20 && Pow2(4) == 0x10;
    assert Pow2(3) == 8 && Pow2(2) == 4 && Pow2(1) == 2 && Pow2(0) == 1;
    if b >= 0x80 then 0 else if b >= 0x40 then 1 else if b >= 0x20 then 2 else if b >= 0x10 then 3
    else if b >= 8 then 4 else if b >= 4 then 5 else if b >= 2 then 6 else if b >= 1 then 7 else 8
  }

  // lz is the number of leading zero bits of a 256-bit v.
  ghost predicate IsLeadingZeros(v: nat, lz: nat) {
    lz <= 256 && v < Pow2(256 - lz) && (lz < 256 ==> Pow2(255 - lz) <= v)
  }

  lemma LeadingZerosAt(h: Hash, i: nat)
    requires i < HASH_LEN && h[i] != 0 && h[i + 1..] == Zeros(31 - i)
    ensures IsLeadingZeros(FromLe(h), 8 * (31 - i) + LeadingZeros(h[i]))
  {
    SplitAt(h, i);
    FromLeZeros(31 - i);
    FromLeBounded(h[..i]);
    Pow256IsPow2(i);
    LeadingDigit(FromLe(h[..i]), h[i], i);
  }

  lemma LeadingDigit(low: nat, digit: byte, i: nat)
    requires i < HASH_LEN && digit != 0 && low < Pow2(8 * i)
    ensures IsLeadingZeros(low + digit * Pow2(8 * i), 8 * (31 - i) + LeadingZeros(digit))
  {
    var lz, w := LeadingZeros(digit), Pow2(8 * i);
    assert Pow2(0) == 1;
    ScaledBetween(low, digit, w, Pow2(8 - lz));
    MulMono(Pow2(7 - lz), digit, w);
    Pow2Add(8 - lz, 8 * i);
    Pow2Add(7 - lz, 8 * i);
  }

  lemma ScaledBetween(low: nat, digit: nat, w: nat, bound: nat)
    requires low < w && digit < bound
    ensures low + digit * w < bound * w
  {
    MulMono(digit + 1, bound, w);
    Distribute(w, digit, 1);
  }

  ghost predicate MeetsShareTarget(v: nat, pot: nat)
  {
    v <= (Pow2(BASE_BITS) - 1) / Pow2(pot)
  }

  // Leading zero bits beyond the first 32: at least pot, for pot from 1 to 223, exactly
  // when the hash meets the share target of pot.
  method HashPot(h: Hash) returns (pot: nat)
    ensures pot <= BASE_BITS
    ensures forall p :: 1 <= p < BASE_BITS ==> (MeetsShareTarget(FromLe(h), p) <==> p <= pot)
  {
    var lz := 0;
    var i := HASH_LEN;
    while i > 0
      invariant 0 <= i <= HASH_LEN
      invariant lz == 8 * (HASH_LEN - i) && h[i..] == Zeros(HASH_LEN - i)
    {
      i := i - 1;
      if h[i] == 0 {
        lz := lz + 8;
        ZeroBelow(h, i);
      } else {
        LeadingZerosAt(h, i);
        lz := lz + LeadingZeros(h[i]);
        PotMeetsTargets(h, lz);
        return SatSub(lz, 32);
      }
    }
    AllZeros(h);
    PotMeetsTargets(h, lz);
    return SatSub(lz, 32);
  }

  lemma PotMeetsTargets(h: Hash, lz: nat)
    requires IsLeadingZeros(FromLe(h), lz)
    ensures forall p :: 1 <= p < BASE_BITS ==> (MeetsShareTarget(FromLe(h), p) <==> p <= SatSub(lz, 32))
  {
    forall p | 1 <= p < BASE_BITS ensures MeetsShareTarget(FromLe(h), p) <==> p <= SatSub(lz, 32) {
      PotMeetsTarget(h, lz, p);
    }
  }

  lemma ZeroBelow(h: Hash, i: nat)
    requires i < HASH_LEN && h[i] == 0 && h[i + 1..] == Zeros(31 - i)
    ensures h[i..] == Zeros(HASH_LEN - i)
  {
    assert h[i..] == [h[i]] + h[i + 1..];
  }

  lemma AllZeros(h: Hash)
    requires h[0..] == Zeros(HASH_LEN)
    ensures IsLeadingZeros(FromLe(h), 256)
  {
    assert h[0..] == h;
    FromLeZeros(HASH_LEN);
    assert Pow2(0) == 1;
  }

  lemma ShareTargetValue(pot: nat)
    requires pot < BASE_BITS
    ensures (Pow2(BASE_BITS) - 1) / Pow2(pot) == Pow2(BASE_BITS - pot) - 1
  {
    Pow2Add(pot, BASE_BITS - pot);
    OneShortOfProduct(Pow2(pot), Pow2(BASE_BITS - pot), Pow2(BASE_BITS));
  }

  lemma OneShortOfProduct(p: nat, q: nat, pq: nat)
    requires p > 0 && q > 0 && pq == p * q > 0
    ensures (pq - 1) / p == q - 1
  {
    Distribute(p, q, -1);
    DivUnique(pq - 1, p, q - 1);
  }

  // A value meets the share target of 2^pot exactly when it is below 2^(224 - pot).
  lemma ShareTargetIsPower(pot: nat, v: nat)
    requires pot < BASE_BITS
    ensures v <= (Pow2(BASE_BITS) - 1) / Pow2(pot) <==> v < Pow2(BASE_BITS - pot)
  {
    ShareTargetValue(pot);
  }

  // Difficulty and target agree: for 1 <= pot < 224 a hash meets the share target of pot
  // exactly when its own difficulty is at least pot. At pot = 0 every hash has the
  // difficulty but only those below 2^224 meet the target.
  lemma PotMeetsTarget(h: Hash, lz: nat, pot: nat)
    requires IsLeadingZeros(FromLe(h), lz) && pot < BASE_BITS
    ensures pot >= 1 ==> (FromLe(h) <= (Pow2(BASE_BITS) - 1) / Pow2(pot) <==> SatSub(lz, 32) >= pot)
    ensures pot == 0 ==> (FromLe(h) <= (Pow2(BASE_BITS) - 1) / Pow2(pot) <==> lz >= 32)
  {
    ShareTargetIsPower(pot, FromLe(h));
    if lz >= 32 + pot {
      Pow2Mono(256 - lz, BASE_BITS - pot);
    } else {
      Pow2Mono(BASE_BITS - pot, 255 - lz);
    }
  }

  // ---- compact targets ----------------------------------------------------------------

  function NbitsExp(nbits: u32): nat { nbits / 0x100_0000 }
  function NbitsMantissa(nbits: u32): nat { nbits % 0x80_0000 }
  predicate NbitsNegative(nbits: u32) { nbits / 0x80_0000 % 2 == 1 }

  // floor(mantissa * 256^(exp - 3))
  function CompactValue(exp: nat, mant: nat): int {
    if exp >= 3 then mant * Pow256(exp - 3) else mant / Pow256(3 - exp)
  }

  method NbitsToTargetLe(nbits: u32) returns (r: Option<Hash>)
    ensures r.Some? <==> !NbitsNegative(nbits) && NbitsMantissa(nbits) != 0 && NbitsExp(nbits) <= 32
    ensures r.Some? ==> FromLe(r.value) == CompactValue(NbitsExp(nbits), NbitsMantissa(nbits))
  {
    var exp, mant := NbitsExp(nbits), NbitsMantissa(nbits);
    if NbitsNegative(nbits) || mant == 0 {
      return None;
    }
    if exp <= 3 {
      var v := mant / Pow2(8 * (3 - exp));
      SmallValue(mant, 3 - exp);
      assert Pow256(0) == 1;
      var small := Placed(ToLe(v, 4), 0);
      return Some(small);
    }
    if exp > 32 {
      return None;
    }
    LowThree(mant);
    // exp - 3 + 2 is at most 31, so every byte has its place.
    var large := Placed(ToLe(mant, 4)[..3], exp - 3);
    return Some(large);
  }

  // Bytes in an otherwise zero hash.
  method Placed(bytes: seq<byte>, at: nat) returns (h: Hash)
    requires at + |bytes| <= HASH_LEN
    ensures FromLe(h) == FromLe(bytes) * Pow256(at)
  {
    var t := new byte[HASH_LEN](_ => 0);
    Place(t, at, bytes);
    PlacedValue(t[..], at, bytes, FromLe(bytes));
    h := t[..];
  }

  lemma SmallValue(mant: nat, k: nat)
    requires mant < 0x80_0000 && k <= 3
    ensures Pow2(8 * k) == Pow256(k) && mant / Pow2(8 * k) < Pow256(4)
    ensures FromLe(ToLe(mant / Pow2(8 * k), 4)) == mant / Pow256(k)
  {
    Widths();
    Pow256IsPow2(k);
    DivBounds(mant, Pow256(k));
    MulMono(1, Pow256(k), mant / Pow256(k));
    LeRoundTrip(mant / Pow256(k), 4);
  }

  lemma LowThree(mant: nat)
    requires mant < 0x80_0000
    ensures FromLe(ToLe(mant, 4)[..3]) == mant
  {
    Widths();
    LeRoundTrip(mant, 4);
    var b := ToLe(mant, 4);
    assert b[..3] + b[3..] == b;
    FromLeConcat(b[..3], b[3..]);
    assert Pow256(3) == 0x100_0000;
    FromLeBounded(b[..3]);
  }

  method Place(t: array<byte>, at: nat, bytes: seq<byte>)
    requires at + |bytes| <= t.Length
    modifies t
    ensures t[..] == old(t[..])[..at] + bytes + old(t[..])[at + |bytes|..]
  {
    forall i | 0 <= i < |bytes| {
      t[at + i] := bytes[i];
    }
  }

  lemma PlacedValue(t: seq<byte>, at: nat, bytes: seq<byte>, v: nat)
    requires at + |bytes| <= |t| && FromLe(bytes) == v
    requires t == Zeros(|t|)[..at] + bytes + Zeros(|t|)[at + |bytes|..]
    ensures FromLe(t) == v * Pow256(at)
  {
    var above := |t| - at - |bytes|;
    assert t == Zeros(at) + (bytes + Zeros(above));
    FromLeConcat(Zeros(at), bytes + Zeros(above));
    FromLeZeros(at);
    ZerosAbove(bytes, above);
  }

  // A target decoded from an exponent of at most 32 always fits in 256 bits. Larger
  // exponents are all refused, although a non-zero mantissa still fits exactly when the
  // exponent is 33 with mantissa below 2^16, or 34 with mantissa below 2^8.
  lemma NbitsRefusedThoughFits(exp: byte, mant: nat)
    requires 0 < mant < 0x80_0000
    ensures CompactValue(exp, mant) < Pow256(HASH_LEN)
            <==> exp <= 32 || (exp == 33 && mant < 0x1_0000) || (exp == 34 && mant < 0x100)
  {
    if exp >= 3 {
      CompactFits(exp, mant);
    } else {
      SmallValue(mant, 3 - exp);
      Pow256Mono(4, HASH_LEN);
    }
  }

  lemma {:induction false} Pow256Mono(a: nat, b: nat)
    requires a <= b
    ensures Pow256(a) <= Pow256(b)
  {
    if a < b {
      Pow256Mono(a, b - 1);
    }
  }

  lemma CompactFits(exp: nat, mant: nat)
    requires 3 <= exp <= 0xFF && 0 < mant < 0x80_0000
    ensures mant * Pow256(exp - 3) < Pow256(HASH_LEN) <==>
              exp <= 32 || (exp == 33 && mant < 0x1_0000) || (exp == 34 && mant < 0x100)
  {
    var w := Pow256(exp - 3);
    assert Pow256(0) == 1;
    if exp <= 35 {
      Pow256Add(35 - exp, exp - 3);
      CompareScaled(mant, Pow256(35 - exp), w);
      RoomAbove(exp);
    } else {
      Pow256Mono(HASH_LEN, exp - 3);
      MulMono(1, mant, w);
    }
  }

  lemma RoomAbove(exp: nat)
    requires exp <= 35
    ensures exp <= 32 ==> Pow256(35 - exp) >= 0x100_0000
    ensures exp == 33 ==> Pow256(35 - exp) == 0x1_0000
    ensures exp == 34 ==> Pow256(35 - exp) == 0x100
    ensures exp == 35 ==> Pow256(35 - exp) == 1
  {
    assert Pow256(1) == 0x100 && Pow256(2) == 0x1_0000 && Pow256(3) == 0x100_0000;
    if exp <= 32 {
      Pow256Mono(3, 35 - exp);
    }
  }

  lemma CompareScaled(a: nat, b: nat, w: nat)
    requires w > 0
    ensures a * w < b * w <==> a < b
  {
    if a < b {
      MulMono(a + 1, b, w);
      Distribute(w, a, 1);
    } else {
      MulMono(b, a, w);
    }
  }
}
