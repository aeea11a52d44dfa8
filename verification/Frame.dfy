// The frame header: one masked 32-bit word, under a key that both sides walk in step.
module Frame {
  import opened Prelude
  import opened Bits
  import opened LittleEndian
  import opened Wire

  const MAX_CMD_LEN := 0x40_0000
  const HEADER_SIZE := 4

  // ---- the key schedule ---------------------------------------------------------------

  lemma WordIs32Bits()
    ensures Pow2(32) == U32_MAX + 1
  {
    Widths();
    Pow256IsPow2(4);
  }

  function Xor32(a: u32, b: u32): (r: u32) {
    WordIs32Bits();
    XorBounded(a, b, 32);
    Xor(a, b)
  }

  function WrappingMul(a: u32, b: u32): u32 { a * b % (U32_MAX + 1) }
  function WrappingAdd(a: u32, b: u32): u32 { (a + b) % (U32_MAX + 1) }
  function Rotate13(x: u32): u32 { (x * 0x2000 + x / 0x8_0000) % (U32_MAX + 1) }
  function Rotate15(x: u32): u32 { (x * 0x8000 + x / 0x2_0000) % (U32_MAX + 1) }

  // The client's mixer for the next header key.
  function Feedback(i: u32): u32 {
    var k1 := WrappingMul(i, 0xCC9E_2D51);
    var k2 := Rotate15(k1);
    var k3 := WrappingMul(k2, 0x1B87_3593);
    var h1 := Xor32(0xB10C_FEED, k3);
    var h2 := Rotate13(h1);
    var h3 := WrappingAdd(WrappingMul(h2, 5), 0xE654_6B64);
    var h4 := Xor32(h3, 4);
    var h5 := Xor32(h4, h4 / 0x1_0000);
    var h6 := WrappingMul(h5, 0x85EB_CA6B);
    var h7 := Xor32(h6, h6 / 0x2000);
    var h8 := WrappingMul(h7, 0xC2B2_AE35);
    Xor32(h8, h8 / 0x1_0000)
  }

  // ---- the header ---------------------------------------------------------------------

  datatype Header = Header(len: u32, signed: bool, sealed: bool, channel: bool, cmd: byte)
  {
    // The length has 22 bits on the wire, the command five.
    predicate Fits() { len < MAX_CMD_LEN && cmd < 0x20 }
  }

  function Flag(b: bool): nat { if b then 1 else 0 }

  function Word(len: nat, signed: nat, sealed: nat, channel: nat, cmd: nat): nat {
    Or(Or(Or(Or(len, Shl(signed, 24)), Shl(sealed, 25)), Shl(channel, 26)), Shl(cmd, 27))
  }

  function ToU32(h: Header): nat {
    Word(h.len % MAX_CMD_LEN, Flag(h.signed), Flag(h.sealed), Flag(h.channel), h.cmd % 0x20)
  }

  function FromU32(v: u32): Header {
    Header(v % MAX_CMD_LEN, v / 0x100_0000 % 2 == 1, v / 0x200_0000 % 2 == 1, v / 0x400_0000 % 2 == 1, v / 0x800_0000)
  }

  lemma Powers()
    ensures Pow2(24) == 0x100_0000 && Pow2(25) == 0x200_0000 && Pow2(26) == 0x400_0000 && Pow2(27) == 0x800_0000
  {
    Pow256IsPow2(3);
    assert Pow256(3) == 0x100_0000;
  }

  lemma OrAbove(low: nat, x: nat, k: nat)
    requires low < Pow2(k)
    ensures Or(low, Shl(x, k)) == low + x * Pow2(k)
  {
    OrDisjoint(low, x, k);
  }

  ghost predicate IsSum(v: int, len: nat, signed: nat, sealed: nat, channel: nat, cmd: nat) {
    v == len + signed * 0x100_0000 + sealed * 0x200_0000 + channel * 0x400_0000 + cmd * 0x800_0000
  }

  // The fields do not overlap, so or-ing them is adding them.
  lemma WordSum(len: nat, signed: nat, sealed: nat, channel: nat, cmd: nat)
    requires len < MAX_CMD_LEN && signed <= 1 && sealed <= 1 && channel <= 1 && cmd < 0x20
    ensures IsSum(Word(len, signed, sealed, channel, cmd), len, signed, sealed, channel, cmd)
    ensures Word(len, signed, sealed, channel, cmd) <= U32_MAX
  {
    Powers();
    var w1 := Or(len, Shl(signed, 24));
    OrAbove(len, signed, 24);
    var w2 := Or(w1, Shl(sealed, 25));
    OrAbove(w1, sealed, 25);
    var w3 := Or(w2, Shl(channel, 26));
    OrAbove(w2, channel, 26);
    OrAbove(w3, cmd, 27);
  }

  lemma ToU32Sum(h: Header)
    ensures IsSum(ToU32(h), h.len % MAX_CMD_LEN, Flag(h.signed), Flag(h.sealed), Flag(h.channel), h.cmd % 0x20)
    ensures 0 <= ToU32(h) <= U32_MAX
  {
    WordSum(h.len % MAX_CMD_LEN, Flag(h.signed), Flag(h.sealed), Flag(h.channel), h.cmd % 0x20);
  }

  lemma FieldsApart(l: nat, f1: nat, f2: nat, f3: nat, c: nat, v: nat)
    requires l < MAX_CMD_LEN && f1 <= 1 && f2 <= 1 && f3 <= 1 && c < 0x20
    requires IsSum(v, l, f1, f2, f3, c)
    ensures v % MAX_CMD_LEN == l && v / 0x100_0000 % 2 == f1 && v / 0x200_0000 % 2 == f2 && v / 0x400_0000 % 2 == f3
    ensures v / 0x800_0000 == c
  {
    assert v / 0x100_0000 == f1 + 2 * f2 + 4 * f3 + 8 * c;
    assert v / 0x200_0000 == f2 + 2 * f3 + 4 * c;
    assert v / 0x400_0000 == f3 + 2 * c;
  }

  lemma HeaderOfSum(l: nat, f1: bool, f2: bool, f3: bool, c: byte, v: u32)
    requires l < MAX_CMD_LEN && c < 0x20 && IsSum(v, l, Flag(f1), Flag(f2), Flag(f3), c)
    ensures FromU32(v) == Header(l, f1, f2, f3, c)
  {
    FieldsApart(l, Flag(f1), Flag(f2), Flag(f3), c, v);
  }

  // A header survives the word exactly when its length and command fit their fields.
  lemma HeaderWord(h: Header)
    ensures 0 <= ToU32(h) <= U32_MAX
    ensures FromU32(ToU32(h)) == h <==> h.len < 0x40_0000 && h.cmd < 0x20
  {
    ToU32Sum(h);
    HeaderOfSum(h.len % MAX_CMD_LEN, h.signed, h.sealed, h.channel, h.cmd % 0x20, ToU32(h));
    FitsWhenReduced(h.len, MAX_CMD_LEN);
    FitsWhenReduced(h.cmd, 0x20);
  }

  lemma FitsWhenReduced(x: nat, n: nat)
    requires n > 0
    ensures x % n == x <==> x < n
  {
  }

  // ---- under a key --------------------------------------------------------------------

  function EncodeHeader(h: Header, key: u32): (r: seq<byte>)
    ensures |r| == 4
  {
    ToU32Sum(h);
    ToLe(Xor32(ToU32(h), key), 4)
  }

  function WordOf(b: seq<byte>): u32
    requires |b| == HEADER_SIZE
  {
    Widths();
    FromLeBounded(b);
    FromLe(b)
  }

  function DecodeHeader(b: seq<byte>, key: u32): Result<Header, Error>
    requires |b| == HEADER_SIZE
  {
    var h := FromU32(Xor32(WordOf(b), key));
    if h.len > MAX_CMD_LEN then Err(TooLong) else Ok(h)
  }

  // No header is ever too long: the length field has only 22 bits.
  lemma NeverTooLong(b: seq<byte>, key: u32)
    requires |b| == HEADER_SIZE
    ensures DecodeHeader(b, key).Ok? && DecodeHeader(b, key).value.Fits()
  {
  }

  lemma HeaderRoundTrip(h: Header, key: u32)
    ensures DecodeHeader(EncodeHeader(h, key), key) == Ok(h) <==> h.len < 0x40_0000 && h.cmd < 0x20
  {
    ToU32Sum(h);
    U32RoundTrip(Xor32(ToU32(h), key));
    XorTwice(ToU32(h), key);
    HeaderWord(h);
  }

  // A rolling key for one direction, under the mixer both sides share.
  class KeyStream {
    const mix: u32 -> u32
    var key: u32

    constructor (mix: u32 -> u32, key: u32)
      ensures this.mix == mix && this.key == key
    {
      this.mix, this.key := mix, key;
    }

    method Advance() returns (k: u32)
      modifies this
      ensures k == old(key) && key == mix(old(key))
    {
      k := key;
      key := mix(k);
    }

    method Encode(h: Header) returns (b: seq<byte>)
      modifies this
      ensures b == EncodeHeader(h, old(key)) && key == mix(old(key))
    {
      ToU32Sum(h);
      var k := Advance();
      b := ToLe(Xor32(ToU32(h), k), 4);
    }

    method Decode(b: seq<byte>) returns (r: Result<Header, Error>)
      requires |b| == HEADER_SIZE
      modifies this
      ensures r == DecodeHeader(b, old(key)) && key == mix(old(key))
    {
      var k := Advance();
      var h := FromU32(Xor32(WordOf(b), k));
      if h.len > MAX_CMD_LEN {
        return Err(TooLong);
      }
      return Ok(h);
    }
  }

  // The streams after a hello: the client sends under the mixed seed and receives under
  // the mixed complement.
  method FromSeed(seed: u32) returns (recv: KeyStream, send: KeyStream)
    ensures fresh(recv) && fresh(send)
    ensures recv.mix == Feedback && recv.key == Feedback(seed)
    ensures send.mix == Feedback && send.key == Feedback(U32_MAX - seed)
  {
    recv := new KeyStream(Feedback, Feedback(seed));
    send := new KeyStream(Feedback, Feedback(U32_MAX - seed));
  }
}
