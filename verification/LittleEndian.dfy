// Little-endian integers: every integer on the wire and on disk, and the reading of a
// 32-byte hash as a number.
module LittleEndian {
  import opened Prelude

  function Pow256(k: nat): (r: nat)
    ensures r > 0
  {
    if k == 0 then 1 else 0x100 * Pow256(k - 1)
  }

  function ToLe(n: nat, k: nat): (r: seq<byte>)
    ensures |r| == k
    decreases k
  {
    if k == 0 then [] else [n % 0x100] + ToLe(n / 0x100, k - 1)
  }

  function FromLe(bs: seq<byte>): nat {
    if bs == [] then 0 else bs[0] + 0x100 * FromLe(bs[1..])
  }

  lemma {:induction false} FromLeBounded(bs: seq<byte>)
    ensures FromLe(bs) < Pow256(|bs|)
  {
    if bs != [] {
      FromLeBounded(bs[1..]);
    }
  }

  lemma {:induction false} LeRoundTrip(n: nat, k: nat)
    requires n < Pow256(k)
    ensures FromLe(ToLe(n, k)) == n
    decreases k
  {
    if k > 0 {
      LeRoundTrip(n / 0x100, k - 1);
      assert ToLe(n, k)[1..] == ToLe(n / 0x100, k - 1);
    }
  }

  lemma Widths()
    ensures Pow256(1) == 0x100 && Pow256(2) == U16_MAX + 1 && Pow256(4) == U32_MAX + 1 && Pow256(8) == U64_MAX + 1
  {
    assert Pow256(0) == 1;
    assert Pow256(1) == 0x100;
    assert Pow256(2) == 0x1_0000;
    assert Pow256(3) == 0x100_0000;
    assert Pow256(4) == 0x1_0000_0000;
    assert Pow256(5) == 0x100_0000_0000;
    assert Pow256(6) == 0x1_0000_0000_0000;
    assert Pow256(7) == 0x100_0000_0000_0000;
  }

  lemma U32RoundTrip(n: u32)
    ensures FromLe(ToLe(n, 4)) == n
  {
    Widths();
    LeRoundTrip(n, 4);
  }

  // The first k bytes as a number, and what follows them.
  function Head(b: seq<byte>, k: nat): (r: nat)
    requires k <= |b|
    ensures r < Pow256(k)
  {
    FromLeBounded(b[..k]);
    FromLe(b[..k])
  }

  // Reading a field that was written in front of anything.
  lemma HeadOfWritten(n: nat, k: nat, rest: seq<byte>)
    requires n < Pow256(k)
    ensures Head(ToLe(n, k) + rest, k) == n
    ensures (ToLe(n, k) + rest)[k..] == rest
  {
    assert (ToLe(n, k) + rest)[..k] == ToLe(n, k);
    LeRoundTrip(n, k);
  }

  lemma {:induction false} Pow256IsPow2(k: nat)
    ensures Pow256(k) == Pow2(8 * k)
  {
    if k > 0 {
      Pow256IsPow2(k - 1);
      Pow2Add(8 * (k - 1), 8);
      Pow2Of8();
    }
  }

  lemma Pow2Of8()
    ensures Pow2(8) == 0x100
  {
    assert Pow2(2) == 4 && Pow2(4) == 16 && Pow2(6) == 64;
  }

  lemma {:induction false} FromLeConcat(a: seq<byte>, b: seq<byte>)
    ensures FromLe(a + b) == FromLe(a) + FromLe(b) * Pow256(|a|)
  {
    if a == [] {
      assert a + b == b;
    } else {
      FromLeConcat(a[1..], b);
      FirstByte(a, a[0], a[1..]);
      FirstByte(a + b, a[0], a[1..] + b);
      Shifted(FromLe(a[1..]), FromLe(b), Pow256(|a| - 1));
    }
  }

  lemma Shifted(low: nat, high: nat, w: nat)
    ensures 0x100 * (low + high * w) == 0x100 * low + high * (0x100 * w)
  {
  }

  lemma FirstByte(n: seq<byte>, first: byte, rest: seq<byte>)
    requires n == [first] + rest
    ensures FromLe(n) == first + 0x100 * FromLe(rest)
  {
    assert n[1..] == rest;
  }

  lemma {:induction false} FromLeZeros(k: nat)
    ensures FromLe(Zeros(k)) == 0
  {
    if k > 0 {
      FromLeZeros(k - 1);
      assert Zeros(k)[1..] == Zeros(k - 1);
    }
  }

  lemma ZerosAbove(bytes: seq<byte>, above: nat)
    ensures FromLe(bytes + Zeros(above)) == FromLe(bytes)
  {
    FromLeConcat(bytes, Zeros(above));
    FromLeZeros(above);
  }

  // Four bytes as a number, lowest first.
  ghost function Four(b0: int, b1: int, b2: int, b3: int): int {
    b0 + 0x100 * b1 + 0x1_0000 * b2 + 0x100_0000 * b3
  }

  lemma FromLeBytes(b: seq<byte>)
    ensures |b| == 2 ==> FromLe(b) == Four(b[0], b[1], 0, 0)
    ensures |b| == 4 ==> FromLe(b) == Four(b[0], b[1], b[2], b[3])
  {
    if |b| == 2 {
      assert b[1..] == [b[1]] && [b[1]][1..] == [];
      FirstByte([b[1]], b[1], []);
    } else if |b| == 4 {
      FirstByte(b, b[0], b[1..]);
      FirstByte(b[1..], b[1], b[2..]);
      FirstByte(b[2..], b[2], b[3..]);
      FirstByte(b[3..], b[3], []);
    }
  }

  // ---- fixed-size records -----------------------------------------------------------

  function Flatten<T>(xs: seq<T>, f: T -> seq<byte>): seq<byte> {
    if xs == [] then [] else f(xs[0]) + Flatten(xs[1..], f)
  }

  // Whole chunks from the front; what is left over at the end is ignored.
  function Chunks(b: seq<byte>, size: nat): (r: seq<seq<byte>>)
    requires size > 0
    ensures forall i :: 0 <= i < |r| ==> |r[i]| == size
  {
    if |b| < size then [] else [b[..size]] + Chunks(b[size..], size)
  }

  lemma {:induction false} ChunksOfFlatten<T>(xs: seq<T>, f: T -> seq<byte>, size: nat, torn: seq<byte>)
    requires size > 0 && |torn| < size && forall i :: 0 <= i < |xs| ==> |f(xs[i])| == size
    ensures |Chunks(Flatten(xs, f) + torn, size)| == |xs|
    ensures forall i :: 0 <= i < |xs| ==> Chunks(Flatten(xs, f) + torn, size)[i] == f(xs[i])
  {
    if xs == [] {
      assert Flatten(xs, f) + torn == torn;
    } else {
      ChunksOfFlatten(xs[1..], f, size, torn);
      var head, rest := f(xs[0]), Flatten(xs[1..], f) + torn;
      assert Flatten(xs, f) + torn == head + rest;
      assert (head + rest)[..size] == head && (head + rest)[size..] == rest;
    }
  }

  lemma {:induction false} FlattenSnoc<T>(xs: seq<T>, x: T, f: T -> seq<byte>)
    ensures Flatten(xs + [x], f) == Flatten(xs, f) + f(x)
  {
    if xs == [] {
      assert [x][1..] == [];
      assert Flatten([x], f) == f(x) + Flatten([], f);
    } else {
      FlattenSnoc(xs[1..], x, f);
      assert (xs + [x])[1..] == xs[1..] + [x];
    }
  }

  lemma FlattenCons<T>(xs: seq<T>, f: T -> seq<byte>)
    requires xs != []
    ensures Flatten(xs, f) == f(xs[0]) + Flatten(xs[1..], f)
  {
  }

  lemma FlattenFirst<T>(xs: seq<T>, f: T -> seq<byte>, rest: seq<byte>)
    requires xs != []
    ensures Flatten(xs, f) + rest == f(xs[0]) + (Flatten(xs[1..], f) + rest)
  {
    var a, b := f(xs[0]), Flatten(xs[1..], f);
    assert (a + b) + rest == a + (b + rest);
  }

  // Records written one after another.
  method WriteEach<T>(xs: seq<T>, f: T -> seq<byte>) returns (out: seq<byte>)
    ensures out == Flatten(xs, f)
  {
    out := [];
    for i := 0 to |xs|
      invariant out == Flatten(xs[..i], f)
    {
      FlattenSnoc(xs[..i], xs[i], f);
      assert xs[..i + 1] == xs[..i] + [xs[i]];
      out := out + f(xs[i]);
    }
    assert xs[..|xs|] == xs;
  }
}
