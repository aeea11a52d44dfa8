// Shared vocabulary: optional and fallible results, the machine integers of the
// source, and the two arithmetic facts that every rounding argument rests on.
module Prelude {
  datatype Option<+T> = None | Some(value: T)

  datatype Result<+T, +E> = Ok(value: T) | Err(error: E) {
    predicate IsFailure() {
      Err?
    }

    function PropagateFailure<U>(): Result<U, E>
      requires Err?
    {
      Err(error)
    }

    function Extract(): T
      requires Ok?
    {
      value
    }
  }

  const U16_MAX := 0xFFFF
  const U32_MAX := 0xFFFF_FFFF
  const U64_MAX := 0xFFFF_FFFF_FFFF_FFFF

  type byte = x: int | 0 <= x < 0x100
  type u16 = x: int | 0 <= x <= U16_MAX
  type u32 = x: int | 0 <= x <= U32_MAX
  type u64 = x: int | 0 <= x <= U64_MAX
  type u128 = x: int | 0 <= x < 0x1_0000_0000_0000_0000_0000_0000_0000_0000

  type Script = seq<byte>

  function Zeros(n: nat): (r: seq<byte>)
    ensures |r| == n
  {
    seq(n, _ => 0)
  }

  // A 32-byte digest, in internal byte order.
  type Hash = h: seq<byte> | |h| == 32 witness Zeros(32)

  function Pow2(k: nat): (r: nat)
    ensures r > 0
  {
    if k == 0 then 1 else 2 * Pow2(k - 1)
  }

  lemma {:induction false} Pow2Add(a: nat, b: nat)
    ensures Pow2(a + b) == Pow2(a) * Pow2(b)
    decreases b
  {
    if b > 0 {
      Pow2Add(a, b - 1);
      assert Pow2(a + b) == 2 * Pow2(a + (b - 1));
    }
  }

  lemma {:induction false} Pow2Mono(a: nat, b: nat)
    requires a <= b
    ensures Pow2(a) <= Pow2(b)
  {
    if a < b {
      Pow2Mono(a, b - 1);
    }
  }

  function Min(a: int, b: int): int {
    if a <= b then a else b
  }

  function Max(a: int, b: int): int {
    if a >= b then a else b
  }

  // u64 `saturating_add` and `saturating_sub`.
  function SatAdd(a: u64, b: u64): u64 {
    if a + b <= U64_MAX then a + b else U64_MAX
  }

  function SatSub(a: nat, b: nat): nat {
    if a >= b then a - b else 0
  }

  // The smaller, the larger, and sums and differences that stop at their bounds.
  lemma Bounded(a: u64, b: u64)
    ensures Min(a, b) <= a && Min(a, b) <= b && Min(a, b) in {a, b}
    ensures Max(a, b) >= a && Max(a, b) >= b && Max(a, b) in {a, b}
    ensures SatAdd(a, b) <= a + b && SatAdd(a, b) in {a + b, 0xFFFF_FFFF_FFFF_FFFF}
    ensures SatSub(a, b) >= a - b && SatSub(a, b) in {a - b, 0}
  {
  }

  lemma FirstMoved<T>(done: seq<T>, xs: seq<T>)
    requires xs != []
    ensures done + [xs[0]] + xs[1..] == done + xs
  {
  }

  // Sum of a non-negative measure over a sequence, from the left.
  ghost function Sum<T(!new)>(xs: seq<T>, f: T -> nat): nat {
    if xs == [] then 0 else Sum(xs[..|xs| - 1], f) + f(xs[|xs| - 1])
  }

  lemma SumSnoc<T(!new)>(xs: seq<T>, x: T, f: T -> nat)
    ensures Sum(xs + [x], f) == Sum(xs, f) + f(x)
  {
    assert (xs + [x])[..|xs|] == xs;
  }

  lemma SumPrefix<T(!new)>(xs: seq<T>, k: nat, f: T -> nat)
    requires k < |xs|
    ensures Sum(xs[..k + 1], f) == Sum(xs[..k], f) + f(xs[k])
  {
    assert xs[..k + 1] == xs[..k] + [xs[k]];
    SumSnoc(xs[..k], xs[k], f);
  }

  lemma {:induction false} SumConcat<T(!new)>(xs: seq<T>, ys: seq<T>, f: T -> nat)
    ensures Sum(xs + ys, f) == Sum(xs, f) + Sum(ys, f)
    decreases |ys|
  {
    if ys == [] {
      assert xs + ys == xs;
    } else {
      var last := ys[|ys| - 1];
      assert xs + ys == (xs + ys[..|ys| - 1]) + [last];
      SumConcat(xs, ys[..|ys| - 1], f);
      SumSnoc(xs + ys[..|ys| - 1], last, f);
    }
  }

  lemma SumCons<T(!new)>(x: T, xs: seq<T>, f: T -> nat)
    ensures Sum([x] + xs, f) == f(x) + Sum(xs, f)
  {
    SumConcat([x], xs, f);
    SumSnoc([], x, f);
    assert [] + [x] == [x];
  }

  lemma SumOfTwo<T(!new)>(x: T, y: T, f: T -> nat)
    ensures Sum([x, y], f) == f(x) + f(y)
  {
    assert [x, y][..1] == [x] && [x][..0] == [];
    assert Sum([x], f) == f(x);
  }

  lemma {:induction false} SumMonotone<T(!new)>(xs: seq<T>, k: nat, f: T -> nat)
    requires k <= |xs|
    ensures Sum(xs[..k], f) <= Sum(xs, f)
  {
    SumConcat(xs[..k], xs[k..], f);
    assert xs[..k] + xs[k..] == xs;
  }

  lemma {:induction false} SumAtLeastMember<T(!new)>(xs: seq<T>, k: nat, f: T -> nat)
    requires k < |xs|
    ensures f(xs[k]) <= Sum(xs, f)
  {
    SumPrefix(xs, k, f);
    SumMonotone(xs, k + 1, f);
  }

  lemma {:induction false} SumUpdate<T(!new)>(xs: seq<T>, k: nat, y: T, f: T -> nat)
    requires k < |xs|
    ensures Sum(xs[k := y], f) + f(xs[k]) == Sum(xs, f) + f(y)
  {
    var us, vs := xs[..k], xs[k + 1..];
    assert xs == us + ([xs[k]] + vs);
    assert xs[k := y] == us + ([y] + vs);
    SumConcat(us, [xs[k]] + vs, f);
    SumConcat(us, [y] + vs, f);
    SumCons(xs[k], vs, f);
    SumCons(y, vs, f);
  }

  lemma {:induction false} SumAgrees<T(!new), U(!new)>(xs: seq<T>, ys: seq<U>, f: T -> nat, g: U -> nat)
    requires |xs| == |ys|
    requires forall i :: 0 <= i < |xs| ==> f(xs[i]) == g(ys[i])
    ensures Sum(xs, f) == Sum(ys, g)
  {
    if xs != [] {
      SumAgrees(xs[..|xs| - 1], ys[..|ys| - 1], f, g);
    }
  }

  // Two successive floor divisions are one floor division by the product, stated as
  // the pair of bounds that pins the quotient.
  lemma DivBounds(a: nat, b: nat)
    requires b > 0
    ensures a / b * b <= a < (a / b + 1) * b
  {
  }

  lemma MulMono(a: int, b: int, c: nat)
    requires a <= b
    ensures a * c <= b * c
  {
  }

  lemma MulCancel(a: int, b: int, c: nat)
    requires c > 0 && a * c <= b * c
    ensures a <= b
  {
    if a > b {
      MulMono(b + 1, a, c);
    }
  }

  lemma MulCancelStrict(a: int, b: int, c: nat)
    requires c > 0 && a * c < b * c
    ensures a < b
  {
    if a >= b {
      MulMono(b, a, c);
    }
  }

  lemma DivDivBounds(a: nat, b: nat, c: nat)
    requires b > 0 && c > 0
    ensures (a / b / c) * (b * c) <= a < (a / b / c + 1) * (b * c)
  {
    var q, r := a / b, a / b / c;
    DivBounds(a, b);
    DivBounds(q, c);
    MulMono(r * c, q, b);
    assert r * (b * c) == (r * c) * b;
    MulMono(q + 1, (r + 1) * c, b);
    assert (r + 1) * (b * c) == ((r + 1) * c) * b;
  }

  lemma DivDiv(v: nat, a: nat, b: nat, ab: nat)
    requires a > 0 && b > 0 && ab == a * b && ab > 0
    ensures v / a / b == v / ab
  {
    DivAtLeast(v, a, 0);
    DivAtLeast(v / a, b, 0);
    DivDivBounds(v, a, b);
    DivUnique(v, ab, v / a / b);
  }

  // A quotient is determined by its bounds.
  lemma DivUnique(a: nat, b: nat, q: nat)
    requires b > 0 && q * b <= a < (q + 1) * b
    ensures a / b == q
  {
    DivBounds(a, b);
    var p := a / b;
    if p < q {
      MulMono(p + 1, q, b);
    } else if q < p {
      MulMono(q + 1, p, b);
    }
  }

  // k is at most a / b exactly when k copies of b fit in a.
  lemma DivAtLeast(a: nat, b: nat, k: nat)
    requires b > 0
    ensures k <= a / b <==> k * b <= a
  {
    DivBounds(a, b);
    if k <= a / b {
      MulMono(k, a / b, b);
    } else {
      MulMono(a / b + 1, k, b);
    }
  }

  lemma Distribute(a: int, b: int, c: int)
    ensures a * (b + c) == a * b + a * c
    ensures (b + c) * a == b * a + c * a
  {
  }

  // Floored shares of d by weight never add up to more than their part of d.
  lemma {:induction false} FlooredSharesFit<T(!new)>(xs: seq<T>, weight: T -> nat, share: T -> nat, d: nat, w: nat)
    requires w > 0 && forall i :: 0 <= i < |xs| ==> share(xs[i]) == d * weight(xs[i]) / w
    ensures Sum(xs, share) * w <= d * Sum(xs, weight)
  {
    if xs != [] {
      var init, x := xs[..|xs| - 1], xs[|xs| - 1];
      FlooredSharesFit(init, weight, share, d, w);
      DivBounds(d * weight(x), w);
      Distribute(d, Sum(init, weight), weight(x));
      Distribute(w, Sum(init, share), share(x));
    }
  }
}
