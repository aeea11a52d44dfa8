// The shared reader under every parser: a cursor over bytes, and the same reads as
// functions of the bytes that are left.
module Wire {
  import opened Prelude
  import opened LittleEndian

  datatype Error = Short | Malformed(what: string) | TooLong

  // A value read from the front, and the bytes behind it.
  datatype Read<+T> = Read(value: T, rest: seq<byte>)

  type Reading<+T> = Result<Read<T>, Error>

  function Take(b: seq<byte>, n: nat): (r: Reading<seq<byte>>)
    ensures r.Ok? ==> |r.value.value| == n && |r.value.rest| == |b| - n
  {
    if |b| < n then Err(Short) else Ok(Read(b[..n], b[n..]))
  }

  function U8(b: seq<byte>): (r: Reading<byte>)
    ensures r.Ok? ==> |r.value.rest| == |b| - 1
  {
    Widths();
    if |b| < 1 then Err(Short) else Ok(Read(Head(b, 1), b[1..]))
  }

  function U16(b: seq<byte>): (r: Reading<u16>)
    ensures r.Ok? ==> |r.value.rest| == |b| - 2
  {
    Widths();
    if |b| < 2 then Err(Short) else Ok(Read(Head(b, 2), b[2..]))
  }

  function U32(b: seq<byte>): (r: Reading<u32>)
    ensures r.Ok? ==> |r.value.rest| == |b| - 4
  {
    Widths();
    if |b| < 4 then Err(Short) else Ok(Read(Head(b, 4), b[4..]))
  }

  function U64(b: seq<byte>): (r: Reading<u64>)
    ensures r.Ok? ==> |r.value.rest| == |b| - 8
  {
    Widths();
    if |b| < 8 then Err(Short) else Ok(Read(Head(b, 8), b[8..]))
  }

  // Position of the first NUL among the first max + 1 bytes.
  function FindNul(b: seq<byte>, max: nat): (r: Option<nat>)
    ensures r.Some? ==> r.value < |b| && r.value <= max && b[r.value] == 0
                        && forall i :: 0 <= i < r.value ==> b[i] != 0
    ensures r.None? ==> forall i :: 0 <= i < |b| && i <= max ==> b[i] != 0
  {
    if b == [] then None
    else if b[0] == 0 then Some(0)
    else if max == 0 then None
    else match FindNul(b[1..], max - 1)
      case None => None
      case Some(i) => Some(i + 1)
  }

  function CStr(b: seq<byte>, max: nat): (r: Reading<seq<byte>>)
    ensures r.Ok? ==> |r.value.rest| < |b|
  {
    match FindNul(b, max)
    case None => Err(Malformed("unterminated string"))
    case Some(i) => Ok(Read(b[..i], b[i + 1..]))
  }

  // What is written in front of anything is what is read from the front.
  lemma TakeWritten(a: seq<byte>, rest: seq<byte>)
    ensures Take(a + rest, |a|) == Ok(Read(a, rest))
  {
    assert (a + rest)[..|a|] == a && (a + rest)[|a|..] == rest;
  }

  lemma U8Written(x: byte, rest: seq<byte>)
    ensures U8([x] + rest) == Ok(Read(x, rest))
  {
    var b := [x] + rest;
    assert b[..1] == [x] && b[1..] == rest;
    assert FromLe([x]) == x + 0x100 * FromLe([x][1..]);
  }

  lemma TagRead(tag: byte, body: seq<byte>, rest: seq<byte>)
    ensures U8(([tag] + body) + rest) == Ok(Read(tag, body + rest))
  {
    assert ([tag] + body) + rest == [tag] + (body + rest);
    U8Written(tag, body + rest);
  }

  lemma U16Written(n: u16, rest: seq<byte>)
    ensures U16(ToLe(n, 2) + rest) == Ok(Read(n, rest))
  {
    Widths();
    HeadOfWritten(n, 2, rest);
  }

  lemma U32Written(n: u32, rest: seq<byte>)
    ensures U32(ToLe(n, 4) + rest) == Ok(Read(n, rest))
  {
    Widths();
    HeadOfWritten(n, 4, rest);
  }

  lemma U64Written(n: u64, rest: seq<byte>)
    ensures U64(ToLe(n, 8) + rest) == Ok(Read(n, rest))
  {
    Widths();
    HeadOfWritten(n, 8, rest);
  }

  lemma {:induction false} CStrWritten(s: seq<byte>, max: nat, rest: seq<byte>)
    requires |s| <= max && forall i :: 0 <= i < |s| ==> s[i] != 0
    ensures CStr(s + ([0] + rest), max) == Ok(Read(s, rest))
  {
    NulAfter(s, max, rest);
    var b := s + ([0] + rest);
    assert b[..|s|] == s && b[|s| + 1..] == rest;
  }

  lemma {:induction false} NulAfter(s: seq<byte>, max: nat, rest: seq<byte>)
    requires |s| <= max && forall i :: 0 <= i < |s| ==> s[i] != 0
    ensures FindNul(s + ([0] + rest), max) == Some(|s|)
  {
    var b := s + ([0] + rest);
    if s == [] {
      assert b[0] == 0;
    } else {
      NulAfter(s[1..], max - 1, rest);
      NulStep(b, max);
      assert b[1..] == s[1..] + ([0] + rest);
    }
  }

  lemma NulStep(b: seq<byte>, max: nat)
    requires b != [] && b[0] != 0 && max > 0
    ensures FindNul(b, max) == match FindNul(b[1..], max - 1) case None => None case Some(i) => Some(i + 1)
  {
  }

  // ---- lists of items -----------------------------------------------------------------

  function ReadMany<T>(b: seq<byte>, n: nat, item: seq<byte> -> Reading<T>): Reading<seq<T>>
    decreases n
  {
    if n == 0 then Ok(Read([], b))
    else
      var first :- item(b);
      var more :- ReadMany(first.rest, n - 1, item);
      Ok(Read([first.value] + more.value, more.rest))
  }

  lemma {:induction false} ManyShrinks<T(!new)>(b: seq<byte>, n: nat, item: seq<byte> -> Reading<T>)
    requires forall b :: item(b).Ok? ==> |item(b).value.rest| <= |b|
    ensures ReadMany(b, n, item).Ok? ==> |ReadMany(b, n, item).value.rest| <= |b|
    decreases n
  {
    if n > 0 && item(b).Ok? {
      ManyShrinks(item(b).value.rest, n - 1, item);
    }
  }

  ghost predicate ReadsBack<T(!new)>(x: T, write: T -> seq<byte>, item: seq<byte> -> Reading<T>) {
    forall rest :: item(write(x) + rest) == Ok(Read(x, rest))
  }

  lemma {:induction false} ManyWritten<T(!new)>(xs: seq<T>, write: T -> seq<byte>, item: seq<byte> -> Reading<T>, rest: seq<byte>)
    requires forall k :: 0 <= k < |xs| ==> ReadsBack(xs[k], write, item)
    ensures ReadMany(Flatten(xs, write) + rest, |xs|, item) == Ok(Read(xs, rest))
  {
    if xs == [] {
      assert [] + rest == rest;
    } else {
      var first, tail := xs[0], xs[1..];
      FlattenFirst(xs, write, rest);
      assert ReadsBack(first, write, item);
      assert item(write(first) + (Flatten(tail, write) + rest)) == Ok(Read(first, Flatten(tail, write) + rest));
      ManyWritten(tail, write, item, rest);
      assert xs == [first] + tail;
    }
  }

  // An item that is refused, first or behind one that is read, is the list's refusal.
  lemma ManyRefused<T>(b: seq<byte>, n: nat, item: seq<byte> -> Reading<T>, e: Error)
    requires n > 0
    requires item(b) == Err(e) || (item(b).Ok? && ReadMany(item(b).value.rest, n - 1, item) == Err(e))
    ensures ReadMany(b, n, item) == Err(e)
  {
  }

  // Items already read, put in front of what reading the rest gives.
  function Behind<T>(done: seq<T>, more: Reading<seq<T>>): Reading<seq<T>> {
    match more
    case Err(e) => Err(e)
    case Ok(read) => Ok(Read(done + read.value, read.rest))
  }

  lemma BehindNothing<T>(more: Reading<seq<T>>)
    ensures Behind([], more) == more
  {
    if more.Ok? {
      assert [] + more.value.value == more.value.value;
    }
  }

  lemma BehindLast<T>(done: seq<T>, b: seq<byte>, item: seq<byte> -> Reading<T>)
    ensures Behind(done, ReadMany(b, 0, item)) == Ok(Read(done, b))
  {
    assert done + [] == done;
  }

  // One item has been read; the others follow.
  function ThenMany<T>(done: seq<T>, first: Reading<T>, n: nat, item: seq<byte> -> Reading<T>): Reading<seq<T>> {
    match first
    case Err(e) => Err(e)
    case Ok(x) => Behind(done + [x.value], ReadMany(x.rest, n, item))
  }

  lemma ReadOneMore<T>(done: seq<T>, b: seq<byte>, n: nat, item: seq<byte> -> Reading<T>)
    ensures Behind(done, ReadMany(b, n + 1, item)) == ThenMany(done, item(b), n, item)
  {
    if item(b).Ok? {
      var first := item(b).value;
      var more := ReadMany(first.rest, n, item);
      if more.Ok? {
        assert done + ([first.value] + more.value.value) == (done + [first.value]) + more.value.value;
      }
    }
  }

  // ---- readers are local --------------------------------------------------------------

  // `rest` is the end of b.
  ghost predicate Ends(b: seq<byte>, rest: seq<byte>) {
    |rest| <= |b| && b[|b| - |rest|..] == rest
  }

  ghost function Used(b: seq<byte>, rest: seq<byte>): seq<byte>
    requires Ends(b, rest)
  {
    b[..|b| - |rest|]
  }

  lemma UsedTwice(b: seq<byte>, mid: seq<byte>, rest: seq<byte>, other: seq<byte>)
    requires Ends(b, mid) && Ends(mid, rest)
    ensures Ends(b, rest) && Used(b, rest) + other == Used(b, mid) + (Used(mid, rest) + other)
  {
    assert b == Used(b, mid) + mid;
  }

  // What is read does not depend on what follows it.
  ghost predicate Stops<T(!new)>(b: seq<byte>, r: Read<T>, item: seq<byte> -> Reading<T>) {
    Ends(b, r.rest) && forall other :: item(Used(b, r.rest) + other) == Ok(Read(r.value, other))
  }

  ghost predicate Local<T(!new)>(item: seq<byte> -> Reading<T>) {
    forall b :: item(b).Ok? ==> Stops(b, item(b).value, item)
  }

  lemma {:induction false} ManyLocal<T(!new)>(b: seq<byte>, n: nat, item: seq<byte> -> Reading<T>, r: Read<seq<T>>, other: seq<byte>)
    requires Local(item) && ReadMany(b, n, item) == Ok(r)
    ensures Ends(b, r.rest) && ReadMany(Used(b, r.rest) + other, n, item) == Ok(Read(r.value, other))
    decreases n
  {
    if n == 0 {
      assert Used(b, b) + other == other;
    } else {
      var first := item(b).value;
      var more := ReadMany(first.rest, n - 1, item).value;
      ManyLocal(first.rest, n - 1, item, more, other);
      assert Stops(b, first, item);
      UsedTwice(b, first.rest, r.rest, other);
    }
  }

  // Little-endian read helpers over a cursor that only ever moves forward.
  class Cursor {
    const buf: seq<byte>
    var pos: nat

    ghost predicate Valid()
      reads this
    {
      pos <= |buf|
    }

    ghost function Rest(): seq<byte>
      requires Valid()
      reads this
    {
      buf[pos..]
    }

    constructor (buf: seq<byte>)
      ensures Valid() && this.buf == buf && pos == 0 && Rest() == buf
    {
      this.buf := buf;
      pos := 0;
    }

    function Remaining(): nat
      requires Valid()
      reads this
    {
      |buf| - pos
    }

    // On success the cursor stands behind what was read; on failure it has not moved.
    ghost predicate After<T>(r: Result<T, Error>, spec: Reading<T>, from: nat)
      reads this
    {
      && Valid()
      && match spec
         case Err(e) => r == Err(e) && pos == from
         case Ok(read) => r == Ok(read.value) && Rest() == read.rest && pos >= from
    }

    // The same for a reader made of several reads, which may stop part of the way.
    ghost predicate Got<T>(r: Result<T, Error>, spec: Reading<T>)
      reads this
    {
      && Valid()
      && match spec
         case Err(e) => r == Err(e)
         case Ok(read) => r == Ok(read.value) && Rest() == read.rest
    }

    method TakeBytes(n: nat) returns (r: Result<seq<byte>, Error>)
      requires Valid()
      modifies this
      ensures After(r, Take(old(Rest()), n), old(pos))
    {
      if Remaining() < n {
        return Err(Short);
      }
      r := Ok(buf[pos..pos + n]);
      assert buf[pos..][..n] == buf[pos..pos + n] && buf[pos..][n..] == buf[pos + n..];
      pos := pos + n;
    }

    method TakeU8() returns (r: Result<byte, Error>)
      requires Valid()
      modifies this
      ensures After(r, U8(old(Rest())), old(pos))
    {
      Widths();
      var bytes :- TakeBytes(1);
      FromLeBounded(bytes);
      r := Ok(FromLe(bytes));
    }

    method TakeU16() returns (r: Result<u16, Error>)
      requires Valid()
      modifies this
      ensures After(r, U16(old(Rest())), old(pos))
    {
      Widths();
      var bytes :- TakeBytes(2);
      FromLeBounded(bytes);
      r := Ok(FromLe(bytes));
    }

    method TakeU32() returns (r: Result<u32, Error>)
      requires Valid()
      modifies this
      ensures After(r, U32(old(Rest())), old(pos))
    {
      Widths();
      var bytes :- TakeBytes(4);
      FromLeBounded(bytes);
      r := Ok(FromLe(bytes));
    }

    method TakeU64() returns (r: Result<u64, Error>)
      requires Valid()
      modifies this
      ensures After(r, U64(old(Rest())), old(pos))
    {
      Widths();
      var bytes :- TakeBytes(8);
      FromLeBounded(bytes);
      r := Ok(FromLe(bytes));
    }

    method TakeCStr(max: nat) returns (r: Result<seq<byte>, Error>)
      requires Valid()
      modifies this
      ensures After(r, CStr(old(Rest()), max), old(pos))
    {
      var rest := buf[pos..];
      match FindNul(rest, max)
      case None => r := Err(Malformed("unterminated string"));
      case Some(end) =>
        r := Ok(rest[..end]);
        pos := pos + end + 1;
    }
  }
}
