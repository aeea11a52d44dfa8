// The segwit form of a coinbase, and reading the legacy bytes back out of it the way
// BIP 144 lays a transaction out. The readers stop where they should whatever follows, so
// this holds of every coinbase that parses, printed canonically or not.
module CoinbaseWitness {
  import opened Prelude
  import opened LittleEndian
  import opened Outputs
  import opened Wire
  import opened CoinbaseTx

  // One 32-byte reserved value of zeros.
  function Witness(): (r: seq<byte>)
    ensures |r| == 34
  {
    [0x01, 0x20] + Zeros(32)
  }

  function WithWitness(legacy: seq<byte>, parsed: Coinbase): seq<byte>
    requires 4 <= parsed.lockTimeAt <= |legacy|
  {
    legacy[..4] + [0x00] + [0x01] + legacy[4..parsed.lockTimeAt] + Witness() + legacy[parsed.lockTimeAt..]
  }

  // ---- readers are local --------------------------------------------------------------

  lemma TakeLocal(b: seq<byte>, n: nat, other: seq<byte>)
    requires Take(b, n).Ok?
    ensures var r := Take(b, n).value;
            Ends(b, r.rest) && Take(Used(b, r.rest) + other, n) == Ok(Read(r.value, other))
  {
    var r := Take(b, n).value;
    assert Used(b, r.rest) == b[..n];
    TakeWritten(b[..n], other);
  }

  lemma U8Local(b: seq<byte>, other: seq<byte>)
    requires U8(b).Ok?
    ensures var r := U8(b).value;
            Ends(b, r.rest) && U8(Used(b, r.rest) + other) == Ok(Read(r.value, other))
  {
    TakeLocal(b, 1, other);
  }

  lemma U16Local(b: seq<byte>, other: seq<byte>)
    requires U16(b).Ok?
    ensures var r := U16(b).value;
            Ends(b, r.rest) && U16(Used(b, r.rest) + other) == Ok(Read(r.value, other))
  {
    TakeLocal(b, 2, other);
  }

  lemma U32Local(b: seq<byte>, other: seq<byte>)
    requires U32(b).Ok?
    ensures var r := U32(b).value;
            Ends(b, r.rest) && U32(Used(b, r.rest) + other) == Ok(Read(r.value, other))
  {
    TakeLocal(b, 4, other);
  }

  lemma U64Local(b: seq<byte>, other: seq<byte>)
    requires U64(b).Ok?
    ensures var r := U64(b).value;
            Ends(b, r.rest) && U64(Used(b, r.rest) + other) == Ok(Read(r.value, other))
  {
    TakeLocal(b, 8, other);
  }

  lemma VarintLocal(b: seq<byte>, other: seq<byte>)
    requires ReadVarint(b).Ok?
    ensures var r := ReadVarint(b).value;
            Ends(b, r.rest) && ReadVarint(Used(b, r.rest) + other) == Ok(Read(r.value, other))
  {
    var tag, rest := U8(b).value, ReadVarint(b).value.rest;
    if tag.value < 0xFD {
      U8Local(b, other);
    } else {
      if tag.value == 0xFD {
        U16Local(tag.rest, other);
      } else if tag.value == 0xFE {
        U32Local(tag.rest, other);
      } else {
        U64Local(tag.rest, other);
      }
      U8Local(b, Used(tag.rest, rest) + other);
      UsedTwice(b, tag.rest, rest, other);
    }
  }

  lemma OutputLocal(b: seq<byte>, other: seq<byte>)
    requires ReadOutput(b).Ok?
    ensures var r := ReadOutput(b).value;
            Ends(b, r.rest) && ReadOutput(Used(b, r.rest) + other) == Ok(Read(r.value, other))
  {
    var value := U64(b).value;
    var len := ReadVarint(value.rest).value;
    var script := Take(len.rest, len.value).value;
    TakeLocal(len.rest, len.value, other);
    var o2 := Used(len.rest, script.rest) + other;
    VarintLocal(value.rest, o2);
    U64Local(b, Used(value.rest, len.rest) + o2);
    UsedTwice(value.rest, len.rest, script.rest, other);
    UsedTwice(b, value.rest, script.rest, other);
  }

  lemma OutputsAreLocal()
    ensures Local(ReadOutput)
  {
    forall b | ReadOutput(b).Ok? ensures Stops(b, ReadOutput(b).value, ReadOutput) {
      OutputLocal(b, []);
      forall other ensures ReadOutput(Used(b, ReadOutput(b).value.rest) + other) == Ok(Read(ReadOutput(b).value.value, other)) {
        OutputLocal(b, other);
      }
    }
  }

  lemma OutputListLocal(b: seq<byte>, other: seq<byte>)
    requires ReadOutputList(b).Ok?
    ensures var r := ReadOutputList(b).value;
            Ends(b, r.rest) && ReadOutputList(Used(b, r.rest) + other) == Ok(Read(r.value, other))
  {
    var count, r := ReadVarint(b).value, ReadOutputList(b).value;
    OutputsAreLocal();
    ManyLocal(count.rest, count.value, ReadOutput, r, other);
    VarintLocal(b, Used(count.rest, r.rest) + other);
    UsedTwice(b, count.rest, r.rest, other);
  }

  lemma ScriptSigLocal(b: seq<byte>, other: seq<byte>)
    requires ReadScriptSig(b).Ok?
    ensures var r := ReadScriptSig(b).value;
            Ends(b, r.rest) && ReadScriptSig(Used(b, r.rest) + other) == Ok(Read(r.value, other))
  {
    var count := ReadVarint(b).value;
    var prevout := Take(count.rest, 36).value;
    var len := ReadVarint(prevout.rest).value;
    var r := Take(len.rest, len.value).value;
    TakeLocal(len.rest, len.value, other);
    var o3 := Used(len.rest, r.rest) + other;
    VarintLocal(prevout.rest, o3);
    var o2 := Used(prevout.rest, len.rest) + o3;
    TakeLocal(count.rest, 36, o2);
    var o1 := Used(count.rest, prevout.rest) + o2;
    VarintLocal(b, o1);
    UsedTwice(prevout.rest, len.rest, r.rest, other);
    UsedTwice(count.rest, prevout.rest, r.rest, other);
    UsedTwice(b, count.rest, r.rest, other);
  }

  // Inputs, sequence and outputs: what is the same in both forms.
  datatype Body = Body(scriptSig: seq<byte>, sequence: u32, outputs: seq<TxOut>)

  function ReadBody(b: seq<byte>): Reading<Body> {
    var sig :- ReadScriptSig(b);
    var sequence :- U32(sig.rest);
    var outputs :- ReadOutputList(sequence.rest);
    Ok(Read(Body(sig.value, sequence.value, outputs.value), outputs.rest))
  }

  lemma BodyLocal(b: seq<byte>, other: seq<byte>)
    requires ReadBody(b).Ok?
    ensures var r := ReadBody(b).value;
            Ends(b, r.rest) && ReadBody(Used(b, r.rest) + other) == Ok(Read(r.value, other))
  {
    var sig := ReadScriptSig(b).value;
    var sequence := U32(sig.rest).value;
    var outputs := ReadOutputList(sequence.rest).value;
    OutputListLocal(sequence.rest, other);
    var o2 := Used(sequence.rest, outputs.rest) + other;
    U32Local(sig.rest, o2);
    var o1 := Used(sig.rest, sequence.rest) + o2;
    ScriptSigLocal(b, o1);
    UsedTwice(sig.rest, sequence.rest, outputs.rest, other);
    UsedTwice(b, sig.rest, outputs.rest, other);
  }

  // ---- stripping ----------------------------------------------------------------------

  // Read a segwit coinbase and write it without marker, flag and witness.
  function StripWitness(b: seq<byte>): Result<seq<byte>, Error> {
    var version :- Take(b, 4);
    var marker :- Take(version.rest, 2);
    if marker.value != [0x00, 0x01] then Err(Malformed("segwit marker"))
    else
      var body :- ReadBody(marker.rest);
      var stack :- Take(body.rest, 34);
      var lockTime :- Take(stack.rest, 4);
      if stack.value != Witness() then Err(Malformed("coinbase witness"))
      else if lockTime.rest != [] then Err(Malformed("trailing bytes"))
      else Ok(version.value + marker.rest[..SatSub(|marker.rest|, |body.rest|)] + lockTime.value)
  }

  // The parser ends its outputs four bytes before the end, behind the version.
  lemma ParsedParts(legacy: seq<byte>)
    requires Parse(legacy).Ok?
    ensures |legacy| >= 8 && ReadBody(legacy[4..]).Ok?
    ensures var rest := ReadBody(legacy[4..]).value.rest;
            |rest| == 4 && Ends(legacy[4..], rest) && Parse(legacy).value.lockTimeAt == |legacy| - 4
  {
    var front := ReadFront(legacy).value;
    var outputs := ReadOutputList(front.rest).value;
    assert U32(legacy).value.rest == legacy[4..];
    BodyLocal(legacy[4..], []);
  }

  // Wrapping any parseable coinbase in its witness and stripping it again gives the same
  // bytes.
  lemma WitnessStrips(legacy: seq<byte>)
    requires Parse(legacy).Ok?
    ensures 4 <= Parse(legacy).value.lockTimeAt <= |legacy|
    ensures StripWitness(WithWitness(legacy, Parse(legacy).value)) == Ok(legacy)
  {
    ParsedParts(legacy);
    var parsed, body := Parse(legacy).value, ReadBody(legacy[4..]).value;
    var used := Used(legacy[4..], body.rest);
    BodyLocal(legacy[4..], Witness() + body.rest);
    assert legacy == legacy[..4] + (used + body.rest);
    WitnessBetween(legacy, parsed, legacy[..4], used, body.rest);
    Stripped(legacy[..4], used, body.value, body.rest);
  }

  lemma WitnessBetween(legacy: seq<byte>, parsed: Coinbase, version: seq<byte>, used: seq<byte>, lockTime: seq<byte>)
    requires legacy == version + (used + lockTime) && |version| == 4 && |lockTime| == 4
    requires parsed.lockTimeAt == |legacy| - 4
    ensures WithWitness(legacy, parsed) == version + ([0x00, 0x01] + (used + (Witness() + lockTime)))
  {
    assert legacy[4..parsed.lockTimeAt] == used && legacy[parsed.lockTimeAt..] == lockTime && legacy[..4] == version;
  }

  lemma Stripped(version: seq<byte>, used: seq<byte>, body: Body, lockTime: seq<byte>)
    requires |version| == 4 && |lockTime| == 4
    requires ReadBody(used + (Witness() + lockTime)) == Ok(Read(body, Witness() + lockTime))
    ensures StripWitness(version + ([0x00, 0x01] + (used + (Witness() + lockTime)))) == Ok(version + (used + lockTime))
  {
    var t2 := Witness() + lockTime;
    var t1 := used + t2;
    TakeWritten(version, [0x00, 0x01] + t1);
    TakeWritten([0x00, 0x01], t1);
    TakeWritten(Witness(), lockTime);
    assert lockTime + [] == lockTime;
    TakeWritten(lockTime, []);
    assert t1[..|t1| - |t2|] == used;
    assert version + used + lockTime == version + (used + lockTime);
  }

  // In bytes: the marker and the flag behind the version, and in front of the lock time one
  // stack item of 32 zeros.
  lemma WitnessBytes(legacy: seq<byte>)
    requires Parse(legacy).Ok?
    ensures var w, n := WithWitness(legacy, Parse(legacy).value), |legacy|;
            && |w| == n + 36
            && w[..4] == legacy[..4] && w[4] == 0 && w[5] == 1 && w[6..n - 2] == legacy[4..n - 4]
            && w[n - 2] == 1 && w[n - 1] == 0x20 && (forall i :: n <= i < n + 32 ==> w[i] == 0)
            && w[n + 32..] == legacy[n - 4..]
  {
    ParsedParts(legacy);
    var n := |legacy|;
    SixParts(legacy[..4], [0x00], [0x01], legacy[4..n - 4], [0x01, 0x20] + Zeros(32), legacy[n - 4..]);
    var w := WithWitness(legacy, Parse(legacy).value);
    assert w[n..n + 32] == Zeros(32);
    forall i | n <= i < n + 32 ensures w[i] == 0 {
      assert w[i] == w[n..n + 32][i - n];
    }
  }

  lemma SixParts(a: seq<byte>, b: seq<byte>, c: seq<byte>, d: seq<byte>, e: seq<byte>, f: seq<byte>)
    requires |a| == 4 && |b| == 1 && |c| == 1 && |e| == 34
    ensures var w, m := a + b + c + d + e + f, 6 + |d|;
            && |w| == m + 34 + |f| && w[..4] == a && w[4] == b[0] && w[5] == c[0] && w[6..m] == d
            && w[m] == e[0] && w[m + 1] == e[1] && w[m + 2..m + 34] == e[2..]
            && w[m + 34..] == f
  {
  }

  // Nothing else is stripped: what is read has these bytes where they belong, and loses
  // them and no other.
  lemma StripsOnlyWitness(b: seq<byte>)
    requires StripWitness(b).Ok?
    ensures var n := |b|;
            && n >= 44 && b == b[..4] + [0, 1] + b[6..n - 38] + ([0x01, 0x20] + Zeros(32)) + b[n - 4..]
            && StripWitness(b) == Ok(b[..4] + b[6..n - 38] + b[n - 4..])
  {
    StripRead(b);
    var rest := b[4..][2..];
    var body := ReadBody(rest).value;
    BodyLocal(rest, []);
    BehindFront(b, body.rest);
    FiveParts(b, body.rest);
  }

  lemma StripRead(b: seq<byte>)
    requires StripWitness(b).Ok?
    ensures |b| >= 6 && b[4..][..2] == [0, 1] && ReadBody(b[4..][2..]).Ok?
    ensures var rest := b[4..][2..];
            var end := ReadBody(rest).value.rest;
            && |end| == 38 && end[..34] == [0x01, 0x20] + Zeros(32)
            && StripWitness(b) == Ok(b[..4] + rest[..SatSub(|rest|, |end|)] + end[34..])
  {
    var body := ReadBody(b[4..][2..]).value;
    var lockTime := body.rest[34..];
    assert lockTime[..4] == lockTime;
  }

  lemma BehindFront(b: seq<byte>, end: seq<byte>)
    requires |b| >= 6 && Ends(b[4..][2..], end)
    ensures |b| >= 6 + |end| && b[|b| - |end|..] == end
  {
    assert b[4..][2..] == b[6..];
  }

  lemma FiveParts(b: seq<byte>, end: seq<byte>)
    requires |end| == 38 && |b| >= 44 && b[|b| - 38..] == end
    ensures b[4..][2..] == b[6..] && b[4..][..2] == b[4..6]
    ensures end[..34] == b[|b| - 38..|b| - 4] && end[34..] == b[|b| - 4..]
    ensures b[6..][..|b[6..]| - 38] == b[6..|b| - 38]
    ensures b == b[..4] + b[4..6] + b[6..|b| - 38] + b[|b| - 38..|b| - 4] + b[|b| - 4..]
  {
  }
}
