// The coinbase transaction as a gateway ships it: printed, parsed, cut around the
// extranonce slot, put back together, and wrapped with its witness.
module CoinbaseTx {
  import opened Prelude
  import opened Bits
  import opened LittleEndian
  import opened Outputs
  import opened Wire

  const EXTRANONCE_SLOT := 12
  const MAX_SCRIPT_SIG := 100
  const MAX_TX_OUTPUTS := 10_000
  const MAX_TX_SCRIPT := 10_000

  datatype Coinbase = Coinbase(
    version: u32, scriptSig: seq<byte>, sequence: u32, outputs: seq<TxOut>, lockTime: u32,
    height: Option<u32>, outputsAt: nat, lockTimeAt: nat)

  // ---- varints ------------------------------------------------------------------------

  function ReadVarint(b: seq<byte>): Reading<u64> {
    var tag :- U8(b);
    if tag.value == 0xFD then
      var n :- U16(tag.rest);
      Ok(Read(n.value, n.rest))
    else if tag.value == 0xFE then
      var n :- U32(tag.rest);
      Ok(Read(n.value, n.rest))
    else if tag.value == 0xFF then
      U64(tag.rest)
    else
      Ok(Read(tag.value, tag.rest))
  }

  function WriteVarint(n: nat): (r: seq<byte>)
    ensures |r| > 0
  {
    if n < 0xFD then [n]
    else if n <= U16_MAX then [0xFD] + ToLe(n, 2)
    else if n <= U32_MAX then [0xFE] + ToLe(n, 4)
    else [0xFF] + ToLe(n, 8)
  }

  lemma VarintWritten(n: u64, rest: seq<byte>)
    ensures ReadVarint(WriteVarint(n) + rest) == Ok(Read(n, rest))
  {
    if n < 0xFD {
      U8Written(n, rest);
    } else if n <= U16_MAX {
      TagRead(0xFD, ToLe(n, 2), rest);
      U16Written(n, rest);
    } else if n <= U32_MAX {
      TagRead(0xFE, ToLe(n, 4), rest);
      U32Written(n, rest);
    } else {
      TagRead(0xFF, ToLe(n, 8), rest);
      U64Written(n, rest);
    }
  }

  // Of all the ways a number can be read, the shortest is written.
  lemma VarintShortest(n: u64, b: seq<byte>)
    requires ReadVarint(b) == Ok(Read(n, []))
    ensures |WriteVarint(n)| <= |b|
    ensures |WriteVarint(n)| == if n < 253 then 1 else if n < 0x1_0000 then 3 else if n < 0x1_0000_0000 then 5 else 9
  {
    Widths();
  }

  // ---- outputs ------------------------------------------------------------------------

  function ReadOutput(b: seq<byte>): Reading<TxOut> {
    var value :- U64(b);
    var len :- ReadVarint(value.rest);
    if len.value > MAX_TX_SCRIPT then Err(Malformed("coinbase output script length"))
    else
      var script :- Take(len.rest, len.value);
      Ok(Read(TxOut(value.value, script.value), script.rest))
  }

  function ReadOutputs(b: seq<byte>, n: nat): Reading<seq<TxOut>> {
    ReadMany(b, n, ReadOutput)
  }

  predicate LegalOutputs(outs: seq<TxOut>) {
    0 < |outs| <= 10_000 && forall k :: 0 <= k < |outs| ==> |outs[k].script| <= 10_000
  }

  function WriteOutput(o: TxOut): seq<byte> {
    ToLe(o.value, 8) + (WriteVarint(|o.script|) + o.script)
  }

  function WriteOutputs(outs: seq<TxOut>): seq<byte> {
    Flatten(outs, WriteOutput)
  }

  lemma OutputWritten(o: TxOut, rest: seq<byte>)
    requires |o.script| <= MAX_TX_SCRIPT
    ensures ReadOutput(WriteOutput(o) + rest) == Ok(Read(o, rest))
  {
    var t2 := o.script + rest;
    var t1 := WriteVarint(|o.script|) + t2;
    assert WriteOutput(o) + rest == ToLe(o.value, 8) + t1;
    U64Written(o.value, t1);
    VarintWritten(|o.script|, t2);
    TakeWritten(o.script, rest);
  }

  lemma OutputsWritten(outs: seq<TxOut>, rest: seq<byte>)
    requires forall k :: 0 <= k < |outs| ==> |outs[k].script| <= MAX_TX_SCRIPT
    ensures ReadOutputs(WriteOutputs(outs) + rest, |outs|) == Ok(Read(outs, rest))
  {
    forall k | 0 <= k < |outs| ensures ReadsBack(outs[k], WriteOutput, ReadOutput) {
      OutputReadsBack(outs[k]);
    }
    ManyWritten(outs, WriteOutput, ReadOutput, rest);
  }

  lemma OutputReadsBack(o: TxOut)
    requires |o.script| <= MAX_TX_SCRIPT
    ensures ReadsBack(o, WriteOutput, ReadOutput)
  {
    forall rest ensures ReadOutput(WriteOutput(o) + rest) == Ok(Read(o, rest)) {
      OutputWritten(o, rest);
    }
  }

  // ---- the height push ----------------------------------------------------------------

  function Bip34Height(sig: seq<byte>): Option<u32> {
    if sig == [] then None
    else
      var n, rest := sig[0], sig[1..];
      if 0x51 <= n <= 0x60 then Some(n - 0x50)
      else if 1 <= n <= 4 && n <= |rest| then
        ShortNumber(rest[..n]);
        Some(FromLe(rest[..n]))
      else None
  }

  lemma ShortNumber(b: seq<byte>)
    requires |b| <= 4
    ensures FromLe(b) <= U32_MAX
  {
    Widths();
    assert Pow256(3) == 0x100_0000;
    FromLeBounded(b);
  }

  // The bytes of the push are or-ed into place one by one.
  method Bip34HeightProgram(sig: seq<byte>) returns (r: Option<u32>)
    ensures r == Bip34Height(sig)
  {
    if sig == [] {
      return None;
    }
    var n, rest := sig[0], sig[1..];
    if 0x51 <= n <= 0x60 {
      return Some(n - 0x50);
    }
    if !(1 <= n <= 4) || |rest| < n {
      return None;
    }
    var v := OrTogether(rest[..n]);
    ShortNumber(rest[..n]);
    return Some(v);
  }

  method OrTogether(b: seq<byte>) returns (v: nat)
    ensures v == FromLe(b)
  {
    v := 0;
    for i := 0 to |b|
      invariant v == FromLe(b[..i])
    {
      NextByte(b, i);
      v := Or(v, Shl(b[i], 8 * i));
    }
    assert b[..|b|] == b;
  }

  lemma LastByte(b: seq<byte>, x: byte)
    ensures FromLe(b + [x]) == FromLe(b) + x * Pow256(|b|)
  {
    FromLeConcat(b, [x]);
    OneByte(x);
  }

  lemma OneByte(x: byte)
    ensures FromLe([x]) == x
  {
    FirstByte([x], x, []);
  }

  lemma NextByte(b: seq<byte>, i: nat)
    requires i < |b|
    ensures Or(FromLe(b[..i]), Shl(b[i], 8 * i)) == FromLe(b[..i + 1])
  {
    assert b[..i + 1] == b[..i] + [b[i]];
    LastByte(b[..i], b[i]);
    Pow256IsPow2(i);
    FromLeBounded(b[..i]);
    OrDisjoint(FromLe(b[..i]), b[i], 8 * i);
  }

  // ---- parsing ------------------------------------------------------------------------

  function NullOutpoint(): (r: seq<byte>)
    ensures |r| == 36
  {
    Zeros(32) + [0xFF, 0xFF, 0xFF, 0xFF]
  }

  function ReadScriptSig(b: seq<byte>): Reading<seq<byte>> {
    var count :- ReadVarint(b);
    if count.value != 1 then Err(Malformed("coinbase input count"))
    else
      var prevout :- Take(count.rest, 36);
      if prevout.value != NullOutpoint() then Err(Malformed("coinbase outpoint"))
      else
        var len :- ReadVarint(prevout.rest);
        if !(2 <= len.value <= MAX_SCRIPT_SIG) then Err(Malformed("coinbase scriptSig length"))
        else Take(len.rest, len.value)
  }

  function ReadOutputList(b: seq<byte>): Reading<seq<TxOut>> {
    var count :- ReadVarint(b);
    if count.value == 0 || count.value > MAX_TX_OUTPUTS then Err(Malformed("coinbase output count"))
    else ReadOutputs(count.rest, count.value)
  }

  // Everything in front of the outputs.
  datatype Front = Front(version: u32, scriptSig: seq<byte>, sequence: u32)

  function ReadFront(b: seq<byte>): Reading<Front> {
    var version :- U32(b);
    var sig :- ReadScriptSig(version.rest);
    var sequence :- U32(sig.rest);
    Ok(Read(Front(version.value, sig.value, sequence.value), sequence.rest))
  }

  function Parse(bytes: seq<byte>): Result<Coinbase, Error> {
    var front :- ReadFront(bytes);
    var outputs :- ReadOutputList(front.rest);
    var lockTime :- U32(outputs.rest);
    var f := front.value;
    if lockTime.rest != [] then Err(Malformed("coinbase trailing bytes"))
    else
      Ok(Coinbase(f.version, f.scriptSig, f.sequence, outputs.value, lockTime.value, Bip34Height(f.scriptSig),
                  SatSub(|bytes|, |front.rest|), SatSub(|bytes|, |outputs.rest|)))
  }

  // ---- printing -----------------------------------------------------------------------

  function InputBytes(sig: seq<byte>): seq<byte> {
    [1] + (NullOutpoint() + (WriteVarint(|sig|) + sig))
  }

  function OutputListBytes(outs: seq<TxOut>): seq<byte> {
    WriteVarint(|outs|) + WriteOutputs(outs)
  }

  function Serialize(version: u32, sig: seq<byte>, sequence: u32, outs: seq<TxOut>, lockTime: u32): seq<byte> {
    ToLe(version, 4) + (InputBytes(sig) + (ToLe(sequence, 4) + (OutputListBytes(outs) + ToLe(lockTime, 4))))
  }

  lemma ScriptSigWritten(sig: seq<byte>, rest: seq<byte>)
    requires 2 <= |sig| <= U64_MAX
    ensures ReadScriptSig(InputBytes(sig) + rest)
            == if |sig| <= MAX_SCRIPT_SIG then Ok(Read(sig, rest)) else Err(Malformed("coinbase scriptSig length"))
  {
    var t3 := sig + rest;
    var t2 := WriteVarint(|sig|) + t3;
    var t1 := NullOutpoint() + t2;
    assert WriteVarint(1) == [1];
    assert InputBytes(sig) + rest == WriteVarint(1) + t1;
    VarintWritten(1, t1);
    TakeWritten(NullOutpoint(), t2);
    VarintWritten(|sig|, t3);
    TakeWritten(sig, rest);
  }

  lemma OutputListWritten(outs: seq<TxOut>, rest: seq<byte>)
    requires LegalOutputs(outs)
    ensures ReadOutputList(OutputListBytes(outs) + rest) == Ok(Read(outs, rest))
  {
    assert OutputListBytes(outs) + rest == WriteVarint(|outs|) + (WriteOutputs(outs) + rest);
    VarintWritten(|outs|, WriteOutputs(outs) + rest);
    OutputsWritten(outs, rest);
  }

  // Every legal coinbase is parsed back from its bytes; a scriptSig over the limit is the
  // one thing a printer can produce that the parser refuses.
  lemma ParseSerialize(version: u32, sig: seq<byte>, sequence: u32, outs: seq<TxOut>, lockTime: u32)
    requires 2 <= |sig| <= U64_MAX && LegalOutputs(outs)
    ensures var b := Serialize(version, sig, sequence, outs, lockTime);
            if |sig| <= 100 then
              Parse(b) == Ok(Coinbase(version, sig, sequence, outs, lockTime, Bip34Height(sig),
                                      SatSub(|b|, |OutputListBytes(outs)| + 4), SatSub(|b|, 4)))
            else Parse(b) == Err(Malformed("coinbase scriptSig length"))
  {
    var t4 := ToLe(lockTime, 4);
    var t3 := OutputListBytes(outs) + t4;
    var t2 := ToLe(sequence, 4) + t3;
    var t1 := InputBytes(sig) + t2;
    U32Written(version, t1);
    ScriptSigWritten(sig, t2);
    U32Written(sequence, t3);
    OutputListWritten(outs, t4);
    assert t4 + [] == t4;
    U32Written(lockTime, []);
  }

  lemma OutputRefused(o: TxOut, rest: seq<byte>)
    requires 10_000 < |o.script| <= U64_MAX
    ensures ReadOutput(WriteOutput(o) + rest) == Err(Malformed("coinbase output script length"))
  {
    var t1 := WriteVarint(|o.script|) + (o.script + rest);
    assert WriteOutput(o) + rest == ToLe(o.value, 8) + t1;
    U64Written(o.value, t1);
    VarintWritten(|o.script|, o.script + rest);
  }

  lemma {:induction false} OutputsRefused(outs: seq<TxOut>, rest: seq<byte>)
    requires exists k :: 0 <= k < |outs| && |outs[k].script| > 10_000
    requires forall k :: 0 <= k < |outs| ==> |outs[k].script| <= U64_MAX
    ensures ReadOutputs(WriteOutputs(outs) + rest, |outs|) == Err(Malformed("coinbase output script length"))
  {
    var first, tail := outs[0], outs[1..];
    var b, e := WriteOutputs(outs) + rest, Malformed("coinbase output script length");
    FlattenFirst(outs, WriteOutput, rest);
    assert b == WriteOutput(first) + (WriteOutputs(tail) + rest);
    if |first.script| > 10_000 {
      OutputRefused(first, WriteOutputs(tail) + rest);
      ManyRefused(b, |outs|, ReadOutput, e);
    } else {
      var k :| 0 <= k < |outs| && |outs[k].script| > 10_000;
      assert tail[k - 1] == outs[k];
      OutputWritten(first, WriteOutputs(tail) + rest);
      OutputsRefused(tail, rest);
      ManyRefused(b, |outs|, ReadOutput, e);
    }
  }

  // What is printed is refused in exactly these cases, the first that applies.
  lemma ParseSerializeIff(version: u32, sig: seq<byte>, sequence: u32, outs: seq<TxOut>, lockTime: u32)
    requires |sig| <= U64_MAX && |outs| <= U64_MAX && forall k :: 0 <= k < |outs| ==> |outs[k].script| <= U64_MAX
    ensures var r := Parse(Serialize(version, sig, sequence, outs, lockTime));
            if !(2 <= |sig| <= 100) then r == Err(Malformed("coinbase scriptSig length"))
            else if !(0 < |outs| <= 10_000) then r == Err(Malformed("coinbase output count"))
            else if exists k :: 0 <= k < |outs| && |outs[k].script| > 10_000 then
              r == Err(Malformed("coinbase output script length"))
            else r.Ok? && r.value.outputs == outs && r.value.scriptSig == sig
  {
    var t4 := ToLe(lockTime, 4);
    var t3 := OutputListBytes(outs) + t4;
    var t2 := ToLe(sequence, 4) + t3;
    U32Written(version, InputBytes(sig) + t2);
    ScriptSigRead(sig, t2);
    U32Written(sequence, t3);
    if LegalOutputs(outs) && 2 <= |sig| <= 100 {
      ParseSerialize(version, sig, sequence, outs, lockTime);
    } else {
      OutputListRead(outs, t4);
    }
  }

  lemma ScriptSigRead(sig: seq<byte>, rest: seq<byte>)
    requires |sig| <= U64_MAX
    ensures ReadScriptSig(InputBytes(sig) + rest)
            == if 2 <= |sig| <= 100 then Ok(Read(sig, rest)) else Err(Malformed("coinbase scriptSig length"))
  {
    if |sig| >= 2 {
      ScriptSigWritten(sig, rest);
    } else {
      var t2 := WriteVarint(|sig|) + (sig + rest);
      var t1 := NullOutpoint() + t2;
      assert WriteVarint(1) == [1];
      assert InputBytes(sig) + rest == WriteVarint(1) + t1;
      VarintWritten(1, t1);
      TakeWritten(NullOutpoint(), t2);
      VarintWritten(|sig|, sig + rest);
    }
  }

  lemma OutputListRead(outs: seq<TxOut>, rest: seq<byte>)
    requires |outs| <= U64_MAX && forall k :: 0 <= k < |outs| ==> |outs[k].script| <= U64_MAX
    ensures ReadOutputList(OutputListBytes(outs) + rest)
            == if !(0 < |outs| <= 10_000) then Err(Malformed("coinbase output count"))
               else if exists k :: 0 <= k < |outs| && |outs[k].script| > 10_000 then
                 Err(Malformed("coinbase output script length"))
               else Ok(Read(outs, rest))
  {
    assert OutputListBytes(outs) + rest == WriteVarint(|outs|) + (WriteOutputs(outs) + rest);
    VarintWritten(|outs|, WriteOutputs(outs) + rest);
    if exists k :: 0 <= k < |outs| && |outs[k].script| > 10_000 {
      OutputsRefused(outs, rest);
    } else {
      OutputsWritten(outs, rest);
    }
  }

  // ---- parsing with a cursor ----------------------------------------------------------

  method ReadVarintProgram(c: Cursor) returns (r: Result<u64, Error>)
    requires c.Valid()
    modifies c
    ensures c.Got(r, ReadVarint(old(c.Rest())))
  {
    var tag :- c.TakeU8();
    if tag == 0xFD {
      var n :- c.TakeU16();
      return Ok(n);
    } else if tag == 0xFE {
      var n :- c.TakeU32();
      return Ok(n);
    } else if tag == 0xFF {
      var n :- c.TakeU64();
      return Ok(n);
    }
    return Ok(tag);
  }

  method ReadOutputProgram(c: Cursor) returns (r: Result<TxOut, Error>)
    requires c.Valid()
    modifies c
    ensures c.Got(r, ReadOutput(old(c.Rest())))
  {
    var value :- c.TakeU64();
    var len :- ReadVarintProgram(c);
    if len > MAX_TX_SCRIPT {
      return Err(Malformed("coinbase output script length"));
    }
    var script :- c.TakeBytes(len);
    return Ok(TxOut(value, script));
  }

  method ReadNextOutput(c: Cursor, done: seq<TxOut>, ghost n: nat) returns (r: Result<seq<TxOut>, Error>)
    requires c.Valid()
    modifies c
    ensures c.Valid()
    ensures Behind(done, ReadMany(old(c.Rest()), n + 1, ReadOutput))
            == if r.Ok? then Behind(r.value, ReadMany(c.Rest(), n, ReadOutput)) else Err(r.error)
  {
    ReadOneMore(done, c.Rest(), n, ReadOutput);
    var o :- ReadOutputProgram(c);
    return Ok(done + [o]);
  }

  method ReadOutputsProgram(c: Cursor, n: nat) returns (r: Result<seq<TxOut>, Error>)
    requires c.Valid()
    modifies c
    ensures c.Got(r, ReadOutputs(old(c.Rest()), n))
  {
    ghost var spec := ReadOutputs(c.Rest(), n);
    var outputs: seq<TxOut> := [];
    BehindNothing(spec);
    for left := n downto 0
      invariant c.Valid() && Behind(outputs, ReadMany(c.Rest(), left, ReadOutput)) == spec
    {
      outputs :- ReadNextOutput(c, outputs, left);
    }
    BehindLast(outputs, c.Rest(), ReadOutput);
    return Ok(outputs);
  }

  method ReadScriptSigProgram(c: Cursor) returns (r: Result<seq<byte>, Error>)
    requires c.Valid()
    modifies c
    ensures c.Got(r, ReadScriptSig(old(c.Rest())))
  {
    var count :- ReadVarintProgram(c);
    if count != 1 {
      return Err(Malformed("coinbase input count"));
    }
    var prevout :- c.TakeBytes(36);
    if prevout[..32] != Zeros(32) || prevout[32..] != [0xFF, 0xFF, 0xFF, 0xFF] {
      OutpointParts(prevout);
      return Err(Malformed("coinbase outpoint"));
    }
    OutpointParts(prevout);
    var len :- ReadVarintProgram(c);
    if !(2 <= len <= MAX_SCRIPT_SIG) {
      return Err(Malformed("coinbase scriptSig length"));
    }
    r := c.TakeBytes(len);
  }

  lemma OutpointParts(prevout: seq<byte>)
    requires |prevout| == 36
    ensures prevout == NullOutpoint() <==> prevout[..32] == Zeros(32) && prevout[32..] == [0xFF, 0xFF, 0xFF, 0xFF]
  {
    assert prevout == prevout[..32] + prevout[32..];
    assert NullOutpoint()[..32] == Zeros(32);
  }

  method ReadOutputListProgram(c: Cursor) returns (r: Result<seq<TxOut>, Error>)
    requires c.Valid()
    modifies c
    ensures c.Got(r, ReadOutputList(old(c.Rest())))
  {
    var count :- ReadVarintProgram(c);
    if count == 0 || count > MAX_TX_OUTPUTS {
      return Err(Malformed("coinbase output count"));
    }
    r := ReadOutputsProgram(c, count);
  }

  method ReadFrontProgram(c: Cursor) returns (r: Result<Front, Error>)
    requires c.Valid()
    modifies c
    ensures c.Got(r, ReadFront(old(c.Rest())))
  {
    var version :- c.TakeU32();
    var sig :- ReadScriptSigProgram(c);
    var sequence :- c.TakeU32();
    return Ok(Front(version, sig, sequence));
  }

  // The outputs and the lock time, to the end of the bytes.
  datatype Tail = Tail(outputs: seq<TxOut>, lockTime: u32, lockTimeAt: nat)

  method ReadTailProgram(c: Cursor) returns (r: Result<Tail, Error>)
    requires c.Valid()
    modifies c
    ensures c.Valid()
    ensures match ReadOutputList(old(c.Rest()))
            case Err(e) => r == Err(e)
            case Ok(outputs) =>
              match U32(outputs.rest)
              case Err(e) => r == Err(e)
              case Ok(lockTime) =>
                if lockTime.rest != [] then r == Err(Malformed("coinbase trailing bytes"))
                else r == Ok(Tail(outputs.value, lockTime.value, SatSub(|c.buf|, |outputs.rest|)))
  {
    var outputs :- ReadOutputListProgram(c);
    var lockTimeAt := c.pos;
    var lockTime :- c.TakeU32();
    if c.Remaining() != 0 {
      return Err(Malformed("coinbase trailing bytes"));
    }
    return Ok(Tail(outputs, lockTime, lockTimeAt));
  }

  method ParseProgram(bytes: seq<byte>) returns (r: Result<Coinbase, Error>)
    ensures r == Parse(bytes)
  {
    var c := new Cursor(bytes);
    var front :- ReadFrontProgram(c);
    var outputsAt := c.pos;
    var tail :- ReadTailProgram(c);
    var height := Bip34HeightProgram(front.scriptSig);
    return Ok(Coinbase(front.version, front.scriptSig, front.sequence, tail.outputs, tail.lockTime, height, outputsAt,
                       tail.lockTimeAt));
  }
}
