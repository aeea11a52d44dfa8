// Building a coinbase, cutting it at the extranonce slot and reassembling it, and the
// segwit form that goes into a block.
module CoinbaseBuild {
  import opened Prelude
  import opened LittleEndian
  import opened Outputs
  import opened Wire
  import opened CoinbaseTx

  // ---- building -----------------------------------------------------------------------

  // Bytes of a number without its high zeros, but never none.
  function SignificantBytes(b: seq<byte>): (n: nat)
    ensures n <= |b| || n == 1
    ensures n >= 1
    ensures forall i :: n <= i < |b| ==> b[i] == 0
  {
    if |b| <= 1 then 1 else if b[|b| - 1] == 0 then SignificantBytes(b[..|b| - 1]) else |b|
  }

  function HeightPush(height: u32): (r: seq<byte>)
    ensures 2 <= |r| <= 5
  {
    var hb := ToLe(height, 4);
    [SignificantBytes(hb)] + hb[..SignificantBytes(hb)]
  }

  // The height, then one push of the tag, the target byte and the extranonce slot. The
  // length of the push is written in one byte.
  function ScriptSig(height: u32, tag: seq<byte>, targetByte: byte): (r: seq<byte>)
    ensures |r| == |HeightPush(height)| + 1 + |tag| + 1 + EXTRANONCE_SLOT
  {
    HeightPush(height) + ([(|tag| + 1 + EXTRANONCE_SLOT) % 0x100] + (tag + ([targetByte] + Zeros(EXTRANONCE_SLOT))))
  }

  lemma ScriptSigHeight(height: u32, tag: seq<byte>, targetByte: byte)
    ensures Bip34Height(ScriptSig(height, tag, targetByte)) == Some(height)
  {
    HeightPushed(height, [(|tag| + 1 + EXTRANONCE_SLOT) % 0x100] + (tag + ([targetByte] + Zeros(EXTRANONCE_SLOT))));
  }

  lemma HeightPushed(height: u32, tail: seq<byte>)
    ensures Bip34Height(HeightPush(height) + tail) == Some(height)
  {
    var hb := ToLe(height, 4);
    var n := SignificantBytes(hb);
    var sig := HeightPush(height) + tail;
    assert sig[0] == n && sig[1..][..n] == hb[..n];
    assert hb == hb[..n] + Zeros(4 - n);
    ZerosAbove(hb[..n], 4 - n);
    U32RoundTrip(height);
  }

  const FULL_SEQUENCE: u32 := 0xFFFF_FFFF

  function Build(height: u32, tag: seq<byte>, targetByte: byte, outs: seq<TxOut>, lockTime: u32): seq<byte> {
    Serialize(1, ScriptSig(height, tag, targetByte), FULL_SEQUENCE, outs, lockTime)
  }

  // Where the target byte ends up.
  function TargetIndex(height: u32, tag: seq<byte>): nat {
    4 + 1 + 36 + |WriteVarint(|ScriptSig(height, tag, 0)|)| + |HeightPush(height)| + 1 + |tag|
  }

  // What is built is parsed back, height and outputs included, exactly when the height
  // and the tag leave the scriptSig within its limit: always, for tags of 81 bytes.
  lemma BuildParses(height: u32, tag: seq<byte>, targetByte: byte, outs: seq<TxOut>, lockTime: u32)
    requires |tag| < 0x1000_0000_0000_0000 && LegalOutputs(outs)
    ensures var r := Parse(Build(height, tag, targetByte, outs, lockTime));
            if |HeightPush(height)| + |tag| <= 86 then
              && r.Ok?
              && r.value.height == Some(height) && r.value.outputs == outs && r.value.lockTime == lockTime
              && r.value.scriptSig == ScriptSig(height, tag, targetByte)
              && r.value.version == 1 && r.value.sequence == 0xFFFF_FFFF
            else r == Err(Malformed("coinbase scriptSig length"))
  {
    var sig := ScriptSig(height, tag, targetByte);
    ParseSerialize(1, sig, FULL_SEQUENCE, outs, lockTime);
    ScriptSigHeight(height, tag, targetByte);
  }

  method BuildHeightPush(height: u32) returns (sig: seq<byte>)
    ensures sig == HeightPush(height)
  {
    var hb := ToLe(height, 4);
    var n := 4;
    assert hb[..4] == hb;
    while n > 1 && hb[n - 1] == 0
      invariant 1 <= n <= 4
      invariant SignificantBytes(hb) == SignificantBytes(hb[..n])
    {
      assert hb[..n][..n - 1] == hb[..n - 1];
      n := n - 1;
    }
    sig := [n] + hb[..n];
  }

  method BuildProgram(height: u32, tag: seq<byte>, outs: seq<TxOut>, lockTime: u32)
    returns (bytes: seq<byte>, targetIndex: nat)
    ensures bytes == Build(height, tag, 0xFF, outs, lockTime) && targetIndex == TargetIndex(height, tag)
  {
    var sig, targetInSig := BuildScriptSig(height, tag);
    var v := ToLe(1, 4) + [1] + Zeros(32) + [0xFF, 0xFF, 0xFF, 0xFF] + WriteVarint(|sig|);
    var sigAt := |v|;
    v := v + sig + ToLe(FULL_SEQUENCE, 4);
    var body := WriteEach(outs, WriteOutput);
    v := v + WriteVarint(|outs|) + body + ToLe(lockTime, 4);
    bytes, targetIndex := v, sigAt + targetInSig;
    Regrouped(ToLe(1, 4), [1], Zeros(32), [0xFF, 0xFF, 0xFF, 0xFF], WriteVarint(|sig|), sig, ToLe(FULL_SEQUENCE, 4),
              WriteVarint(|outs|), WriteOutputs(outs), ToLe(lockTime, 4));
  }

  method BuildScriptSig(height: u32, tag: seq<byte>) returns (sig: seq<byte>, targetInSig: nat)
    ensures sig == ScriptSig(height, tag, 0xFF) && targetInSig == |HeightPush(height)| + 1 + |tag|
  {
    sig := BuildHeightPush(height);
    sig := sig + [(|tag| + 1 + EXTRANONCE_SLOT) % 0x100] + tag;
    targetInSig := |sig|;
    sig := sig + [0xFF] + Zeros(EXTRANONCE_SLOT);
  }

  lemma Regrouped(a: seq<byte>, b: seq<byte>, c: seq<byte>, d: seq<byte>, e: seq<byte>, f: seq<byte>, g: seq<byte>,
                  h: seq<byte>, i: seq<byte>, j: seq<byte>)
    ensures a + b + c + d + e + f + g + h + i + j == a + ((b + ((c + d) + (e + f))) + (g + ((h + i) + j)))
  {
  }

  // ---- cutting and reassembling -------------------------------------------------------

  // The slot is filled with zeros and the target byte written, unless the whole coinbase
  // came in one piece.
  function Assemble(coinb1: seq<byte>, coinb2: seq<byte>, targetIndex: nat, pot: byte): seq<byte> {
    if coinb2 == [] && targetIndex == 0 then coinb1
    else
      var v := coinb1 + Zeros(EXTRANONCE_SLOT) + coinb2;
      if targetIndex < |v| then v[targetIndex := pot] else v
  }

  // A coinbase sent in one piece, with no second half and no target position, is taken as
  // it is. Any other has twelve zeros between its halves and the target byte at its
  // position, unless that lies beyond the end.
  lemma AssembledBytes(coinb1: seq<byte>, coinb2: seq<byte>, at: nat, pot: byte)
    ensures var v, n := Assemble(coinb1, coinb2, at, pot), |coinb1|;
            if coinb2 == [] && at == 0 then v == coinb1
            else
              && |v| == n + 12 + |coinb2|
              && (at < |v| ==> v[at] == pot)
              && (forall i :: 0 <= i < n && i != at ==> v[i] == coinb1[i])
              && (forall i :: n <= i < n + 12 && i != at ==> v[i] == 0)
              && (forall i :: 0 <= i < |coinb2| && n + 12 + i != at ==> v[n + 12 + i] == coinb2[i])
  {
  }

  function Around(pre: seq<byte>, targetByte: byte, post: seq<byte>): seq<byte> {
    pre + ([targetByte] + (Zeros(EXTRANONCE_SLOT) + post))
  }

  // Everything in front of the target byte, and everything behind the slot.
  function BeforeTarget(height: u32, tag: seq<byte>): (r: seq<byte>)
    ensures |r| == TargetIndex(height, tag)
  {
    (ToLe(1, 4) + ([1] + (NullOutpoint() + WriteVarint(|ScriptSig(height, tag, 0)|))))
    + (HeightPush(height) + ([(|tag| + 1 + EXTRANONCE_SLOT) % 0x100] + tag))
  }

  function BehindSlot(outs: seq<TxOut>, lockTime: u32): (r: seq<byte>)
    ensures r != []
  {
    ToLe(FULL_SEQUENCE, 4) + (OutputListBytes(outs) + ToLe(lockTime, 4))
  }

  lemma BuildShape(height: u32, tag: seq<byte>, targetByte: byte, outs: seq<TxOut>, lockTime: u32)
    ensures Build(height, tag, targetByte, outs, lockTime)
            == Around(BeforeTarget(height, tag), targetByte, BehindSlot(outs, lockTime))
  {
    Reassociated(ToLe(1, 4), [1], NullOutpoint(), WriteVarint(|ScriptSig(height, tag, 0)|), HeightPush(height),
                 [(|tag| + 1 + EXTRANONCE_SLOT) % 0x100], tag, [targetByte], Zeros(EXTRANONCE_SLOT),
                 ToLe(FULL_SEQUENCE, 4), OutputListBytes(outs) + ToLe(lockTime, 4));
  }

  lemma Reassociated(a: seq<byte>, b: seq<byte>, c: seq<byte>, d: seq<byte>, e: seq<byte>, f: seq<byte>, g: seq<byte>,
                     h: seq<byte>, i: seq<byte>, j: seq<byte>, k: seq<byte>)
    ensures a + ((b + (c + (d + (e + (f + (g + (h + i))))))) + (j + k))
            == ((a + (b + (c + d))) + (e + (f + g))) + (h + (i + (j + k)))
  {
  }

  // Split at the slot that follows the target byte, and put back together with a target.
  function Reassembled(full: seq<byte>, at: nat, pot: byte): seq<byte>
    requires at + 1 + EXTRANONCE_SLOT <= |full|
  {
    Assemble(full[..at + 1], full[at + 1 + EXTRANONCE_SLOT..], at, pot)
  }

  lemma ReassembledAround(pre: seq<byte>, was: byte, pot: byte, post: seq<byte>)
    requires pre != [] && post != []
    ensures |pre| + 1 + EXTRANONCE_SLOT <= |Around(pre, was, post)|
    ensures Reassembled(Around(pre, was, post), |pre|, pot) == Around(pre, pot, post)
  {
    var full, at := Around(pre, was, post), |pre|;
    assert full[..at + 1] == pre + [was];
    assert full[at + 1 + EXTRANONCE_SLOT..] == post;
    assert (pre + [was] + Zeros(EXTRANONCE_SLOT) + post)[at := pot] == Around(pre, pot, post);
  }

  // Cut at the slot and reassembled with any target byte, it is the coinbase built with
  // that byte, so it parses to the same height and outputs.
  lemma CutAndReassembled(height: u32, tag: seq<byte>, outs: seq<TxOut>, lockTime: u32, pot: byte)
    ensures TargetIndex(height, tag) + 1 + EXTRANONCE_SLOT <= |Build(height, tag, 0xFF, outs, lockTime)|
    ensures Reassembled(Build(height, tag, 0xFF, outs, lockTime), TargetIndex(height, tag), pot)
            == Build(height, tag, pot, outs, lockTime)
  {
    BuildShape(height, tag, 0xFF, outs, lockTime);
    BuildShape(height, tag, pot, outs, lockTime);
    ReassembledAround(BeforeTarget(height, tag), 0xFF, pot, BehindSlot(outs, lockTime));
  }

  // So the pool, which reassembles with the share's target, reads the height and the
  // outputs the gateway wrote, for every height and every tag of at most 81 bytes.
  lemma ReassembledParses(height: u32, tag: seq<byte>, outs: seq<TxOut>, lockTime: u32, pot: byte)
    requires |tag| <= 81 && LegalOutputs(outs)
    ensures TargetIndex(height, tag) + 1 + EXTRANONCE_SLOT <= |Build(height, tag, 0xFF, outs, lockTime)|
    ensures var r := Parse(Reassembled(Build(height, tag, 0xFF, outs, lockTime), TargetIndex(height, tag), pot));
            r.Ok? && r.value.height == Some(height) && r.value.outputs == outs && r.value.lockTime == lockTime
  {
    CutAndReassembled(height, tag, outs, lockTime, pot);
    BuildParses(height, tag, pot, outs, lockTime);
  }
}
