// The share message: printed by a gateway, parsed by the pool from whatever padding it
// arrives in.
module PowMessage {
  import opened Prelude
  import opened LittleEndian
  import opened Wire
  import opened Share

  const SUB_COINBASER_REQUEST: byte := 0x10
  const SUB_POW: byte := 0x27
  const SUB_JOB_VALIDATION: byte := 0x50
  const END: byte := 0xFE
  const MAX_USERNAME := 384
  const EXTRANONCE_LEN := 12
  const POW_ALGO_BLAKE2B: byte := 1

  // ---- reading sections ---------------------------------------------------------------

  function ReadBlake2b(b: seq<byte>): (r: Reading<Blake2bSection>)
    ensures r.Ok? ==> |r.value.rest| <= |b|
  {
    var algo :- U8(b);
    if algo.value != POW_ALGO_BLAKE2B then Err(Malformed("pow algorithm"))
    else
      var ntime :- Take(algo.rest, 8);
      var nonce :- Take(ntime.rest, 8);
      Ok(Read(Blake2bSection(ntime.value, nonce.value), nonce.rest))
  }

  datatype JobHead = JobHead(prevHash: Hash, targetByteIndex: u16, nbits: Bytes4, coinbaserId: byte, height: u32)

  datatype JobSizes = JobSizes(coinbaseValue: u64, txnCount: u32, weight: u32, size: u32, sigops: u32)

  function ReadJobHead(b: seq<byte>): (r: Reading<JobHead>)
    ensures r.Ok? ==> |r.value.rest| <= |b|
  {
    var prevHash :- Take(b, 32);
    var index :- U16(prevHash.rest);
    var nbits :- Take(index.rest, 4);
    var id :- U8(nbits.rest);
    var height :- U32(id.rest);
    Ok(Read(JobHead(prevHash.value, index.value, nbits.value, id.value, height.value), height.rest))
  }

  function ReadJobSizes(b: seq<byte>): (r: Reading<JobSizes>)
    ensures r.Ok? ==> |r.value.rest| <= |b|
  {
    var value :- U64(b);
    var count :- U32(value.rest);
    var weight :- U32(count.rest);
    var size :- U32(weight.rest);
    var sigops :- U32(size.rest);
    Ok(Read(JobSizes(value.value, count.value, weight.value, size.value, sigops.value), sigops.rest))
  }

  function ReadHash(b: seq<byte>): (r: Reading<Hash>)
    ensures r.Ok? ==> |r.value.rest| <= |b|
  {
    var h :- Take(b, 32);
    Ok(Read(h.value, h.rest))
  }

  function ReadBranches(b: seq<byte>): (r: Reading<seq<Hash>>)
    ensures r.Ok? ==> |r.value.rest| <= |b|
  {
    var n :- U8(b);
    ManyShrinks(n.rest, n.value, ReadHash);
    ReadMany(n.rest, n.value, ReadHash)
  }

  function JobOf(h: JobHead, s: JobSizes, branches: seq<Hash>): JobSection {
    JobSection(h.prevHash, h.targetByteIndex, h.nbits, h.coinbaserId, h.height, s.coinbaseValue, s.txnCount, s.weight,
               s.size, s.sigops, branches)
  }

  function ReadJob(b: seq<byte>): (r: Reading<JobSection>)
    ensures r.Ok? ==> |r.value.rest| <= |b|
  {
    var head :- ReadJobHead(b);
    var sizes :- ReadJobSizes(head.rest);
    var branches :- ReadBranches(sizes.rest);
    Ok(Read(JobOf(head.value, sizes.value, branches.value), branches.rest))
  }

  function ReadCoinbase(b: seq<byte>): (r: Reading<CoinbaseSection>)
    ensures r.Ok? ==> |r.value.rest| <= |b|
  {
    var id :- U8(b);
    var l1 :- U16(id.rest);
    var l2 :- U16(l1.rest);
    var coinb1 :- Take(l2.rest, l1.value);
    var coinb2 :- Take(coinb1.rest, l2.value);
    Ok(Read(CoinbaseSection(id.value, coinb1.value, coinb2.value), coinb2.rest))
  }

  // A section fills its field; a repeated one replaces it.
  function ReadSection(tag: byte, b: seq<byte>, s: PowSubmit): (r: Reading<PowSubmit>)
    ensures r.Ok? ==> |r.value.rest| <= |b|
  {
    if tag == 0x03 then
      var x :- ReadBlake2b(b);
      Ok(Read(s.(blake2b := Some(x.value)), x.rest))
    else if tag == 0x04 then
      var x :- U32(b);
      Ok(Read(s.(timeOnWire := Some(x.value)), x.rest))
    else if tag == 0x01 then
      var x :- ReadJob(b);
      Ok(Read(s.(job := Some(x.value)), x.rest))
    else if tag == 0x02 then
      var x :- ReadCoinbase(b);
      Ok(Read(s.(coinbase := Some(x.value)), x.rest))
    else Err(Malformed("pow section"))
  }

  // Sections up to the terminator; what follows it is padding.
  function ReadSections(b: seq<byte>, s: PowSubmit): Result<PowSubmit, Error>
    decreases |b|
  {
    var tag :- U8(b);
    if tag.value == END then Ok(s)
    else
      var next :- ReadSection(tag.value, tag.rest, s);
      ReadSections(next.rest, next.value)
  }

  datatype Grind = Grind(jobId: byte, coinbaseId: byte, flags: byte, targetPot: byte, ntime32: u32, nonce32: u32, version: u32)

  function ReadGrind(b: seq<byte>): Reading<Grind> {
    var jobId :- U8(b);
    var coinbaseId :- U8(jobId.rest);
    var flags :- U8(coinbaseId.rest);
    var pot :- U8(flags.rest);
    var ntime :- U32(pot.rest);
    var nonce :- U32(ntime.rest);
    var version :- U32(nonce.rest);
    Ok(Read(Grind(jobId.value, coinbaseId.value, flags.value, pot.value, ntime.value, nonce.value, version.value),
            version.rest))
  }

  // Everything in front of the sections.
  function ReadPlain(b: seq<byte>): Reading<PowSubmit> {
    var g :- ReadGrind(b);
    var len :- U8(g.rest);
    if len.value != EXTRANONCE_LEN then Err(Malformed("extranonce size"))
    else
      var extranonce :- Take(len.rest, EXTRANONCE_LEN);
      var username :- CStr(extranonce.rest, MAX_USERNAME);
      var reserved :- Take(username.rest, 4);
      var x := g.value;
      Ok(Read(PowSubmit(x.jobId, x.coinbaseId, x.flags, x.targetPot, x.ntime32, x.nonce32, x.version, extranonce.value,
                        username.value, reserved.value, None, None, None, None), reserved.rest))
  }

  function Decode(b: seq<byte>): Result<PowSubmit, Error> {
    var plain :- ReadPlain(b);
    ReadSections(plain.rest, plain.value)
  }

  datatype ClientMsg =
    | CoinbaserRequest(value: u64, prevHash: Hash)
    | Pow(share: PowSubmit)
    | JobValidation(body: seq<byte>)
    | Unknown(sub: byte)

  function ParseClient(payload: seq<byte>): Result<ClientMsg, Error> {
    if payload == [] then Err(Short)
    else
      var sub, body := payload[0], payload[1..];
      if sub == SUB_COINBASER_REQUEST then
        var value :- U64(body);
        var prevHash :- ReadHash(value.rest);
        var end :- U8(prevHash.rest);
        if end.value != END then Err(Malformed("coinbaser request"))
        else Ok(CoinbaserRequest(value.value, prevHash.value))
      else if sub == SUB_POW then
        var s :- Decode(body);
        Ok(Pow(s))
      else if sub == SUB_JOB_VALIDATION then Ok(JobValidation(body))
      else Ok(Unknown(sub))
  }

  // ---- writing ------------------------------------------------------------------------

  function WriteBlake2b(x: Blake2bSection): seq<byte> {
    [POW_ALGO_BLAKE2B] + (x.ntime + x.nonce)
  }

  function WriteJobHead(j: JobSection): seq<byte> {
    j.prevHash + (ToLe(j.targetByteIndex, 2) + (j.nbits + ([j.coinbaserId] + ToLe(j.height, 4))))
  }

  function WriteJobSizes(j: JobSection): seq<byte> {
    ToLe(j.coinbaseValue, 8) + (ToLe(j.txnCount, 4) + (ToLe(j.txnTotalWeight, 4)
      + (ToLe(j.txnTotalSize, 4) + ToLe(j.txnTotalSigops, 4))))
  }

  function WriteHash(h: Hash): seq<byte> { h }

  function WriteBranches(hs: seq<Hash>): seq<byte> {
    [|hs| % 0x100] + Flatten(hs, WriteHash)
  }

  function WriteJob(j: JobSection): seq<byte> {
    WriteJobHead(j) + (WriteJobSizes(j) + WriteBranches(j.merkleBranches))
  }

  // Each half's length is written in two bytes.
  function WriteCoinbase(x: CoinbaseSection): seq<byte> {
    [x.coinbaseId] + (ToLe(|x.coinb1|, 2) + (ToLe(|x.coinb2|, 2) + (x.coinb1 + x.coinb2)))
  }

  function WriteTime(s: PowSubmit): seq<byte> {
    match s.timeOnWire case None => [] case Some(t) => [0x04] + ToLe(t, 4)
  }

  // The wire time is only written behind a BLAKE2b section.
  function WriteHashing(s: PowSubmit): seq<byte> {
    match s.blake2b case None => [] case Some(x) => ([0x03] + WriteBlake2b(x)) + WriteTime(s)
  }

  function WriteJobPart(s: PowSubmit): seq<byte> {
    match s.job case None => [] case Some(j) => [0x01] + WriteJob(j)
  }

  function WriteCoinbasePart(s: PowSubmit): seq<byte> {
    match s.coinbase case None => [] case Some(x) => [0x02] + WriteCoinbase(x)
  }

  function WriteGrind(s: PowSubmit): seq<byte> {
    [s.jobId] + ([s.coinbaseId] + ([s.flags] + ([s.targetPot]
      + (ToLe(s.ntime32, 4) + (ToLe(s.nonce32, 4) + ToLe(s.version, 4))))))
  }

  function WritePlain(s: PowSubmit): seq<byte> {
    WriteGrind(s) + ([EXTRANONCE_LEN] + (s.extranonce + (s.username[..Min(|s.username|, MAX_USERNAME)] + ([0] + s.reserved))))
  }

  function Encode(s: PowSubmit): seq<byte> {
    [SUB_POW] + (WritePlain(s) + (WriteHashing(s) + (WriteJobPart(s) + (WriteCoinbasePart(s) + [END]))))
  }

  // ---- round trip ---------------------------------------------------------------------

  predicate NulFree(b: seq<byte>) {
    forall i :: 0 <= i < |b| ==> b[i] != 0
  }

  // The shares the format can carry whole.
  predicate WellFormed(s: PowSubmit) {
    && |s.username| <= MAX_USERNAME && NulFree(s.username)
    && (s.timeOnWire.Some? ==> s.blake2b.Some?)
    && (s.job.Some? ==> |s.job.value.merkleBranches| <= 0xFF)
    && (s.coinbase.Some? ==> |s.coinbase.value.coinb1| <= U16_MAX && |s.coinbase.value.coinb2| <= U16_MAX)
  }

  lemma Blake2bWritten(x: Blake2bSection, rest: seq<byte>)
    ensures ReadBlake2b(WriteBlake2b(x) + rest) == Ok(Read(x, rest))
  {
    var t2 := x.nonce + rest;
    var t1 := x.ntime + t2;
    assert WriteBlake2b(x) + rest == [POW_ALGO_BLAKE2B] + t1;
    U8Written(POW_ALGO_BLAKE2B, t1);
    TakeWritten(x.ntime, t2);
    TakeWritten(x.nonce, rest);
  }

  lemma JobHeadWritten(j: JobSection, rest: seq<byte>)
    ensures ReadJobHead(WriteJobHead(j) + rest)
            == Ok(Read(JobHead(j.prevHash, j.targetByteIndex, j.nbits, j.coinbaserId, j.height), rest))
  {
    var t4 := ToLe(j.height, 4) + rest;
    var t3 := [j.coinbaserId] + t4;
    var t2 := j.nbits + t3;
    var t1 := ToLe(j.targetByteIndex, 2) + t2;
    FiveNested(j.prevHash, ToLe(j.targetByteIndex, 2), j.nbits, [j.coinbaserId], ToLe(j.height, 4), rest);
    TakeWritten(j.prevHash, t1);
    U16Written(j.targetByteIndex, t2);
    TakeWritten(j.nbits, t3);
    U8Written(j.coinbaserId, t4);
    U32Written(j.height, rest);
  }

  lemma FiveNested(a: seq<byte>, b: seq<byte>, c: seq<byte>, d: seq<byte>, e: seq<byte>, rest: seq<byte>)
    ensures (a + (b + (c + (d + e)))) + rest == a + (b + (c + (d + (e + rest))))
  {
  }

  lemma JobSizesWritten(j: JobSection, rest: seq<byte>)
    ensures ReadJobSizes(WriteJobSizes(j) + rest)
            == Ok(Read(JobSizes(j.coinbaseValue, j.txnCount, j.txnTotalWeight, j.txnTotalSize, j.txnTotalSigops), rest))
  {
    var t4 := ToLe(j.txnTotalSigops, 4) + rest;
    var t3 := ToLe(j.txnTotalSize, 4) + t4;
    var t2 := ToLe(j.txnTotalWeight, 4) + t3;
    var t1 := ToLe(j.txnCount, 4) + t2;
    FiveNested(ToLe(j.coinbaseValue, 8), ToLe(j.txnCount, 4), ToLe(j.txnTotalWeight, 4), ToLe(j.txnTotalSize, 4),
               ToLe(j.txnTotalSigops, 4), rest);
    U64Written(j.coinbaseValue, t1);
    U32Written(j.txnCount, t2);
    U32Written(j.txnTotalWeight, t3);
    U32Written(j.txnTotalSize, t4);
    U32Written(j.txnTotalSigops, rest);
  }

  lemma HashReadsBack(h: Hash)
    ensures ReadsBack(h, WriteHash, ReadHash)
  {
    forall rest ensures ReadHash(WriteHash(h) + rest) == Ok(Read(h, rest)) {
      TakeWritten(h, rest);
    }
  }

  lemma BranchesWritten(hs: seq<Hash>, rest: seq<byte>)
    requires |hs| <= 0xFF
    ensures ReadBranches(WriteBranches(hs) + rest) == Ok(Read(hs, rest))
  {
    var body := Flatten(hs, WriteHash);
    assert WriteBranches(hs) + rest == [|hs|] + (body + rest);
    U8Written(|hs|, body + rest);
    forall k | 0 <= k < |hs| ensures ReadsBack(hs[k], WriteHash, ReadHash) {
      HashReadsBack(hs[k]);
    }
    ManyWritten(hs, WriteHash, ReadHash, rest);
  }

  lemma JobWritten(j: JobSection, rest: seq<byte>)
    requires |j.merkleBranches| <= 0xFF
    ensures ReadJob(WriteJob(j) + rest) == Ok(Read(j, rest))
  {
    var t2 := WriteBranches(j.merkleBranches) + rest;
    var t1 := WriteJobSizes(j) + t2;
    assert WriteJob(j) + rest == WriteJobHead(j) + t1;
    JobHeadWritten(j, t1);
    JobSizesWritten(j, t2);
    BranchesWritten(j.merkleBranches, rest);
  }

  lemma CoinbaseWritten(x: CoinbaseSection, rest: seq<byte>)
    requires |x.coinb1| <= U16_MAX && |x.coinb2| <= U16_MAX
    ensures ReadCoinbase(WriteCoinbase(x) + rest) == Ok(Read(x, rest))
  {
    var t4 := x.coinb2 + rest;
    var t3 := x.coinb1 + t4;
    var t2 := ToLe(|x.coinb2|, 2) + t3;
    var t1 := ToLe(|x.coinb1|, 2) + t2;
    FiveNested([x.coinbaseId], ToLe(|x.coinb1|, 2), ToLe(|x.coinb2|, 2), x.coinb1, x.coinb2, rest);
    U8Written(x.coinbaseId, t1);
    U16Written(|x.coinb1|, t2);
    U16Written(|x.coinb2|, t3);
    TakeWritten(x.coinb1, t4);
    TakeWritten(x.coinb2, rest);
  }

  lemma GrindWritten(s: PowSubmit, rest: seq<byte>)
    ensures ReadGrind(WriteGrind(s) + rest)
            == Ok(Read(Grind(s.jobId, s.coinbaseId, s.flags, s.targetPot, s.ntime32, s.nonce32, s.version), rest))
  {
    var t6 := ToLe(s.version, 4) + rest;
    var t5 := ToLe(s.nonce32, 4) + t6;
    var t4 := ToLe(s.ntime32, 4) + t5;
    var t3 := [s.targetPot] + t4;
    var t2 := [s.flags] + t3;
    var t1 := [s.coinbaseId] + t2;
    SevenNested([s.jobId], [s.coinbaseId], [s.flags], [s.targetPot], ToLe(s.ntime32, 4), ToLe(s.nonce32, 4),
                ToLe(s.version, 4), rest);
    U8Written(s.jobId, t1);
    U8Written(s.coinbaseId, t2);
    U8Written(s.flags, t3);
    U8Written(s.targetPot, t4);
    U32Written(s.ntime32, t5);
    U32Written(s.nonce32, t6);
    U32Written(s.version, rest);
  }

  lemma SevenNested(a: seq<byte>, b: seq<byte>, c: seq<byte>, d: seq<byte>, e: seq<byte>, f: seq<byte>, g: seq<byte>,
                    rest: seq<byte>)
    ensures (a + (b + (c + (d + (e + (f + g)))))) + rest == a + (b + (c + (d + (e + (f + (g + rest))))))
  {
  }

  function Plain(s: PowSubmit): PowSubmit {
    s.(blake2b := None, timeOnWire := None, job := None, coinbase := None)
  }

  lemma PlainWritten(s: PowSubmit, rest: seq<byte>)
    requires |s.username| <= MAX_USERNAME && NulFree(s.username)
    ensures ReadPlain(WritePlain(s) + rest) == Ok(Read(Plain(s), rest))
  {
    var t4 := s.reserved + rest;
    var t3 := s.username + ([0] + t4);
    var t2 := s.extranonce + t3;
    var t1 := [EXTRANONCE_LEN] + t2;
    assert s.username[..Min(|s.username|, MAX_USERNAME)] == s.username;
    SixNested(WriteGrind(s), [EXTRANONCE_LEN], s.extranonce, s.username, [0], s.reserved, rest);
    GrindWritten(s, t1);
    U8Written(EXTRANONCE_LEN, t2);
    TakeWritten(s.extranonce, t3);
    CStrWritten(s.username, MAX_USERNAME, t4);
    TakeWritten(s.reserved, rest);
  }

  lemma SixNested(a: seq<byte>, b: seq<byte>, c: seq<byte>, d: seq<byte>, e: seq<byte>, f: seq<byte>, rest: seq<byte>)
    ensures (a + (b + (c + (d + (e + f))))) + rest == a + (b + (c + (d + (e + (f + rest)))))
  {
  }

  // One written section is read into its field.
  lemma SectionStep(tag: byte, body: seq<byte>, rest: seq<byte>, s: PowSubmit, next: PowSubmit)
    requires tag != END && ReadSection(tag, body + rest, s) == Ok(Read(next, rest))
    ensures ReadSections(([tag] + body) + rest, s) == ReadSections(rest, next)
  {
    TagRead(tag, body, rest);
    SectionsUnfold(([tag] + body) + rest, tag, body + rest, s, next, rest);
  }

  lemma SectionsUnfold(b: seq<byte>, tag: byte, mid: seq<byte>, s: PowSubmit, next: PowSubmit, rest: seq<byte>)
    requires U8(b) == Ok(Read(tag, mid)) && tag != END && ReadSection(tag, mid, s) == Ok(Read(next, rest))
    ensures ReadSections(b, s) == ReadSections(rest, next)
  {
  }

  lemma HashingWritten(s: PowSubmit, from: PowSubmit, rest: seq<byte>)
    requires from.blake2b.None? && from.timeOnWire.None? && (s.timeOnWire.Some? ==> s.blake2b.Some?)
    ensures ReadSections(WriteHashing(s) + rest, from)
            == ReadSections(rest, from.(blake2b := s.blake2b, timeOnWire := s.timeOnWire))
  {
    if s.blake2b.None? {
      assert [] + rest == rest;
      assert from == from.(blake2b := None, timeOnWire := None);
    } else {
      var x := s.blake2b.value;
      var tail := WriteTime(s) + rest;
      assert WriteHashing(s) + rest == ([0x03] + WriteBlake2b(x)) + tail;
      Blake2bWritten(x, tail);
      var mid := from.(blake2b := s.blake2b);
      SectionStep(0x03, WriteBlake2b(x), tail, from, mid);
      TimeWritten(s, mid, rest);
    }
  }

  lemma TimeWritten(s: PowSubmit, from: PowSubmit, rest: seq<byte>)
    requires from.timeOnWire.None?
    ensures ReadSections(WriteTime(s) + rest, from) == ReadSections(rest, from.(timeOnWire := s.timeOnWire))
  {
    match s.timeOnWire {
      case None => assert [] + rest == rest && from == from.(timeOnWire := None);
      case Some(t) =>
        U32Written(t, rest);
        SectionStep(0x04, ToLe(t, 4), rest, from, from.(timeOnWire := s.timeOnWire));
    }
  }

  lemma JobPartWritten(s: PowSubmit, from: PowSubmit, rest: seq<byte>)
    requires from.job.None? && (s.job.Some? ==> |s.job.value.merkleBranches| <= 0xFF)
    ensures ReadSections(WriteJobPart(s) + rest, from) == ReadSections(rest, from.(job := s.job))
  {
    match s.job {
      case None => assert [] + rest == rest && from == from.(job := None);
      case Some(j) =>
        JobWritten(j, rest);
        SectionStep(0x01, WriteJob(j), rest, from, from.(job := s.job));
    }
  }

  lemma CoinbasePartWritten(s: PowSubmit, from: PowSubmit, rest: seq<byte>)
    requires from.coinbase.None?
    requires s.coinbase.Some? ==> |s.coinbase.value.coinb1| <= U16_MAX && |s.coinbase.value.coinb2| <= U16_MAX
    ensures ReadSections(WriteCoinbasePart(s) + rest, from) == ReadSections(rest, from.(coinbase := s.coinbase))
  {
    match s.coinbase {
      case None => assert [] + rest == rest && from == from.(coinbase := None);
      case Some(x) =>
        CoinbaseWritten(x, rest);
        SectionStep(0x02, WriteCoinbase(x), rest, from, from.(coinbase := s.coinbase));
    }
  }

  lemma EndWritten(padding: seq<byte>, s: PowSubmit)
    ensures ReadSections([END] + padding, s) == Ok(s)
  {
    U8Written(END, padding);
  }

  function Sections(s: PowSubmit, padding: seq<byte>): seq<byte> {
    WriteHashing(s) + (WriteJobPart(s) + (WriteCoinbasePart(s) + ([END] + padding)))
  }

  lemma SectionsWritten(s: PowSubmit, padding: seq<byte>)
    requires WellFormed(s)
    ensures ReadSections(Sections(s, padding), Plain(s)) == Ok(s)
  {
    var t4 := [END] + padding;
    var t3 := WriteCoinbasePart(s) + t4;
    var t2 := WriteJobPart(s) + t3;
    HashingWritten(s, Plain(s), t2);
    var s1 := Plain(s).(blake2b := s.blake2b, timeOnWire := s.timeOnWire);
    JobPartWritten(s, s1, t3);
    var s2 := s1.(job := s.job);
    CoinbasePartWritten(s, s2, t4);
    EndWritten(padding, s);
  }

  // Every well-formed share is parsed back exactly, whatever padding follows it.
  lemma ParseEncode(s: PowSubmit, padding: seq<byte>)
    requires WellFormed(s)
    ensures ParseClient(Encode(s) + padding) == Ok(Pow(s))
  {
    SixNested([SUB_POW], WritePlain(s), WriteHashing(s), WriteJobPart(s), WriteCoinbasePart(s), [END], padding);
    PlainWritten(s, Sections(s, padding));
    SectionsWritten(s, padding);
    PowBody(WritePlain(s) + Sections(s, padding), s);
  }

  lemma PowBody(body: seq<byte>, s: PowSubmit)
    requires Decode(body) == Ok(s)
    ensures ParseClient([SUB_POW] + body) == Ok(Pow(s))
  {
    assert ([SUB_POW] + body)[1..] == body;
  }

  // Of any other share the name arrives cut to 384 bytes, and the wire time only with a
  // BLAKE2b section; everything else arrives as it was.
  lemma ParseEncodeCut(s: PowSubmit, padding: seq<byte>)
    requires NulFree(s.username[..Min(|s.username|, 384)])
    requires s.job.Some? ==> |s.job.value.merkleBranches| <= 0xFF
    requires s.coinbase.Some? ==> |s.coinbase.value.coinb1| <= U16_MAX && |s.coinbase.value.coinb2| <= U16_MAX
    ensures ParseClient(Encode(s) + padding) ==
            Ok(Pow(s.(username := s.username[..Min(|s.username|, 384)],
                      timeOnWire := if s.blake2b.Some? then s.timeOnWire else None)))
  {
    var name := s.username[..Min(|s.username|, 384)];
    var cut := s.(username := name, timeOnWire := if s.blake2b.Some? then s.timeOnWire else None);
    assert name[..Min(|name|, 384)] == name;
    assert Encode(cut) == Encode(s);
    ParseEncode(cut, padding);
  }

  // Where the fields of a share are.
  lemma ShareBytes(s: PowSubmit)
    ensures var b, n := Encode(s), Min(|s.username|, 384);
            && |b| >= 36 + n
            && b[0] == 0x27 && b[1] == s.jobId && b[2] == s.coinbaseId && b[3] == s.flags && b[4] == s.targetPot
            && FromLe(b[5..9]) == s.ntime32 && FromLe(b[9..13]) == s.nonce32 && FromLe(b[13..17]) == s.version
            && b[17] == 12 && b[18..30] == s.extranonce
            && b[30..30 + n] == s.username[..n] && b[30 + n] == 0 && b[31 + n..35 + n] == s.reserved
            && b[|b| - 1] == 0xFE
  {
    var n := Min(|s.username|, 384);
    var tail := WriteHashing(s) + (WriteJobPart(s) + (WriteCoinbasePart(s) + [END]));
    PlainParts([SUB_POW, s.jobId, s.coinbaseId, s.flags, s.targetPot], ToLe(s.ntime32, 4), ToLe(s.nonce32, 4),
               ToLe(s.version, 4), [EXTRANONCE_LEN], s.extranonce, s.username[..n], s.reserved, tail);
    PlainJoined(s, tail);
    U32RoundTrip(s.ntime32);
    U32RoundTrip(s.nonce32);
    U32RoundTrip(s.version);
  }

  lemma PlainJoined(s: PowSubmit, tail: seq<byte>)
    ensures [SUB_POW] + (WritePlain(s) + tail) ==
            [SUB_POW, s.jobId, s.coinbaseId, s.flags, s.targetPot] + ToLe(s.ntime32, 4) + ToLe(s.nonce32, 4)
            + ToLe(s.version, 4) + [EXTRANONCE_LEN] + s.extranonce + s.username[..Min(|s.username|, MAX_USERNAME)] + [0]
            + s.reserved + tail
  {
  }

  lemma PlainParts(a: seq<byte>, b: seq<byte>, c: seq<byte>, d: seq<byte>, e: seq<byte>, f: seq<byte>, g: seq<byte>,
                   h: seq<byte>, tail: seq<byte>)
    requires |a| == 5 && |b| == 4 && |c| == 4 && |d| == 4 && |e| == 1 && |f| == 12 && |h| == 4
    ensures var v, n := a + b + c + d + e + f + g + [0] + h + tail, |g|;
            && |v| == 35 + n + |tail|
            && v[..5] == a && v[5..9] == b && v[9..13] == c && v[13..17] == d && v[17] == e[0] && v[18..30] == f
            && v[30..30 + n] == g && v[30 + n] == 0 && v[31 + n..35 + n] == h
            && (tail != [] ==> v[|v| - 1] == tail[|tail| - 1])
  {
  }

  // Each section under its tag: the hashing section names its algorithm, and the wire time
  // follows it.
  lemma SectionBytes(s: PowSubmit)
    ensures WriteHashing(s) ==
            match s.blake2b
            case None => []
            case Some(x) =>
              [3, 1] + x.ntime + x.nonce + if s.timeOnWire.Some? then [4] + ToLe(s.timeOnWire.value, 4) else []
    ensures s.job.Some? ==>
              |WriteJobPart(s)| > 33 && WriteJobPart(s)[0] == 1 && WriteJobPart(s)[1..33] == s.job.value.prevHash
    ensures s.coinbase.Some? ==>
              |WriteCoinbasePart(s)| >= 6 && WriteCoinbasePart(s)[..2] == [2, s.coinbase.value.coinbaseId]
  {
    if s.job.Some? {
      JobFront([0x01], s.job.value.prevHash, WriteJob(s.job.value)[32..]);
    }
  }

  lemma JobFront(tag: seq<byte>, prevHash: Hash, rest: seq<byte>)
    requires |tag| == 1
    ensures (tag + (prevHash + rest))[1..33] == prevHash
  {
  }

  // What the first byte of a message makes of the rest.
  lemma ClientBytes(payload: seq<byte>)
    ensures payload == [] ==> ParseClient(payload) == Err(Short)
    ensures payload != [] && payload[0] == 0x50 ==> ParseClient(payload) == Ok(JobValidation(payload[1..]))
    ensures payload != [] && payload[0] != 0x10 && payload[0] != 0x27 && payload[0] != 0x50 ==>
              ParseClient(payload) == Ok(Unknown(payload[0]))
    ensures payload != [] && payload[0] == 0x10 ==>
              var r := ParseClient(payload);
              if |payload| < 42 then r == Err(Short)
              else if payload[41] != 0xFE then r == Err(Malformed("coinbaser request"))
              else r.Ok? && r.value.CoinbaserRequest? && r.value.value == FromLe(payload[1..9])
                   && r.value.prevHash == payload[9..41]
  {
    if |payload| >= 42 {
      var body := payload[1..];
      assert body[..8] == payload[1..9] && body[8..][..32] == payload[9..41];
      var end := body[8..][32..];
      assert end == payload[41..];
      U8Written(payload[41], end[1..]);
      assert [payload[41]] + end[1..] == end;
    }
  }

  // ---- the programs -------------------------------------------------------------------

  method EncodeProgram(s: PowSubmit) returns (m: seq<byte>)
    ensures m == Encode(s)
  {
    m := [SUB_POW] + WritePlain(s);
    m := PushHashing(m, s);
    m := PushJob(m, s);
    m := PushCoinbase(m, s);
    m := m + [END];
    FiveJoined([SUB_POW], WritePlain(s), WriteHashing(s), WriteJobPart(s), WriteCoinbasePart(s), [END]);
  }

  method PushHashing(m: seq<byte>, s: PowSubmit) returns (r: seq<byte>)
    ensures r == m + WriteHashing(s)
  {
    r := m;
    if s.blake2b.Some? {
      r := r + ([0x03] + WriteBlake2b(s.blake2b.value));
      if s.timeOnWire.Some? {
        r := r + ([0x04] + ToLe(s.timeOnWire.value, 4));
      }
    }
  }

  method PushCoinbase(m: seq<byte>, s: PowSubmit) returns (r: seq<byte>)
    ensures r == m + WriteCoinbasePart(s)
  {
    r := m;
    if s.coinbase.Some? {
      r := r + ([0x02] + WriteCoinbase(s.coinbase.value));
    }
  }

  lemma FiveJoined(a: seq<byte>, b: seq<byte>, c: seq<byte>, d: seq<byte>, e: seq<byte>, f: seq<byte>)
    ensures (a + b) + c + d + e + f == a + (b + (c + (d + (e + f))))
  {
  }

  function JobBytes(j: JobSection, branches: seq<byte>): (r: seq<byte>)
    ensures branches == WriteBranches(j.merkleBranches) ==> r == WriteJob(j)
  {
    WriteJobHead(j) + (WriteJobSizes(j) + branches)
  }

  method PushJob(m: seq<byte>, s: PowSubmit) returns (r: seq<byte>)
    ensures r == m + WriteJobPart(s)
  {
    r := m;
    if s.job.Some? {
      var j := s.job.value;
      var branches := WriteEach(j.merkleBranches, WriteHash);
      r := r + ([0x01] + JobBytes(j, [|j.merkleBranches| % 0x100] + branches));
    }
  }

  method ReadJobHeadProgram(c: Cursor) returns (r: Result<JobHead, Error>)
    requires c.Valid()
    modifies c
    ensures c.Got(r, ReadJobHead(old(c.Rest())))
  {
    var prevHash :- c.TakeBytes(32);
    var index :- c.TakeU16();
    var nbits :- c.TakeBytes(4);
    var id :- c.TakeU8();
    var height :- c.TakeU32();
    return Ok(JobHead(prevHash, index, nbits, id, height));
  }

  method ReadJobSizesProgram(c: Cursor) returns (r: Result<JobSizes, Error>)
    requires c.Valid()
    modifies c
    ensures c.Got(r, ReadJobSizes(old(c.Rest())))
  {
    var value :- c.TakeU64();
    var count :- c.TakeU32();
    var weight :- c.TakeU32();
    var size :- c.TakeU32();
    var sigops :- c.TakeU32();
    return Ok(JobSizes(value, count, weight, size, sigops));
  }

  method ReadNextBranch(c: Cursor, done: seq<Hash>, ghost n: nat) returns (r: Result<seq<Hash>, Error>)
    requires c.Valid()
    modifies c
    ensures c.Valid()
    ensures Behind(done, ReadMany(old(c.Rest()), n + 1, ReadHash))
            == if r.Ok? then Behind(r.value, ReadMany(c.Rest(), n, ReadHash)) else Err(r.error)
  {
    ReadOneMore(done, c.Rest(), n, ReadHash);
    var h :- c.TakeBytes(32);
    return Ok(done + [h]);
  }

  method ReadBranchesProgram(c: Cursor) returns (r: Result<seq<Hash>, Error>)
    requires c.Valid()
    modifies c
    ensures c.Got(r, ReadBranches(old(c.Rest())))
  {
    var n :- c.TakeU8();
    ghost var spec := ReadMany(c.Rest(), n, ReadHash);
    var branches: seq<Hash> := [];
    BehindNothing(spec);
    for left := n downto 0
      invariant c.Valid() && Behind(branches, ReadMany(c.Rest(), left, ReadHash)) == spec
    {
      branches :- ReadNextBranch(c, branches, left);
    }
    BehindLast(branches, c.Rest(), ReadHash);
    return Ok(branches);
  }

  method ReadJobProgram(c: Cursor) returns (r: Result<JobSection, Error>)
    requires c.Valid()
    modifies c
    ensures c.Got(r, ReadJob(old(c.Rest())))
  {
    var head :- ReadJobHeadProgram(c);
    var sizes :- ReadJobSizesProgram(c);
    var branches :- ReadBranchesProgram(c);
    return Ok(JobOf(head, sizes, branches));
  }

  method ReadCoinbaseProgram(c: Cursor) returns (r: Result<CoinbaseSection, Error>)
    requires c.Valid()
    modifies c
    ensures c.Got(r, ReadCoinbase(old(c.Rest())))
  {
    var id :- c.TakeU8();
    var l1 :- c.TakeU16();
    var l2 :- c.TakeU16();
    var coinb1 :- c.TakeBytes(l1);
    var coinb2 :- c.TakeBytes(l2);
    return Ok(CoinbaseSection(id, coinb1, coinb2));
  }

  method ReadBlake2bProgram(c: Cursor) returns (r: Result<Blake2bSection, Error>)
    requires c.Valid()
    modifies c
    ensures c.Got(r, ReadBlake2b(old(c.Rest())))
  {
    var algo :- c.TakeU8();
    if algo != POW_ALGO_BLAKE2B {
      return Err(Malformed("pow algorithm"));
    }
    var ntime :- c.TakeBytes(8);
    var nonce :- c.TakeBytes(8);
    return Ok(Blake2bSection(ntime, nonce));
  }

  method ReadSectionProgram(c: Cursor, tag: byte, s: PowSubmit) returns (r: Result<PowSubmit, Error>)
    requires c.Valid()
    modifies c
    ensures c.Got(r, ReadSection(tag, old(c.Rest()), s))
  {
    if tag == 0x03 {
      var x :- ReadBlake2bProgram(c);
      return Ok(s.(blake2b := Some(x)));
    } else if tag == 0x04 {
      var x :- c.TakeU32();
      return Ok(s.(timeOnWire := Some(x)));
    } else if tag == 0x01 {
      var x :- ReadJobProgram(c);
      return Ok(s.(job := Some(x)));
    } else if tag == 0x02 {
      var x :- ReadCoinbaseProgram(c);
      return Ok(s.(coinbase := Some(x)));
    }
    return Err(Malformed("pow section"));
  }

  method ReadGrindProgram(c: Cursor) returns (r: Result<Grind, Error>)
    requires c.Valid()
    modifies c
    ensures c.Got(r, ReadGrind(old(c.Rest())))
  {
    var jobId :- c.TakeU8();
    var coinbaseId :- c.TakeU8();
    var flags :- c.TakeU8();
    var pot :- c.TakeU8();
    var ntime :- c.TakeU32();
    var nonce :- c.TakeU32();
    var version :- c.TakeU32();
    return Ok(Grind(jobId, coinbaseId, flags, pot, ntime, nonce, version));
  }

  method ReadPlainProgram(c: Cursor) returns (r: Result<PowSubmit, Error>)
    requires c.Valid()
    modifies c
    ensures c.Got(r, ReadPlain(old(c.Rest())))
  {
    var g :- ReadGrindProgram(c);
    var len :- c.TakeU8();
    if len != EXTRANONCE_LEN {
      return Err(Malformed("extranonce size"));
    }
    var extranonce :- c.TakeBytes(EXTRANONCE_LEN);
    var username :- c.TakeCStr(MAX_USERNAME);
    var reserved :- c.TakeBytes(4);
    return Ok(PowSubmit(g.jobId, g.coinbaseId, g.flags, g.targetPot, g.ntime32, g.nonce32, g.version, extranonce,
                        username, reserved, None, None, None, None));
  }

  // Whatever the bytes, decoding ends, and never reads behind them.
  method DecodeProgram(body: seq<byte>) returns (r: Result<PowSubmit, Error>)
    ensures r == Decode(body)
  {
    var c := new Cursor(body);
    var s :- ReadPlainProgram(c);
    while true
      invariant c.Valid() && Decode(body) == ReadSections(c.Rest(), s)
      decreases |c.Rest()|
    {
      ghost var before := c.Rest();
      var tag :- c.TakeU8();
      if tag == END {
        break;
      }
      s :- ReadSectionProgram(c, tag, s);
    }
    return Ok(s);
  }
}
