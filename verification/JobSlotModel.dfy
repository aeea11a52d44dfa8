// One job slot as values: what a share changes in it, and what verification answers,
// once as the program computes it, through its caches, and once without any cache.
module JobSlotModel {
  import opened Prelude
  import opened LittleEndian
  import opened Outputs
  import opened Share
  import opened CoinbaseTx
  import opened CoinbaseBuild
  import P = CoinbasePolicy
  import M = Merkle
  import T = Target

  type Code = u16

  const REJECT_BAD_JOB_ID: Code := 10
  const REJECT_BAD_COINBASE_ID: Code := 11
  const REJECT_BAD_TARGET: Code := 13
  const REJECT_COINBASE_TOO_LARGE: Code := 17
  const REJECT_COINBASE_MISSING: Code := 18
  const REJECT_HIGH_HASH: Code := 21
  const REJECT_BAD_NTIME: Code := 23
  const REJECT_BAD_VERSION: Code := 24
  const REJECT_BAD_COINBASE: Code := 26
  const REJECT_BAD_COINBASE_OUTPUTS: Code := 27

  const MAX_TIME_AHEAD := 7200
  const MAX_TIME_BEHIND := 3600
  const MAX_COINBASE_SECTION_BYTES := 20_000
  const MAX_COINBASES_PER_SLOT := 8
  const MAX_CB_CACHE := 32
  const MAX_H2_CACHE := 64
  const FLAG_USE_TIME_OFFSET: byte := 0x04

  // The header fields fixed by a job and a coinbase. XOR key, clear bits and right-hand
  // side are always zero on these jobs.
  datatype Commitment = Commitment(
    version: u32, prevHash: Hash, height: u32, merkleRoot: Hash, timeOnWire: u32, nbits: u32, txcount: u32, flags: byte)

  // The hashes: transaction ids and tree nodes, the commitment H2, and the work hash of
  // (previous block, H2, extranonce, nonce, ntime). Any functions will do.
  datatype Crypto = Crypto(
    sha: seq<byte> -> Hash, h2: Commitment -> Hash, work: (Hash, Hash, Bytes12, Bytes8, Bytes8) -> Hash)

  datatype Absorbed = Absorbed(jobChanged: bool, coinbaseAdded: Option<byte>)

  datatype CbKey = CbKey(id: byte, pot: byte)
  datatype H2Key = H2Key(id: byte, pot: byte, txcount: u32, version: u32)
  datatype Legacy = Legacy(bytes: seq<byte>, parsed: Coinbase)

  datatype Slot = Slot(
    job: Option<JobSection>, coinbases: map<byte, CoinbaseSection>, h2Cache: map<H2Key, Hash>,
    cbCache: map<CbKey, Legacy>, includesCoinbase: Option<bool>)

  // What is left of a slot without its caches.
  datatype Bare = Bare(job: Option<JobSection>, coinbases: map<byte, CoinbaseSection>, includesCoinbase: Option<bool>)

  function BareOf(slot: Slot): Bare { Bare(slot.job, slot.coinbases, slot.includesCoinbase) }

  datatype Policy = Policy(pool: Script, issued: Option<seq<Output>>, tolerance: u64, now: u32, minPot: byte)

  datatype VerifiedShare = VerifiedShare(
    hash: Hash, work: u64, targetPot: byte, height: u32, ntime: u32, isBlockCandidate: bool, kind: P.Kind,
    coinbaseValue: u64, paidToPool: u64, commitment: Commitment, legacy: Legacy)

  type Verdict = Result<VerifiedShare, Code>

  // ---- absorbing a share's sections ---------------------------------------------------

  function SectionBytes(c: CoinbaseSection): nat { |c.coinb1| + |c.coinb2| }

  function KeepH2(m: map<H2Key, Hash>, id: byte): map<H2Key, Hash> { map k | k in m && k.id != id :: m[k] }
  function KeepCb(m: map<CbKey, Legacy>, id: byte): map<CbKey, Legacy> { map k | k in m && k.id != id :: m[k] }

  predicate TooLarge(s: PowSubmit) {
    s.coinbase.Some? && SectionBytes(s.coinbase.value) > MAX_COINBASE_SECTION_BYTES
  }

  predicate StartsJob(job: Option<JobSection>, s: PowSubmit) { s.job.Some? && job != s.job }

  function WithJob(slot: Slot, s: PowSubmit): Slot {
    if StartsJob(slot.job, s) then Slot(s.job, map[], map[], map[], None) else slot
  }

  predicate NewSection(coinbases: map<byte, CoinbaseSection>, c: CoinbaseSection) {
    c.coinbaseId !in coinbases || coinbases[c.coinbaseId] != c
  }

  predicate NoRoom(coinbases: map<byte, CoinbaseSection>, c: CoinbaseSection) {
    c.coinbaseId !in coinbases && |coinbases| >= MAX_COINBASES_PER_SLOT
  }

  function WithSection(slot: Slot, c: CoinbaseSection): Slot {
    slot.(coinbases := slot.coinbases[c.coinbaseId := c], h2Cache := KeepH2(slot.h2Cache, c.coinbaseId),
          cbCache := KeepCb(slot.cbCache, c.coinbaseId))
  }

  function AbsorbSlot(slot: Slot, s: PowSubmit): (Slot, Result<Absorbed, Code>) {
    if TooLarge(s) then (slot, Err(REJECT_COINBASE_TOO_LARGE))
    else
      var changed, slot' := StartsJob(slot.job, s), WithJob(slot, s);
      match s.coinbase
      case Some(c) =>
        if !NewSection(slot'.coinbases, c) then (slot', Ok(Absorbed(changed, None)))
        else if NoRoom(slot'.coinbases, c) then (slot', Err(REJECT_BAD_COINBASE_ID))
        else (WithSection(slot', c), Ok(Absorbed(changed, Some(c.coinbaseId))))
      case None => (slot', Ok(Absorbed(changed, None)))
  }

  function ForgetSlot(slot: Slot, id: byte): Slot {
    slot.(coinbases := slot.coinbases - {id}, h2Cache := KeepH2(slot.h2Cache, id), cbCache := KeepCb(slot.cbCache, id))
  }

  function EvictSlot(slot: Slot): Slot {
    slot.(coinbases := map[], h2Cache := map[], cbCache := map[])
  }

  // Whenever a share is refused the slot is as it was, even if the share also carried a
  // new job: a slot that just changed job has room for any section.
  lemma AbsorbAtomic(slot: Slot, s: PowSubmit)
    ensures AbsorbSlot(slot, s).1.Err? ==> AbsorbSlot(slot, s).0 == slot
    ensures AbsorbSlot(slot, s).1.Err? <==>
              || TooLarge(s)
              || (s.coinbase.Some? && !StartsJob(slot.job, s) && NoRoom(slot.coinbases, s.coinbase.value))
    ensures AbsorbSlot(slot, s).1.Ok? && s.coinbase.Some? ==>
              s.coinbase.value.coinbaseId in AbsorbSlot(slot, s).0.coinbases
              && AbsorbSlot(slot, s).0.coinbases[s.coinbase.value.coinbaseId] == s.coinbase.value
  {
  }

  // ---- verification -------------------------------------------------------------------

  function CoinbaseIdFor(s: PowSubmit): byte { if s.SubsidyOnly() then 0xFF else s.coinbaseId }

  function FlagsOf(s: PowSubmit): byte { if s.UseTimeOffset() then FLAG_USE_TIME_OFFSET else 0 }

  function Txcount(job: JobSection, includes: bool): u32 {
    if includes then job.txnCount else (job.txnCount + 1) % (U32_MAX + 1)
  }

  function NbitsOf(job: JobSection): u32 {
    Widths();
    FromLeBounded(job.nbits);
    FromLe(job.nbits)
  }

  // The time a node reads from the header.
  function ShareNtime(timeOnWire: u32, ntime: Bytes8, flags: byte): u32 {
    if flags == 0 then timeOnWire else (timeOnWire + FromLe(ntime[..4])) % (U32_MAX + 1)
  }

  function SatAdd32(a: u32, b: u32): u32 { Min(a + b, U32_MAX) }

  predicate BadTime(ntime: u32, now: u32) {
    now != 0 && (ntime > SatAdd32(now, MAX_TIME_AHEAD) || SatAdd32(ntime, MAX_TIME_BEHIND) < now)
  }

  // The coinbase a section stands for under one target byte.
  function Rebuild(job: JobSection, sect: CoinbaseSection, pot: byte): Result<Legacy, Code> {
    var bytes := Assemble(sect.coinb1, sect.coinb2, job.targetByteIndex, pot);
    match Parse(bytes)
    case Err(_) => Err(REJECT_BAD_COINBASE)
    case Ok(parsed) =>
      if parsed.height.Some? && parsed.height.value != job.height then Err(REJECT_BAD_JOB_ID)
      else Ok(Legacy(bytes, parsed))
  }

  function RootOf(c: Crypto, job: JobSection, legacy: Legacy): Hash {
    M.Fold(c.sha, c.sha(legacy.bytes), job.merkleBranches)
  }

  function FullCommitment(c: Crypto, job: JobSection, legacy: Legacy, version: u32, time: u32, flags: byte, txcount: u32)
    : Commitment
  {
    Commitment(version, job.prevHash, job.height, RootOf(c, job, legacy), time, NbitsOf(job), txcount, flags)
  }

  function WorkHash(c: Crypto, job: JobSection, h2: Hash, s: PowSubmit): Hash
    requires s.blake2b.Some?
  {
    c.work(job.prevHash, h2, s.extranonce, s.blake2b.value.nonce, s.blake2b.value.ntime)
  }

  predicate Meets(hash: Hash, limit: nat) { FromLe(hash) <= limit }

  predicate BlockCandidate(hash: Hash, nbits: u32) {
    && !T.NbitsNegative(nbits) && T.NbitsMantissa(nbits) != 0 && T.NbitsExp(nbits) <= 32
    && FromLe(hash) <= T.CompactValue(T.NbitsExp(nbits), T.NbitsMantissa(nbits))
  }

  ghost function ShareOf(c: Crypto, job: JobSection, legacy: Legacy, s: PowSubmit, p: Policy, includes: bool, hash: Hash)
    : VerifiedShare
    requires s.timeOnWire.Some? && s.blake2b.Some?
  {
    var time, flags := s.timeOnWire.value, FlagsOf(s);
    VerifiedShare(
      hash, s.ClaimedWork(), s.targetPot, job.height, ShareNtime(time, s.blake2b.value.ntime, flags),
      BlockCandidate(hash, NbitsOf(job)), P.Classify(legacy.parsed.outputs, p.pool, p.issued, p.tolerance),
      P.TotalValue(legacy.parsed.outputs), P.PaidTo(legacy.parsed.outputs, p.pool),
      FullCommitment(c, job, legacy, s.version, time, flags, Txcount(job, includes)), legacy)
  }

  // The checks between the coinbase and the work.
  ghost function Refusal(legacy: Legacy, s: PowSubmit, p: Policy): Option<Code>
    requires s.timeOnWire.Some? && s.blake2b.Some?
  {
    if P.Classify(legacy.parsed.outputs, p.pool, p.issued, p.tolerance) == P.Foreign then Some(REJECT_BAD_COINBASE_OUTPUTS)
    else if BadTime(ShareNtime(s.timeOnWire.value, s.blake2b.value.ntime, FlagsOf(s)), p.now) then Some(REJECT_BAD_NTIME)
    else None
  }

  // Which sections a share must carry at all.
  function Missing(job: Option<JobSection>, s: PowSubmit): Option<Code> {
    if !s.IsBlake2b() || s.blake2b.None? then Some(REJECT_BAD_VERSION)
    else if s.timeOnWire.None? then Some(REJECT_BAD_NTIME)
    else if job.None? then Some(REJECT_BAD_JOB_ID)
    else None
  }

  // Both readings of the transaction count until one has verified, then only that one.
  function Conventions(pinned: Option<bool>): (r: seq<bool>)
    ensures r != []
  {
    match pinned case Some(b) => [b] case None => [false, true]
  }

  // ---- without caches -----------------------------------------------------------------

  function BareHash(c: Crypto, job: JobSection, legacy: Legacy, s: PowSubmit, includes: bool): Hash
    requires s.timeOnWire.Some? && s.blake2b.Some?
  {
    WorkHash(c, job, c.h2(FullCommitment(c, job, legacy, s.version, s.timeOnWire.value, FlagsOf(s), Txcount(job, includes))), s)
  }

  function FirstMeeting(c: Crypto, job: JobSection, legacy: Legacy, s: PowSubmit, tries: seq<bool>, limit: nat): (r: Option<bool>)
    requires s.timeOnWire.Some? && s.blake2b.Some?
  {
    if tries == [] then None
    else if Meets(BareHash(c, job, legacy, s, tries[0]), limit) then Some(tries[0])
    else FirstMeeting(c, job, legacy, s, tries[1..], limit)
  }

  ghost function BareJudge(c: Crypto, b: Bare, legacy: Legacy, s: PowSubmit, p: Policy, limit: nat): (Bare, Verdict)
    requires b.job.Some? && s.timeOnWire.Some? && s.blake2b.Some?
  {
    var job := b.job.value;
    match Refusal(legacy, s, p)
    case Some(code) => (b, Err(code))
    case None =>
      match FirstMeeting(c, job, legacy, s, Conventions(b.includesCoinbase), limit)
      case None => (b, Err(REJECT_HIGH_HASH))
      case Some(includes) =>
        (b.(includesCoinbase := Some(includes)),
         Ok(ShareOf(c, job, legacy, s, p, includes, BareHash(c, job, legacy, s, includes))))
  }

  ghost function BareVerify(c: Crypto, b: Bare, s: PowSubmit, p: Policy, limit: nat): (Bare, Verdict) {
    match Missing(b.job, s)
    case Some(code) => (b, Err(code))
    case None =>
      var id := CoinbaseIdFor(s);
      if id !in b.coinbases then (b, Err(REJECT_COINBASE_MISSING))
      else match Rebuild(b.job.value, b.coinbases[id], s.targetPot)
        case Err(code) => (b, Err(code))
        case Ok(legacy) => BareJudge(c, b, legacy, s, p, limit)
  }

  // ---- through the caches -------------------------------------------------------------

  function Insert<K, V>(m: map<K, V>, k: K, v: V, cap: nat): map<K, V> {
    (if |m| >= cap then map[] else m)[k := v]
  }

  function CachedLegacy(slot: Slot, s: PowSubmit): (r: (Slot, Result<Legacy, Code>))
    requires slot.job.Some?
    ensures r.0.job == slot.job && r.0.h2Cache == slot.h2Cache && r.0.includesCoinbase == slot.includesCoinbase
  {
    var id := CoinbaseIdFor(s);
    var key := CbKey(id, s.targetPot);
    if key in slot.cbCache then (slot, Ok(slot.cbCache[key]))
    else if id !in slot.coinbases then (slot, Err(REJECT_COINBASE_MISSING))
    else match Rebuild(slot.job.value, slot.coinbases[id], s.targetPot)
      case Err(code) => (slot, Err(code))
      case Ok(legacy) => (slot.(cbCache := Insert(slot.cbCache, key, legacy, MAX_CB_CACHE)), Ok(legacy))
  }

  function H2KeyOf(job: JobSection, s: PowSubmit, includes: bool): H2Key {
    H2Key(CoinbaseIdFor(s), s.targetPot, Txcount(job, includes), s.version)
  }

  function CachedH2(c: Crypto, cache: map<H2Key, Hash>, job: JobSection, legacy: Legacy, s: PowSubmit, includes: bool): Hash
    requires s.timeOnWire.Some?
  {
    var key := H2KeyOf(job, s, includes);
    if key in cache then cache[key]
    else c.h2(FullCommitment(c, job, legacy, s.version, s.timeOnWire.value, FlagsOf(s), Txcount(job, includes)))
  }

  function CachedHash(c: Crypto, cache: map<H2Key, Hash>, job: JobSection, legacy: Legacy, s: PowSubmit, includes: bool): Hash
    requires s.timeOnWire.Some? && s.blake2b.Some?
  {
    WorkHash(c, job, CachedH2(c, cache, job, legacy, s, includes), s)
  }

  function FirstCached(c: Crypto, cache: map<H2Key, Hash>, job: JobSection, legacy: Legacy, s: PowSubmit, tries: seq<bool>,
                       limit: nat): (r: Option<bool>)
    requires s.timeOnWire.Some? && s.blake2b.Some?
  {
    if tries == [] then None
    else if Meets(CachedHash(c, cache, job, legacy, s, tries[0]), limit) then Some(tries[0])
    else FirstCached(c, cache, job, legacy, s, tries[1..], limit)
  }

  ghost function CachedJudge(c: Crypto, slot: Slot, legacy: Legacy, s: PowSubmit, p: Policy, limit: nat): (Slot, Verdict)
    requires slot.job.Some? && s.timeOnWire.Some? && s.blake2b.Some?
  {
    var job := slot.job.value;
    match Refusal(legacy, s, p)
    case Some(code) => (slot, Err(code))
    case None =>
      match FirstCached(c, slot.h2Cache, job, legacy, s, Conventions(slot.includesCoinbase), limit)
      case None => (slot, Err(REJECT_HIGH_HASH))
      case Some(includes) =>
        var h2 := CachedH2(c, slot.h2Cache, job, legacy, s, includes);
        (slot.(h2Cache := Insert(slot.h2Cache, H2KeyOf(job, s, includes), h2, MAX_H2_CACHE),
               includesCoinbase := Some(includes)),
         Ok(ShareOf(c, job, legacy, s, p, includes, CachedHash(c, slot.h2Cache, job, legacy, s, includes))))
  }

  ghost function CachedVerify(c: Crypto, slot: Slot, s: PowSubmit, p: Policy, limit: nat): (Slot, Verdict) {
    match Missing(slot.job, s)
    case Some(code) => (slot, Err(code))
    case None =>
      var (slot', found) := CachedLegacy(slot, s);
      match found
      case Err(code) => (slot', Err(code))
      case Ok(legacy) => CachedJudge(c, slot', legacy, s, p, limit)
  }
}
