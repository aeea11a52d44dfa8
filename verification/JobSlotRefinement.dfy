// The caches of a job slot never change an answer, as long as the shares of one job agree
// on the two header fields the commitment cache does not key by.
module JobSlotRefinement {
  import opened Prelude
  import opened LittleEndian
  import opened Share
  import opened JobSlotModel
  import M = Merkle
  import P = CoinbasePolicy
  import T = Target

  // The wire time and the flags the shares of a job carry.
  datatype Stamp = Stamp(time: u32, flags: byte)

  predicate Stamped(stamps: JobSection -> Stamp, job: Option<JobSection>, s: PowSubmit) {
    job.Some? && s.timeOnWire.Some? ==> stamps(job.value) == Stamp(s.timeOnWire.value, FlagsOf(s))
  }

  // A cached coinbase is what rebuilding its section gives.
  ghost predicate CbEntryOk(slot: Slot, key: CbKey, legacy: Legacy) {
    && slot.job.Some? && key.id in slot.coinbases
    && Rebuild(slot.job.value, slot.coinbases[key.id], key.pot) == Ok(legacy)
  }

  // A cached H2 is the commitment of that coinbase under the job's stamp.
  ghost predicate H2EntryOk(c: Crypto, stamps: JobSection -> Stamp, slot: Slot, key: H2Key, h2: Hash) {
    && slot.job.Some? && key.id in slot.coinbases
    && var job := slot.job.value;
       var built := Rebuild(job, slot.coinbases[key.id], key.pot);
       built.Ok?
       && h2 == c.h2(FullCommitment(c, job, built.value, key.version, stamps(job).time, stamps(job).flags, key.txcount))
  }

  ghost predicate CachesOk(c: Crypto, stamps: JobSection -> Stamp, slot: Slot) {
    && (forall key :: key in slot.cbCache ==> CbEntryOk(slot, key, slot.cbCache[key]))
    && (forall key :: key in slot.h2Cache ==> H2EntryOk(c, stamps, slot, key, slot.h2Cache[key]))
  }

  // ---- changing the slot --------------------------------------------------------------

  function BareAbsorb(b: Bare, s: PowSubmit): (Bare, Result<Absorbed, Code>) {
    if TooLarge(s) then (b, Err(REJECT_COINBASE_TOO_LARGE))
    else
      var changed := StartsJob(b.job, s);
      var b' := if changed then Bare(s.job, map[], None) else b;
      match s.coinbase
      case Some(x) =>
        if !NewSection(b'.coinbases, x) then (b', Ok(Absorbed(changed, None)))
        else if NoRoom(b'.coinbases, x) then (b', Err(REJECT_BAD_COINBASE_ID))
        else (b'.(coinbases := b'.coinbases[x.coinbaseId := x]), Ok(Absorbed(changed, Some(x.coinbaseId))))
      case None => (b', Ok(Absorbed(changed, None)))
  }

  // A slot whose caches only lost entries, and none of whose remaining entries lost or
  // changed its section.
  ghost predicate Forgets(slot: Slot, after: Slot) {
    && after.job == slot.job
    && (forall key :: key in after.cbCache ==>
          && key in slot.cbCache && after.cbCache[key] == slot.cbCache[key]
          && SameSection(slot, after, key.id))
    && (forall key :: key in after.h2Cache ==>
          && key in slot.h2Cache && after.h2Cache[key] == slot.h2Cache[key]
          && SameSection(slot, after, key.id))
  }

  ghost predicate SameSection(slot: Slot, after: Slot, id: byte) {
    id in slot.coinbases ==> id in after.coinbases && after.coinbases[id] == slot.coinbases[id]
  }

  lemma ForgettingKeeps(c: Crypto, stamps: JobSection -> Stamp, slot: Slot, after: Slot)
    requires CachesOk(c, stamps, slot) && Forgets(slot, after)
    ensures CachesOk(c, stamps, after)
  {
    forall key | key in after.cbCache ensures CbEntryOk(after, key, after.cbCache[key]) {
      assert CbEntryOk(slot, key, slot.cbCache[key]);
    }
    forall key | key in after.h2Cache ensures H2EntryOk(c, stamps, after, key, after.h2Cache[key]) {
      assert H2EntryOk(c, stamps, slot, key, slot.h2Cache[key]);
    }
  }

  lemma WithSectionForgets(slot: Slot, x: CoinbaseSection)
    ensures Forgets(slot, WithSection(slot, x))
  {
  }

  lemma AbsorbRefines(c: Crypto, stamps: JobSection -> Stamp, slot: Slot, s: PowSubmit)
    requires CachesOk(c, stamps, slot)
    ensures var (slot', r) := AbsorbSlot(slot, s);
            CachesOk(c, stamps, slot') && (BareOf(slot'), r) == BareAbsorb(BareOf(slot), s)
  {
    var started := WithJob(slot, s);
    assert CachesOk(c, stamps, started);
    if s.coinbase.Some? {
      WithSectionForgets(started, s.coinbase.value);
      ForgettingKeeps(c, stamps, started, WithSection(started, s.coinbase.value));
    }
  }

  lemma ForgetRefines(c: Crypto, stamps: JobSection -> Stamp, slot: Slot, id: byte)
    requires CachesOk(c, stamps, slot)
    ensures CachesOk(c, stamps, ForgetSlot(slot, id)) && CachesOk(c, stamps, EvictSlot(slot))
  {
    ForgetForgets(slot, id);
    ForgettingKeeps(c, stamps, slot, ForgetSlot(slot, id));
  }

  lemma ForgetForgets(slot: Slot, id: byte)
    ensures Forgets(slot, ForgetSlot(slot, id))
  {
  }

  // ---- verifying ----------------------------------------------------------------------

  // The coinbase found, cached or not, is the one its section stands for.
  lemma LegacyRefines(c: Crypto, stamps: JobSection -> Stamp, slot: Slot, s: PowSubmit)
    requires CachesOk(c, stamps, slot) && slot.job.Some?
    ensures var (slot', found) := CachedLegacy(slot, s);
            && CachesOk(c, stamps, slot') && BareOf(slot') == BareOf(slot)
            && found == if CoinbaseIdFor(s) in slot.coinbases
                        then Rebuild(slot.job.value, slot.coinbases[CoinbaseIdFor(s)], s.targetPot)
                        else Err(REJECT_COINBASE_MISSING)
  {
    var key := CbKey(CoinbaseIdFor(s), s.targetPot);
    if key in slot.cbCache {
      assert CbEntryOk(slot, key, slot.cbCache[key]);
    } else {
      if CoinbaseIdFor(s) in slot.coinbases && CachedLegacy(slot, s).1.Ok? {
        RememberLegacyKeeps(c, stamps, slot, key, CachedLegacy(slot, s).1.value);
      }
    }
  }

  lemma RememberLegacyKeeps(c: Crypto, stamps: JobSection -> Stamp, slot: Slot, key: CbKey, legacy: Legacy)
    requires CachesOk(c, stamps, slot) && CbEntryOk(slot, key, legacy)
    ensures CachesOk(c, stamps, slot.(cbCache := Insert(slot.cbCache, key, legacy, MAX_CB_CACHE)))
  {
    var after := slot.(cbCache := Insert(slot.cbCache, key, legacy, MAX_CB_CACHE));
    forall k | k in after.cbCache ensures CbEntryOk(after, k, after.cbCache[k]) {
      if k != key {
        assert CbEntryOk(slot, k, slot.cbCache[k]);
      }
    }
    forall k | k in after.h2Cache ensures H2EntryOk(c, stamps, after, k, after.h2Cache[k]) {
      assert H2EntryOk(c, stamps, slot, k, slot.h2Cache[k]);
    }
  }

  // The share in hand and the coinbase rebuilt for it.
  ghost predicate Judging(c: Crypto, stamps: JobSection -> Stamp, slot: Slot, legacy: Legacy, s: PowSubmit) {
    && CachesOk(c, stamps, slot) && slot.job.Some? && s.timeOnWire.Some? && s.blake2b.Some?
    && Stamped(stamps, slot.job, s)
    && CoinbaseIdFor(s) in slot.coinbases
    && Rebuild(slot.job.value, slot.coinbases[CoinbaseIdFor(s)], s.targetPot) == Ok(legacy)
  }

  lemma HashRefines(c: Crypto, stamps: JobSection -> Stamp, slot: Slot, legacy: Legacy, s: PowSubmit, includes: bool)
    requires Judging(c, stamps, slot, legacy, s)
    ensures CachedHash(c, slot.h2Cache, slot.job.value, legacy, s, includes)
            == BareHash(c, slot.job.value, legacy, s, includes)
    ensures H2EntryOk(c, stamps, slot, H2KeyOf(slot.job.value, s, includes),
                      CachedH2(c, slot.h2Cache, slot.job.value, legacy, s, includes))
  {
    var key := H2KeyOf(slot.job.value, s, includes);
    if key in slot.h2Cache {
      assert H2EntryOk(c, stamps, slot, key, slot.h2Cache[key]);
    }
  }

  lemma {:induction false} FirstRefines(c: Crypto, stamps: JobSection -> Stamp, slot: Slot, legacy: Legacy, s: PowSubmit,
                                        tries: seq<bool>, limit: nat)
    requires Judging(c, stamps, slot, legacy, s)
    ensures FirstCached(c, slot.h2Cache, slot.job.value, legacy, s, tries, limit)
            == FirstMeeting(c, slot.job.value, legacy, s, tries, limit)
  {
    if tries != [] {
      HashRefines(c, stamps, slot, legacy, s, tries[0]);
      FirstRefines(c, stamps, slot, legacy, s, tries[1..], limit);
    }
  }

  lemma RememberKeeps(c: Crypto, stamps: JobSection -> Stamp, slot: Slot, key: H2Key, h2: Hash, pinned: Option<bool>)
    requires CachesOk(c, stamps, slot) && H2EntryOk(c, stamps, slot, key, h2)
    ensures CachesOk(c, stamps, slot.(h2Cache := Insert(slot.h2Cache, key, h2, MAX_H2_CACHE), includesCoinbase := pinned))
  {
    var after := slot.(h2Cache := Insert(slot.h2Cache, key, h2, MAX_H2_CACHE), includesCoinbase := pinned);
    forall k | k in after.h2Cache ensures H2EntryOk(c, stamps, after, k, after.h2Cache[k]) {
      if k != key {
        assert H2EntryOk(c, stamps, slot, k, slot.h2Cache[k]);
      }
    }
    forall k | k in after.cbCache ensures CbEntryOk(after, k, after.cbCache[k]) {
      assert CbEntryOk(slot, k, slot.cbCache[k]);
    }
  }

  lemma JudgeRefines(c: Crypto, stamps: JobSection -> Stamp, slot: Slot, legacy: Legacy, s: PowSubmit, p: Policy, limit: nat)
    requires Judging(c, stamps, slot, legacy, s)
    ensures var (slot', r) := CachedJudge(c, slot, legacy, s, p, limit);
            CachesOk(c, stamps, slot') && (BareOf(slot'), r) == BareJudge(c, BareOf(slot), legacy, s, p, limit)
  {
    var job, tries := slot.job.value, Conventions(slot.includesCoinbase);
    FirstRefines(c, stamps, slot, legacy, s, tries, limit);
    var chosen := FirstCached(c, slot.h2Cache, job, legacy, s, tries, limit);
    if chosen.Some? {
      HashRefines(c, stamps, slot, legacy, s, chosen.value);
      RememberKeeps(c, stamps, slot, H2KeyOf(job, s, chosen.value),
                    CachedH2(c, slot.h2Cache, job, legacy, s, chosen.value), chosen);
    }
  }

  // Verification through the caches answers what verification without them answers, in
  // every field of the share, and leaves the same slot behind.
  lemma VerifyRefines(c: Crypto, stamps: JobSection -> Stamp, slot: Slot, s: PowSubmit, p: Policy, limit: nat)
    requires CachesOk(c, stamps, slot) && Stamped(stamps, slot.job, s)
    ensures var (slot', r) := CachedVerify(c, slot, s, p, limit);
            CachesOk(c, stamps, slot') && (BareOf(slot'), r) == BareVerify(c, BareOf(slot), s, p, limit)
  {
    if Missing(slot.job, s).None? {
      LegacyRefines(c, stamps, slot, s);
      var (slot', found) := CachedLegacy(slot, s);
      if found.Ok? {
        JudgeRefines(c, stamps, slot', found.value, s, p, limit);
      }
    }
  }

  // ---- runs ---------------------------------------------------------------------------

  datatype Op =
    | AbsorbOp(s: PowSubmit)
    | ForgetOp(id: byte)
    | EvictOp
    | VerifyOp(s: PowSubmit, p: Policy, target: Hash)

  datatype Answer = Absorbing(a: Result<Absorbed, Code>) | Verifying(v: Verdict) | Done

  ghost function CachedStep(c: Crypto, slot: Slot, op: Op): (Slot, Answer) {
    match op
    case AbsorbOp(s) => var (slot', r) := AbsorbSlot(slot, s); (slot', Absorbing(r))
    case ForgetOp(id) => (ForgetSlot(slot, id), Done)
    case EvictOp => (EvictSlot(slot), Done)
    case VerifyOp(s, p, target) => var (slot', r) := CachedVerify(c, slot, s, p, FromLe(target)); (slot', Verifying(r))
  }

  ghost function BareStep(c: Crypto, b: Bare, op: Op): (Bare, Answer) {
    match op
    case AbsorbOp(s) => var (b', r) := BareAbsorb(b, s); (b', Absorbing(r))
    case ForgetOp(id) => (b.(coinbases := b.coinbases - {id}), Done)
    case EvictOp => (b.(coinbases := map[]), Done)
    case VerifyOp(s, p, target) => var (b', r) := BareVerify(c, b, s, p, FromLe(target)); (b', Verifying(r))
  }

  ghost function CachedRun(c: Crypto, slot: Slot, ops: seq<Op>): seq<Answer>
    decreases |ops|
  {
    if ops == [] then []
    else var (slot', a) := CachedStep(c, slot, ops[0]); [a] + CachedRun(c, slot', ops[1..])
  }

  ghost function BareRun(c: Crypto, b: Bare, ops: seq<Op>): seq<Answer>
    decreases |ops|
  {
    if ops == [] then []
    else var (b', a) := BareStep(c, b, ops[0]); [a] + BareRun(c, b', ops[1..])
  }

  lemma RunUnfold(c: Crypto, slot: Slot, ops: seq<Op>)
    ensures ops != [] ==>
              CachedRun(c, slot, ops) == [CachedStep(c, slot, ops[0]).1] + CachedRun(c, CachedStep(c, slot, ops[0]).0, ops[1..])
  {
  }

  // Every share verified in the run carries the stamp of the job it is verified on.
  ghost predicate AllStamped(c: Crypto, stamps: JobSection -> Stamp, b: Bare, ops: seq<Op>)
    decreases |ops|
  {
    ops == [] ||
    (&& (ops[0].VerifyOp? ==> Stamped(stamps, b.job, ops[0].s))
     && AllStamped(c, stamps, BareStep(c, b, ops[0]).0, ops[1..]))
  }

  lemma StepRefines(c: Crypto, stamps: JobSection -> Stamp, slot: Slot, op: Op)
    requires CachesOk(c, stamps, slot) && (op.VerifyOp? ==> Stamped(stamps, slot.job, op.s))
    ensures var (slot', a) := CachedStep(c, slot, op);
            CachesOk(c, stamps, slot') && (BareOf(slot'), a) == BareStep(c, BareOf(slot), op)
  {
    match op {
      case AbsorbOp(s) => AbsorbRefines(c, stamps, slot, s);
      case ForgetOp(id) => ForgetRefines(c, stamps, slot, id);
      case EvictOp => ForgetRefines(c, stamps, slot, 0);
      case VerifyOp(s, p, target) => VerifyRefines(c, stamps, slot, s, p, FromLe(target));
    }
  }

  const EMPTY_SLOT := Slot(None, map[], map[], map[], None)

  lemma {:induction false} RunRefines(c: Crypto, stamps: JobSection -> Stamp, slot: Slot, ops: seq<Op>)
    requires CachesOk(c, stamps, slot) && AllStamped(c, stamps, BareOf(slot), ops)
    ensures CachedRun(c, slot, ops) == BareRun(c, BareOf(slot), ops)
    decreases |ops|
  {
    if ops != [] {
      StepRefines(c, stamps, slot, ops[0]);
      RunRefines(c, stamps, CachedStep(c, slot, ops[0]).0, ops[1..]);
    }
  }

  // After any sequence of operations on a fresh slot, the answers are those of a verifier
  // that holds only the job, its sections and the pinned convention.
  lemma CachesAreInvisible(c: Crypto, stamps: JobSection -> Stamp, ops: seq<Op>)
    requires AllStamped(c, stamps, BareOf(EMPTY_SLOT), ops)
    ensures CachedRun(c, EMPTY_SLOT, ops) == BareRun(c, BareOf(EMPTY_SLOT), ops)
  {
    RunRefines(c, stamps, EMPTY_SLOT, ops);
  }

  // ---- why the shares of a job must agree ---------------------------------------------

  // Two shares the commitment cache cannot tell apart.
  predicate SameKey(s1: PowSubmit, s2: PowSubmit) {
    CoinbaseIdFor(s1) == CoinbaseIdFor(s2) && s1.targetPot == s2.targetPot && s1.version == s2.version
  }

  predicate SameStamp(s1: PowSubmit, s2: PowSubmit) {
    s1.timeOnWire == s2.timeOnWire && FlagsOf(s1) == FlagsOf(s2)
  }

  lemma OneTry(c: Crypto, cache: map<H2Key, Hash>, job: JobSection, legacy: Legacy, s: PowSubmit, b: bool, limit: nat)
    requires s.timeOnWire.Some? && s.blake2b.Some?
    ensures FirstMeeting(c, job, legacy, s, [b], limit)
            == if Meets(BareHash(c, job, legacy, s, b), limit) then Some(b) else None
    ensures FirstCached(c, cache, job, legacy, s, [b], limit)
            == if Meets(CachedHash(c, cache, job, legacy, s, b), limit) then Some(b) else None
  {
    assert [b][1..] == [];
    assert FirstMeeting(c, job, legacy, s, [], limit).None?;
  }

  lemma {:induction false} CachedIsFirst(c: Crypto, cache: map<H2Key, Hash>, job: JobSection, legacy: Legacy, s: PowSubmit,
                                         tries: seq<bool>, limit: nat)
    requires s.timeOnWire.Some? && s.blake2b.Some?
    ensures FirstCached(c, cache, job, legacy, s, tries, limit).Some? ==>
              var b := FirstCached(c, cache, job, legacy, s, tries, limit).value;
              b in tries && Meets(CachedHash(c, cache, job, legacy, s, b), limit)
  {
    if tries != [] {
      CachedIsFirst(c, cache, job, legacy, s, tries[1..], limit);
    }
  }

  // What the slot remembers once a share was accepted, whatever its caches held before.
  lemma Remembered(c: Crypto, slot: Slot, s1: PowSubmit, p: Policy, limit: nat)
    requires CachedVerify(c, slot, s1, p, limit).1.Ok?
    ensures s1.timeOnWire.Some? && s1.blake2b.Some?
    ensures var (slot1, r1) := CachedVerify(c, slot, s1, p, limit);
            && slot1.job == slot.job && slot.job.Some? && slot1.includesCoinbase.Some?
            && (var key := H2KeyOf(slot.job.value, s1, slot1.includesCoinbase.value);
                && key in slot1.h2Cache
                && r1.value.hash == WorkHash(c, slot.job.value, slot1.h2Cache[key], s1) && Meets(r1.value.hash, limit))
            && CbKey(CoinbaseIdFor(s1), s1.targetPot) in slot1.cbCache
            && slot1.cbCache[CbKey(CoinbaseIdFor(s1), s1.targetPot)] == r1.value.legacy
            && Refusal(r1.value.legacy, s1, p).None?
  {
    var (found, legacy) := CachedLegacy(slot, s1);
    CachedIsFirst(c, found.h2Cache, slot.job.value, legacy.value, s1, Conventions(found.includesCoinbase), limit);
  }

  // A second share under the same key is judged by the first one's commitment: its hash is
  // computed from the remembered H2, and its own time and flags only appear in the report.
  lemma SecondShare(c: Crypto, slot: Slot, s1: PowSubmit, s2: PowSubmit, p: Policy, limit: nat)
    requires CachedVerify(c, slot, s1, p, limit).1.Ok? && SameKey(s1, s2)
    requires s2.timeOnWire.Some? && s2.blake2b.Some?
    requires Refusal(CachedVerify(c, slot, s1, p, limit).1.value.legacy, s2, p).None?
    ensures var (slot1, r1) := CachedVerify(c, slot, s1, p, limit);
            && slot.job.Some? && slot1.includesCoinbase.Some?
            && var job, includes := slot.job.value, slot1.includesCoinbase.value;
               var key := H2KeyOf(job, s1, includes);
               && key in slot1.h2Cache
               && var hash := WorkHash(c, job, slot1.h2Cache[key], s2);
                  CachedVerify(c, slot1, s2, p, limit).1
                  == if Meets(hash, limit) then Ok(ShareOf(c, job, r1.value.legacy, s2, p, includes, hash))
                     else Err(REJECT_HIGH_HASH)
  {
    Remembered(c, slot, s1, p, limit);
    var (slot1, r1) := CachedVerify(c, slot, s1, p, limit);
    var job, includes := slot.job.value, slot1.includesCoinbase.value;
    OneTry(c, slot1.h2Cache, job, r1.value.legacy, s2, includes, limit);
  }

  // The same work sent again under another wire time, or with the time-offset flag turned,
  // is accepted with the same hash, and its report commits to a time and flags the miner
  // never hashed.
  lemma StaleCommitment(c: Crypto, slot: Slot, s1: PowSubmit, time: u32, reserved: Bytes4, p: Policy, limit: nat)
    requires CachedVerify(c, slot, s1, p, limit).1.Ok?
    requires s1.blake2b.Some? ==>
               !BadTime(ShareNtime(time, s1.blake2b.value.ntime, FlagsOf(s1.(reserved := reserved))), p.now)
    ensures var (slot1, r1) := CachedVerify(c, slot, s1, p, limit);
            var s2 := s1.(timeOnWire := Some(time), reserved := reserved);
            var r2 := CachedVerify(c, slot1, s2, p, limit).1;
            && r2.Ok? && r2.value.hash == r1.value.hash
            && r2.value.commitment == r1.value.commitment.(timeOnWire := time, flags := FlagsOf(s2))
  {
    Remembered(c, slot, s1, p, limit);
    SecondShare(c, slot, s1, s1.(timeOnWire := Some(time), reserved := reserved), p, limit);
  }

  // Hashes under which only the first share's time and flags are good work.
  function OnlyGood(time: u32, flags: byte): Crypto {
    Crypto(_ => Zeros(32),
           (m: Commitment) => if m.timeOnWire == time && m.flags == flags then Zeros(32) else AllOnes(),
           (prev: Hash, h2: Hash, extranonce: Bytes12, nonce: Bytes8, ntime: Bytes8) => h2)
  }

  function AllOnes(): Hash { seq(32, _ => 0xFF) }

  lemma Extremes(limit: nat)
    requires limit < Pow256(32) - 1
    ensures Meets(Zeros(32), limit) && !Meets(AllOnes(), limit)
  {
    FromLeZeros(32);
    T.FromLeOnes(AllOnes());
  }

  // Both shares have everything a share needs but work.
  ghost predicate Presentable(slot: Slot, legacy: Legacy, s: PowSubmit, p: Policy) {
    && Missing(slot.job, s).None?
    && CoinbaseIdFor(s) in slot.coinbases
    && Rebuild(slot.job.value, slot.coinbases[CoinbaseIdFor(s)], s.targetPot) == Ok(legacy)
    && Refusal(legacy, s, p).None?
  }

  lemma FirstIsGood(slot: Slot, legacy: Legacy, s1: PowSubmit, p: Policy, limit: nat)
    requires slot.h2Cache == map[] && slot.cbCache == map[] && Presentable(slot, legacy, s1, p)
    requires limit < Pow256(32) - 1
    ensures var c := OnlyGood(s1.timeOnWire.value, FlagsOf(s1));
            var (slot1, r1) := CachedVerify(c, slot, s1, p, limit);
            && r1.Ok? && r1.value.legacy == legacy && slot1.includesCoinbase.Some?
            && slot1.h2Cache == map[H2KeyOf(slot.job.value, s1, slot1.includesCoinbase.value) := Zeros(32)]
            && BareOf(slot1) == BareOf(slot).(includesCoinbase := slot1.includesCoinbase)
  {
    var c := OnlyGood(s1.timeOnWire.value, FlagsOf(s1));
    Extremes(limit);
    var first := Conventions(slot.includesCoinbase)[0];
    assert CachedHash(c, map[], slot.job.value, legacy, s1, first) == Zeros(32);
  }

  lemma SecondIsBad(c: Crypto, b: Bare, legacy: Legacy, s2: PowSubmit, p: Policy, limit: nat, time: u32, flags: byte)
    requires c == OnlyGood(time, flags) && limit < Pow256(32) - 1
    requires b.job.Some? && b.includesCoinbase.Some? && s2.timeOnWire.Some? && s2.blake2b.Some?
    requires s2.timeOnWire.value != time || FlagsOf(s2) != flags
    ensures BareJudge(c, b, legacy, s2, p, limit).1.Err?
  {
    Extremes(limit);
    OneTry(c, map[], b.job.value, legacy, s2, b.includesCoinbase.value, limit);
  }

  // Two shares of one job, section, target and version, on a slot without caches: the
  // cached and the cache-free answers are the same under every choice of hashes exactly
  // when the shares agree on wire time and flags.
  lemma TwoSharesAgree(slot: Slot, legacy: Legacy, s1: PowSubmit, s2: PowSubmit, p: Policy, target: Hash)
    requires slot.h2Cache == map[] && slot.cbCache == map[] && SameKey(s1, s2)
    requires Presentable(slot, legacy, s1, p) && Presentable(slot, legacy, s2, p)
    requires FromLe(target) < Pow256(32) - 1
    ensures (forall c: Crypto :: CachedRun(c, slot, TwoVerifies(s1, s2, p, target))
                                 == BareRun(c, BareOf(slot), TwoVerifies(s1, s2, p, target)))
            <==> SameStamp(s1, s2)
  {
    if SameStamp(s1, s2) {
      forall c: Crypto
        ensures CachedRun(c, slot, TwoVerifies(s1, s2, p, target)) == BareRun(c, BareOf(slot), TwoVerifies(s1, s2, p, target))
      {
        AgreeingSharesStamped(c, slot, s1, s2, p, target);
        RunRefines(c, _ => Stamp(s1.timeOnWire.value, FlagsOf(s1)), slot, TwoVerifies(s1, s2, p, target));
      }
    } else {
      DisagreeingSharesDiffer(slot, legacy, s1, s2, p, target);
    }
  }

  function TwoVerifies(s1: PowSubmit, s2: PowSubmit, p: Policy, target: Hash): seq<Op> {
    [VerifyOp(s1, p, target), VerifyOp(s2, p, target)]
  }

  lemma AgreeingSharesStamped(c: Crypto, slot: Slot, s1: PowSubmit, s2: PowSubmit, p: Policy, target: Hash)
    requires SameStamp(s1, s2) && s1.timeOnWire.Some?
    ensures AllStamped(c, _ => Stamp(s1.timeOnWire.value, FlagsOf(s1)), BareOf(slot), TwoVerifies(s1, s2, p, target))
  {
    var ops := TwoVerifies(s1, s2, p, target);
    var stamps: JobSection -> Stamp := _ => Stamp(s1.timeOnWire.value, FlagsOf(s1));
    var b1 := BareStep(c, BareOf(slot), ops[0]).0;
    assert ops[1..][1..] == [];
    assert AllStamped(c, stamps, BareStep(c, b1, ops[1]).0, ops[1..][1..]);
    assert AllStamped(c, stamps, b1, ops[1..]);
  }

  lemma DisagreeingSharesDiffer(slot: Slot, legacy: Legacy, s1: PowSubmit, s2: PowSubmit, p: Policy, target: Hash)
    requires slot.h2Cache == map[] && slot.cbCache == map[] && SameKey(s1, s2) && !SameStamp(s1, s2)
    requires Presentable(slot, legacy, s1, p) && Presentable(slot, legacy, s2, p)
    requires FromLe(target) < Pow256(32) - 1
    ensures var c := OnlyGood(s1.timeOnWire.value, FlagsOf(s1));
            CachedRun(c, slot, TwoVerifies(s1, s2, p, target)) != BareRun(c, BareOf(slot), TwoVerifies(s1, s2, p, target))
  {
    var c, limit := OnlyGood(s1.timeOnWire.value, FlagsOf(s1)), FromLe(target);
    var (slot1, r1) := CachedVerify(c, slot, s1, p, limit);
    FirstIsGood(slot, legacy, s1, p, limit);
    SecondShare(c, slot, s1, s2, p, limit);
    Extremes(limit);
    assert CachedVerify(c, slot1, s2, p, limit).1.Ok?;
    EmptyCachesOk(c, slot, s1, p, limit);
    SecondIsBad(c, BareOf(slot1), legacy, s2, p, limit, s1.timeOnWire.value, FlagsOf(s1));
    assert BareVerify(c, BareOf(slot1), s2, p, limit).1.Err?;
    RunOfTwo(c, slot, s1, s2, p, target);
  }

  // From empty caches the first answer is the cache-free one.
  lemma EmptyCachesOk(c: Crypto, slot: Slot, s1: PowSubmit, p: Policy, limit: nat)
    requires slot.h2Cache == map[] && slot.cbCache == map[] && s1.timeOnWire.Some?
    ensures BareVerify(c, BareOf(slot), s1, p, limit).0 == BareOf(CachedVerify(c, slot, s1, p, limit).0)
  {
    VerifyRefines(c, _ => Stamp(s1.timeOnWire.value, FlagsOf(s1)), slot, s1, p, limit);
  }

  lemma RunOfTwo(c: Crypto, slot: Slot, s1: PowSubmit, s2: PowSubmit, p: Policy, target: Hash)
    ensures var limit := FromLe(target);
            && |CachedRun(c, slot, TwoVerifies(s1, s2, p, target))| == 2
            && |BareRun(c, BareOf(slot), TwoVerifies(s1, s2, p, target))| == 2
            && CachedRun(c, slot, TwoVerifies(s1, s2, p, target))[1]
               == Verifying(CachedVerify(c, CachedVerify(c, slot, s1, p, limit).0, s2, p, limit).1)
            && BareRun(c, BareOf(slot), TwoVerifies(s1, s2, p, target))[1]
               == Verifying(BareVerify(c, BareVerify(c, BareOf(slot), s1, p, limit).0, s2, p, limit).1)
  {
    var ops, limit := TwoVerifies(s1, s2, p, target), FromLe(target);
    assert ops[1..] == [VerifyOp(s2, p, target)];
    RunOfOne(c, CachedVerify(c, slot, s1, p, limit).0, BareVerify(c, BareOf(slot), s1, p, limit).0, ops[1]);
  }

  lemma RunOfOne(c: Crypto, slot: Slot, b: Bare, op: Op)
    ensures CachedRun(c, slot, [op]) == [CachedStep(c, slot, op).1]
    ensures BareRun(c, b, [op]) == [BareStep(c, b, op).1]
  {
    assert [op][1..] == [];
    assert CachedRun(c, CachedStep(c, slot, op).0, []) == [] && BareRun(c, BareStep(c, b, op).0, []) == [];
  }

  // ---- what an accepted share proves --------------------------------------------------

  lemma {:induction false} MeetingIsFirst(c: Crypto, job: JobSection, legacy: Legacy, s: PowSubmit, tries: seq<bool>, limit: nat)
    requires s.timeOnWire.Some? && s.blake2b.Some?
    ensures FirstMeeting(c, job, legacy, s, tries, limit).Some? ==>
              var b := FirstMeeting(c, job, legacy, s, tries, limit).value;
              b in tries && Meets(BareHash(c, job, legacy, s, b), limit)
  {
    if tries != [] {
      MeetingIsFirst(c, job, legacy, s, tries[1..], limit);
    }
  }

  // An accepted share's hash is that of the reported commitment and meets the target; the
  // commitment is to the job's block, with the merkle root of the whole transaction tree
  // when the branches are the tree's; the coinbase is not foreign; and the transaction
  // count is read the one way that is pinned from then on.
  lemma AcceptedShareMeans(c: Crypto, b: Bare, s: PowSubmit, p: Policy, limit: nat, txids: seq<Hash>)
    requires BareVerify(c, b, s, p, limit).1.Ok?
    ensures b.job.Some? && s.blake2b.Some? && s.timeOnWire.Some?
    ensures var (b', r) := BareVerify(c, b, s, p, limit);
            var v, job := r.value, b.job.value;
            && v.hash == WorkHash(c, job, c.h2(v.commitment), s) && Meets(v.hash, limit)
            && v.commitment.height == job.height == v.height && v.commitment.timeOnWire == s.timeOnWire.value
            && (v.legacy.parsed.height.Some? ==> v.legacy.parsed.height.value == job.height)
            && v.kind == P.Classify(v.legacy.parsed.outputs, p.pool, p.issued, p.tolerance) != P.Foreign
            && !BadTime(v.ntime, p.now)
            && b'.includesCoinbase.Some? && v.commitment.txcount == Txcount(job, b'.includesCoinbase.value)
            && (b.includesCoinbase.Some? ==> b'.includesCoinbase == b.includesCoinbase)
            && (job.merkleBranches == M.Branches(c.sha, txids) ==>
                  v.commitment.merkleRoot == M.TreeRoot(c.sha, [c.sha(v.legacy.bytes)] + txids))
  {
    var id, job := CoinbaseIdFor(s), b.job.value;
    var legacy := Rebuild(job, b.coinbases[id], s.targetPot).value;
    MeetingIsFirst(c, job, legacy, s, Conventions(b.includesCoinbase), limit);
    M.BranchesReachTheRoot(c.sha, c.sha(legacy.bytes), txids);
  }
}
