// The job slot object: sections, derived caches and the learned transaction-count
// convention, edited in place. Each method is tied to the value model.
module JobSlots {
  import opened Prelude
  import opened LittleEndian
  import opened Outputs
  import opened Share
  import opened CoinbaseTx
  import opened CoinbaseBuild
  import opened JobSlotModel
  import P = CoinbasePolicy
  import M = Merkle
  import T = Target
  import R = JobSlotRefinement

  // A commitment as the loop first makes it: without its merkle root when H2 was cached.
  function Hinted(c: Crypto, job: JobSection, legacy: Legacy, s: PowSubmit, includes: bool, hit: bool): Commitment
    requires s.timeOnWire.Some?
  {
    var full := FullCommitment(c, job, legacy, s.version, s.timeOnWire.value, FlagsOf(s), Txcount(job, includes));
    if hit then full.(merkleRoot := Zeros(32)) else full
  }

  // What the pool's own lists satisfy: short enough for the program's counter, and worth no
  // more than 64 bits.
  ghost predicate PolicyFits(p: Policy) {
    p.issued.Some? ==> |p.issued.value| <= U16_MAX && Sum(p.issued.value, P.SatsIn()) <= U64_MAX
  }

  class JobSlot {
    var job: Option<JobSection>
    var coinbases: map<byte, CoinbaseSection>
    var h2Cache: map<H2Key, Hash>
    var cbCache: map<CbKey, Legacy>
    var includesCoinbase: Option<bool>

    function Value(): Slot
      reads this
    {
      Slot(job, coinbases, h2Cache, cbCache, includesCoinbase)
    }

    constructor ()
      ensures Value() == Slot(None, map[], map[], map[], None)
    {
      job, coinbases, h2Cache, cbCache, includesCoinbase := None, map[], map[], map[], None;
    }

    // Fold a share's optional sections into the slot.
    method Absorb(s: PowSubmit) returns (r: Result<Absorbed, Code>)
      modifies this
      ensures (Value(), r) == AbsorbSlot(old(Value()), s)
      ensures r.Err? ==> Value() == old(Value())
    {
      AbsorbAtomic(Value(), s);
      var out := Absorbed(false, None);
      if s.coinbase.Some? && SectionBytes(s.coinbase.value) > MAX_COINBASE_SECTION_BYTES {
        return Err(REJECT_COINBASE_TOO_LARGE);
      }
      if s.job.Some? && job != s.job {
        job, coinbases, h2Cache, cbCache, includesCoinbase := s.job, map[], map[], map[], None;
        out := out.(jobChanged := true);
      }
      if s.coinbase.Some? {
        var c := s.coinbase.value;
        if c.coinbaseId !in coinbases || coinbases[c.coinbaseId] != c {
          if c.coinbaseId !in coinbases && |coinbases| >= MAX_COINBASES_PER_SLOT {
            return Err(REJECT_BAD_COINBASE_ID);
          }
          coinbases := coinbases[c.coinbaseId := c];
          h2Cache := map k | k in h2Cache && k.id != c.coinbaseId :: h2Cache[k];
          cbCache := map k | k in cbCache && k.id != c.coinbaseId :: cbCache[k];
          out := out.(coinbaseAdded := Some(c.coinbaseId));
        }
      }
      return Ok(out);
    }

    // Drop a section and everything derived from it.
    method ForgetCoinbase(id: byte)
      modifies this
      ensures Value() == ForgetSlot(old(Value()), id)
    {
      coinbases := coinbases - {id};
      h2Cache := map k | k in h2Cache && k.id != id :: h2Cache[k];
      cbCache := map k | k in cbCache && k.id != id :: cbCache[k];
    }

    // Drop every section but keep the job and its convention.
    method EvictSections()
      modifies this
      ensures Value() == EvictSlot(old(Value()))
    {
      coinbases, h2Cache, cbCache := map[], map[], map[];
    }

    // The coinbase for a share, rebuilt on a miss. A full cache is simply emptied.
    method FindCoinbase(s: PowSubmit) returns (r: Result<Legacy, Code>)
      requires job.Some?
      modifies this`cbCache
      ensures (Value(), r) == CachedLegacy(old(Value()), s)
    {
      var id := CoinbaseIdFor(s);
      var key := CbKey(id, s.targetPot);
      if key !in cbCache {
        if id !in coinbases {
          return Err(REJECT_COINBASE_MISSING);
        }
        var sect := coinbases[id];
        var built := RebuildProgram(job.value, sect, s.targetPot);
        if built.Err? {
          return Err(built.error);
        }
        if |cbCache| >= MAX_CB_CACHE {
          cbCache := map[];
        }
        cbCache := cbCache[key := built.value];
      }
      return Ok(cbCache[key]);
    }

    // One reading of the transaction count: H2 from the cache if it is there.
    method Grind(c: Crypto, legacy: Legacy, s: PowSubmit, includes: bool)
      returns (commitment: Commitment, h2: Hash, hash: Hash)
      requires job.Some? && s.timeOnWire.Some? && s.blake2b.Some?
      ensures h2 == CachedH2(c, h2Cache, job.value, legacy, s, includes)
      ensures hash == CachedHash(c, h2Cache, job.value, legacy, s, includes)
      ensures commitment == Hinted(c, job.value, legacy, s, includes, H2KeyOf(job.value, s, includes) in h2Cache)
    {
      var txcount := Txcount(job.value, includes);
      var key := H2Key(CoinbaseIdFor(s), s.targetPot, txcount, s.version);
      var root := Zeros(32);
      if key !in h2Cache {
        root := M.MerkleRoot(c.sha, c.sha(legacy.bytes), job.value.merkleBranches);
      }
      commitment := Commitment(s.version, job.value.prevHash, job.value.height, root, s.timeOnWire.value,
                               NbitsOf(job.value), txcount, FlagsOf(s));
      h2 := if key in h2Cache then h2Cache[key] else c.h2(commitment);
      hash := c.work(job.value.prevHash, h2, s.extranonce, s.blake2b.value.nonce, s.blake2b.value.ntime);
    }

    // Try the readings in turn, and pin the first one whose hash meets the target.
    method FindWork(c: Crypto, legacy: Legacy, s: PowSubmit, target: Hash)
      returns (chosen: Option<(Commitment, Hash, bool)>)
      requires job.Some? && s.timeOnWire.Some? && s.blake2b.Some?
      modifies this`h2Cache
      ensures var slot, job, found := old(Value()), job.value, FirstCached(c, old(h2Cache), job.value, legacy, s,
                                                                           Conventions(includesCoinbase), FromLe(target));
              match found
              case None => chosen.None? && Value() == slot
              case Some(includes) =>
                && Value() == slot.(h2Cache := Insert(slot.h2Cache, H2KeyOf(job, s, includes),
                                                      CachedH2(c, slot.h2Cache, job, legacy, s, includes), MAX_H2_CACHE))
                && chosen == Some((Hinted(c, job, legacy, s, includes, H2KeyOf(job, s, includes) in slot.h2Cache),
                                   CachedHash(c, slot.h2Cache, job, legacy, s, includes), includes))
    {
      var tries := Conventions(includesCoinbase);
      for i := 0 to |tries|
        invariant h2Cache == old(h2Cache)
        invariant FirstCached(c, h2Cache, job.value, legacy, s, tries, FromLe(target))
                  == FirstCached(c, h2Cache, job.value, legacy, s, tries[i..], FromLe(target))
      {
        assert tries[i..][1..] == tries[i + 1..];
        var commitment, h2, hash := Grind(c, legacy, s, tries[i]);
        var met := T.MeetsTarget(hash, target);
        if met {
          if |h2Cache| >= MAX_H2_CACHE {
            h2Cache := map[];
          }
          h2Cache := h2Cache[H2KeyOf(job.value, s, tries[i]) := h2];
          return Some((commitment, hash, tries[i]));
        }
      }
      return None;
    }

    // The coinbase policy and the clock.
    method Refuse(legacy: Legacy, s: PowSubmit, p: Policy) returns (kind: P.Kind, ntime: u32, refusal: Option<Code>)
      requires s.timeOnWire.Some? && s.blake2b.Some? && PolicyFits(p)
      ensures refusal == Refusal(legacy, s, p)
      ensures kind == P.Classify(legacy.parsed.outputs, p.pool, p.issued, p.tolerance)
      ensures ntime == ShareNtime(s.timeOnWire.value, s.blake2b.value.ntime, FlagsOf(s))
    {
      kind := P.ClassifyCoinbase(legacy.parsed.outputs, p.pool, p.issued, p.tolerance);
      ntime := ShareNtime(s.timeOnWire.value, s.blake2b.value.ntime, FlagsOf(s));
      if kind == P.Foreign {
        refusal := Some(REJECT_BAD_COINBASE_OUTPUTS);
      } else if p.now != 0 && (ntime > SatAdd32(p.now, MAX_TIME_AHEAD) || SatAdd32(ntime, MAX_TIME_BEHIND) < p.now) {
        refusal := Some(REJECT_BAD_NTIME);
      } else {
        refusal := None;
      }
    }

    // The share as it is reported, with the merkle root filled in if the cache spared it.
    method Report(c: Crypto, legacy: Legacy, s: PowSubmit, p: Policy, made: Commitment, hash: Hash, ghost includes: bool,
                  ghost hit: bool, kind: P.Kind, ntime: u32)
      returns (v: VerifiedShare)
      requires job.Some? && s.timeOnWire.Some? && s.blake2b.Some?
      requires made == Hinted(c, job.value, legacy, s, includes, hit)
      requires kind == P.Classify(legacy.parsed.outputs, p.pool, p.issued, p.tolerance)
      requires ntime == ShareNtime(s.timeOnWire.value, s.blake2b.value.ntime, FlagsOf(s))
      ensures v == ShareOf(c, job.value, legacy, s, p, includes, hash)
    {
      var commitment := made;
      if commitment.merkleRoot == Zeros(32) {
        var root := M.MerkleRoot(c.sha, c.sha(legacy.bytes), job.value.merkleBranches);
        commitment := commitment.(merkleRoot := root);
      }
      var candidate := IsCandidate(hash, commitment.nbits);
      var value := P.TotalOutputValue(legacy.parsed.outputs);
      var toPool := P.PaidToProgram(legacy.parsed.outputs, p.pool);
      v := VerifiedShare(hash, s.ClaimedWork(), s.targetPot, job.value.height, ntime, candidate, kind, value, toPool,
                         commitment, legacy);
    }

    // Rebuild the header from the share and check the work and the coinbase.
    method VerifyWithTarget(c: Crypto, s: PowSubmit, p: Policy, target: Hash) returns (r: Verdict)
      requires PolicyFits(p)
      modifies this
      ensures (Value(), r) == CachedVerify(c, old(Value()), s, p, FromLe(target))
    {
      if !s.IsBlake2b() || s.blake2b.None? {
        return Err(REJECT_BAD_VERSION);
      }
      if s.timeOnWire.None? {
        return Err(REJECT_BAD_NTIME);
      }
      if job.None? {
        return Err(REJECT_BAD_JOB_ID);
      }
      var found := FindCoinbase(s);
      if found.Err? {
        return Err(found.error);
      }
      r := Judge(c, found.value, s, p, target);
    }

    method Judge(c: Crypto, legacy: Legacy, s: PowSubmit, p: Policy, target: Hash) returns (r: Verdict)
      requires job.Some? && s.timeOnWire.Some? && s.blake2b.Some?
      requires PolicyFits(p)
      modifies this
      ensures (Value(), r) == CachedJudge(c, old(Value()), legacy, s, p, FromLe(target))
    {
      var kind, ntime, refusal := Refuse(legacy, s, p);
      if refusal.Some? {
        return Err(refusal.value);
      }
      ghost var before := h2Cache;
      var chosen := FindWork(c, legacy, s, target);
      if chosen.None? {
        return Err(REJECT_HIGH_HASH);
      }
      var (commitment, hash, includes) := chosen.value;
      includesCoinbase := Some(includes);
      var v := Report(c, legacy, s, p, commitment, hash, includes, H2KeyOf(job.value, s, includes) in before, kind, ntime);
      return Ok(v);
    }

    // Verification against the target the share claims.
    method Verify(c: Crypto, s: PowSubmit, p: Policy) returns (r: Verdict)
      requires PolicyFits(p)
      modifies this
      ensures s.targetPot < p.minPot || s.targetPot >= 224 ==> r == Err(13) && Value() == old(Value())
      ensures p.minPot <= s.targetPot < 224 ==>
                (Value(), r) == CachedVerify(c, old(Value()), s, p, ShareLimit(s.targetPot))
    {
      if s.targetPot < p.minPot {
        return Err(REJECT_BAD_TARGET);
      }
      var target := ShareTarget(s.targetPot);
      if target.None? {
        return Err(REJECT_BAD_TARGET);
      }
      r := VerifyWithTarget(c, s, p, target.value);
    }

    // One operation of a run.
    method Perform(c: Crypto, op: R.Op) returns (a: R.Answer)
      requires op.VerifyOp? ==> PolicyFits(op.p)
      modifies this
      ensures (Value(), a) == R.CachedStep(c, old(Value()), op)
    {
      match op {
        case AbsorbOp(s) =>
          var r := Absorb(s);
          a := R.Absorbing(r);
        case ForgetOp(id) =>
          ForgetCoinbase(id);
          a := R.Done;
        case EvictOp =>
          EvictSections();
          a := R.Done;
        case VerifyOp(s, p, target) =>
          var r := VerifyWithTarget(c, s, p, target);
          a := R.Verifying(r);
      }
    }
  }

  ghost function ShareLimit(pot: byte): nat {
    FloorOf(Pow2(T.BASE_BITS) - 1, Pow2(pot))
  }

  method ShareTarget(pot: byte) returns (r: Option<Hash>)
    ensures r.Some? <==> pot < T.BASE_BITS
    ensures r.Some? ==> FromLe(r.value) == ShareLimit(pot)
  {
    r := T.ShareTargetLe(pot);
  }

  function FloorOf(a: nat, b: nat): nat
    requires b > 0
  {
    DivAtLeast(a, b, 0);
    a / b
  }

  method RebuildProgram(job: JobSection, sect: CoinbaseSection, pot: byte) returns (r: Result<Legacy, Code>)
    ensures r == Rebuild(job, sect, pot)
  {
    var bytes := Assemble(sect.coinb1, sect.coinb2, job.targetByteIndex, pot);
    var parsed := ParseProgram(bytes);
    if parsed.Err? {
      return Err(REJECT_BAD_COINBASE);
    }
    if parsed.value.height.Some? && parsed.value.height.value != job.height {
      return Err(REJECT_BAD_JOB_ID);
    }
    return Ok(Legacy(bytes, parsed.value));
  }

  method IsCandidate(hash: Hash, nbits: u32) returns (r: bool)
    ensures r == BlockCandidate(hash, nbits)
  {
    var target := T.NbitsToTargetLe(nbits);
    if target.None? {
      return false;
    }
    r := T.MeetsTarget(hash, target.value);
  }

  // Any operations on a fresh slot object, its answers being those of a verifier without
  // caches whenever the shares of a job agree on wire time and flags.
  method Drive(c: Crypto, ops: seq<R.Op>, ghost stamps: JobSection -> R.Stamp) returns (answers: seq<R.Answer>)
    requires forall k :: 0 <= k < |ops| && ops[k].VerifyOp? ==> PolicyFits(ops[k].p)
    ensures R.AllStamped(c, stamps, BareOf(R.EMPTY_SLOT), ops) ==> answers == R.BareRun(c, BareOf(R.EMPTY_SLOT), ops)
  {
    var slot := new JobSlot();
    answers := [];
    for i := 0 to |ops|
      invariant fresh(slot)
      invariant R.CachedRun(c, R.EMPTY_SLOT, ops) == answers + R.CachedRun(c, slot.Value(), ops[i..])
    {
      R.RunUnfold(c, slot.Value(), ops[i..]);
      assert ops[i..][1..] == ops[i + 1..];
      var a := slot.Perform(c, ops[i]);
      answers := answers + [a];
    }
    assert ops[|ops|..] == [] && answers + [] == answers;
    if R.AllStamped(c, stamps, BareOf(R.EMPTY_SLOT), ops) {
      R.CachesAreInvisible(c, stamps, ops);
    }
  }
}
