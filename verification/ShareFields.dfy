// What becomes of a share, in terms of its own fields, the job's, the section's bytes and
// the clock.
module ShareFields {
  import opened Prelude
  import opened LittleEndian
  import opened Share
  import opened CoinbaseTx
  import opened CoinbaseBuild
  import opened JobSlotModel
  import R = JobSlotRefinement
  import M = Merkle
  import P = CoinbasePolicy
  import T = Target

  // ---- the time -----------------------------------------------------------------------

  // The wire time, to which a share with the lowest bit of its first reserved byte set adds
  // the first four bytes of its ntime, wrapping at 32 bits.
  ghost function HeaderTime(s: PowSubmit): int
    requires s.timeOnWire.Some? && s.blake2b.Some?
  {
    var n := s.blake2b.value.ntime;
    if s.reserved[0] % 2 == 0 then s.timeOnWire.value
    else (s.timeOnWire.value + Four(n[0], n[1], n[2], n[3])) % 0x1_0000_0000
  }

  lemma NtimeIsHeaderTime(s: PowSubmit)
    requires s.timeOnWire.Some? && s.blake2b.Some?
    ensures ShareNtime(s.timeOnWire.value, s.blake2b.value.ntime, FlagsOf(s)) == HeaderTime(s)
    ensures FlagsOf(s) == if s.reserved[0] % 2 == 0 then 0 else 4
  {
    var n := s.blake2b.value.ntime;
    FromLeBytes(n[..4]);
  }

  lemma TimeBounds(time: u32, now: u32)
    ensures BadTime(time, now) <==> now != 0 && (time > now + 7200 || time + 3600 < now)
  {
  }

  // ---- what the share is checked against ----------------------------------------------

  ghost function IdOf(s: PowSubmit): byte {
    if s.flags / 2 % 2 == 1 then 0xFF else s.coinbaseId
  }

  // The coinbase of the share's section under its target byte.
  ghost function CoinbaseBytes(b: Bare, s: PowSubmit): seq<byte>
    requires b.job.Some? && IdOf(s) in b.coinbases
  {
    var sect := b.coinbases[IdOf(s)];
    Assemble(sect.coinb1, sect.coinb2, b.job.value.targetByteIndex, s.targetPot)
  }

  // Everything a share needs before its coinbase is looked at.
  ghost predicate Complete(b: Bare, s: PowSubmit) {
    s.blake2b.Some? && s.timeOnWire.Some? && b.job.Some?
  }

  ghost predicate HeightFits(b: Bare, s: PowSubmit)
    requires Complete(b, s) && IdOf(s) in b.coinbases && Parse(CoinbaseBytes(b, s)).Ok?
  {
    var height := Parse(CoinbaseBytes(b, s)).value.height;
    height.None? || height.value == b.job.value.height
  }

  // It has a section that parses, for the job's height if it names one.
  ghost predicate HasCoinbase(b: Bare, s: PowSubmit) {
    Complete(b, s) && IdOf(s) in b.coinbases && Parse(CoinbaseBytes(b, s)).Ok? && HeightFits(b, s)
  }

  ghost predicate Sanctioned(b: Bare, s: PowSubmit, p: Policy) {
    HasCoinbase(b, s)
    && P.Classify(Parse(CoinbaseBytes(b, s)).value.outputs, p.pool, p.issued, p.tolerance) != P.Foreign
  }

  // No clock, or not more than two hours ahead of it and one behind.
  ghost predicate Timely(s: PowSubmit, p: Policy)
    requires s.timeOnWire.Some? && s.blake2b.Some?
  {
    p.now == 0 || (HeaderTime(s) <= p.now + 7200 && p.now <= HeaderTime(s) + 3600)
  }

  // The header the share stands for, with a transaction count.
  ghost function HeaderOf(c: Crypto, b: Bare, s: PowSubmit, txcount: u32): Commitment
    requires HasCoinbase(b, s)
  {
    var job := b.job.value;
    Commitment(s.version, job.prevHash, job.height, M.Fold(c.sha, c.sha(CoinbaseBytes(b, s)), job.merkleBranches),
               s.timeOnWire.value, NbitsOf(job), txcount, if s.reserved[0] % 2 == 0 then 0 else 4)
  }

  ghost function HashOf(c: Crypto, b: Bare, s: PowSubmit, txcount: u32): Hash
    requires HasCoinbase(b, s)
  {
    c.work(b.job.value.prevHash, c.h2(HeaderOf(c, b, s, txcount)), s.extranonce, s.blake2b.value.nonce,
           s.blake2b.value.ntime)
  }

  // The job's count without the coinbase, with it added, wrapping at 32 bits.
  ghost function Plus(b: Bare): u32
    requires b.job.Some?
  {
    if b.job.value.txnCount == 0xFFFF_FFFF then 0 else b.job.value.txnCount + 1
  }

  // The first reading that makes it good work: the count plus one, unless the slot is pinned
  // to the count as sent; the count as sent, unless it is pinned to plus one.
  ghost function GoodCount(c: Crypto, b: Bare, s: PowSubmit, limit: nat): Option<u32>
    requires HasCoinbase(b, s)
  {
    if b.includesCoinbase != Some(true) && FromLe(HashOf(c, b, s, Plus(b))) <= limit then Some(Plus(b))
    else if b.includesCoinbase != Some(false) && FromLe(HashOf(c, b, s, b.job.value.txnCount)) <= limit
    then Some(b.job.value.txnCount)
    else None
  }

  // ---- the verdict --------------------------------------------------------------------

  lemma Found(b: Bare, s: PowSubmit)
    requires Complete(b, s)
    ensures Missing(b.job, s).None? && CoinbaseIdFor(s) == IdOf(s)
    ensures IdOf(s) in b.coinbases ==>
              Rebuild(b.job.value, b.coinbases[IdOf(s)], s.targetPot) ==
              match Parse(CoinbaseBytes(b, s))
              case Err(_) => Err(26)
              case Ok(parsed) =>
                if parsed.height.Some? && parsed.height.value != b.job.value.height then Err(10)
                else Ok(Legacy(CoinbaseBytes(b, s), parsed))
  {
  }

  lemma Incomplete(b: Bare, s: PowSubmit)
    ensures !Complete(b, s) ==>
              Missing(b.job, s) == Some(if s.blake2b.None? then 24 else if s.timeOnWire.None? then 23 else 10)
  {
  }

  lemma Refused(b: Bare, s: PowSubmit, p: Policy)
    requires HasCoinbase(b, s)
    ensures var legacy := Legacy(CoinbaseBytes(b, s), Parse(CoinbaseBytes(b, s)).value);
            Refusal(legacy, s, p) == if !Sanctioned(b, s, p) then Some(27) else if !Timely(s, p) then Some(23) else None
  {
    NtimeIsHeaderTime(s);
    TimeBounds(HeaderTime(s), p.now);
  }

  ghost function CoinbaseOf(b: Bare, s: PowSubmit): Legacy
    requires HasCoinbase(b, s)
  {
    Legacy(CoinbaseBytes(b, s), Parse(CoinbaseBytes(b, s)).value)
  }

  lemma CountRead(b: Bare, includes: bool)
    requires b.job.Some?
    ensures Txcount(b.job.value, includes) == if includes then b.job.value.txnCount else Plus(b)
  {
  }

  lemma HeaderRead(c: Crypto, b: Bare, s: PowSubmit, n: u32)
    requires HasCoinbase(b, s)
    ensures FullCommitment(c, b.job.value, CoinbaseOf(b, s), s.version, s.timeOnWire.value, FlagsOf(s), n)
            == HeaderOf(c, b, s, n)
  {
  }

  lemma Reading(c: Crypto, b: Bare, s: PowSubmit, includes: bool)
    requires HasCoinbase(b, s)
    ensures BareHash(c, b.job.value, CoinbaseOf(b, s), s, includes) == HashOf(c, b, s, Txcount(b.job.value, includes))
  {
    HeaderRead(c, b, s, Txcount(b.job.value, includes));
  }

  lemma ReadingsTried(c: Crypto, b: Bare, s: PowSubmit, limit: nat)
    requires HasCoinbase(b, s)
    ensures var legacy := CoinbaseOf(b, s);
            var first := FirstMeeting(c, b.job.value, legacy, s, Conventions(b.includesCoinbase), limit);
            match GoodCount(c, b, s, limit)
            case None => first.None?
            case Some(n) => first.Some? && Txcount(b.job.value, first.value) == n
                            && BareHash(c, b.job.value, legacy, s, first.value) == HashOf(c, b, s, n)
  {
    var legacy := CoinbaseOf(b, s);
    CountRead(b, true);
    CountRead(b, false);
    Reading(c, b, s, true);
    Reading(c, b, s, false);
    R.OneTry(c, map[], b.job.value, legacy, s, true, limit);
    R.OneTry(c, map[], b.job.value, legacy, s, false, limit);
    assert [false, true][1..] == [true];
  }

  // Every answer and its exact occasion, the program's checks taken in its order.
  lemma VerdictByFields(c: Crypto, b: Bare, s: PowSubmit, p: Policy, limit: nat)
    ensures var r := BareVerify(c, b, s, p, limit).1;
            if s.blake2b.None? then r == Err(24)
            else if s.timeOnWire.None? then r == Err(23)
            else if b.job.None? then r == Err(10)
            else if IdOf(s) !in b.coinbases then r == Err(18)
            else if Parse(CoinbaseBytes(b, s)).Err? then r == Err(26)
            else if !HeightFits(b, s) then r == Err(10)
            else if !Sanctioned(b, s, p) then r == Err(27)
            else if !Timely(s, p) then r == Err(23)
            else if GoodCount(c, b, s, limit).None? then r == Err(21)
            else r.Ok?
  {
    Incomplete(b, s);
    if Complete(b, s) {
      Found(b, s);
      if HasCoinbase(b, s) {
        Refused(b, s, p);
        ReadingsTried(c, b, s, limit);
      }
    }
  }

  lemma Accepted(c: Crypto, b: Bare, s: PowSubmit, p: Policy, limit: nat, v: VerifiedShare)
    requires BareVerify(c, b, s, p, limit).1 == Ok(v)
    ensures HasCoinbase(b, s) && Sanctioned(b, s, p) && Timely(s, p) && GoodCount(c, b, s, limit).Some?
    ensures var legacy := CoinbaseOf(b, s);
            exists includes ::
              && Txcount(b.job.value, includes) == GoodCount(c, b, s, limit).value
              && v == ShareOf(c, b.job.value, legacy, s, p, includes, BareHash(c, b.job.value, legacy, s, includes))
  {
    VerdictByFields(c, b, s, p, limit);
    Found(b, s);
    Refused(b, s, p);
    ReadingsTried(c, b, s, limit);
  }

  lemma AcceptedAtHeaderTime(c: Crypto, b: Bare, s: PowSubmit, p: Policy, limit: nat, v: VerifiedShare)
    requires BareVerify(c, b, s, p, limit).1 == Ok(v)
    ensures Complete(b, s) && v.ntime == HeaderTime(s) && Timely(s, p)
  {
    Accepted(c, b, s, p, limit, v);
    NtimeIsHeaderTime(s);
  }

  // An accepted share is reported with the time it carries, and that is within the clock's
  // bounds.
  lemma AcceptedTime(c: Crypto, b: Bare, s: PowSubmit, p: Policy, limit: nat, v: VerifiedShare)
    requires BareVerify(c, b, s, p, limit).1 == Ok(v)
    ensures s.timeOnWire.Some? && s.blake2b.Some?
    ensures s.reserved[0] % 2 == 0 ==> v.ntime == s.timeOnWire.value
    ensures s.reserved[0] % 2 == 1 ==>
              var t := s.blake2b.value.ntime;
              v.ntime == (s.timeOnWire.value + Four(t[0], t[1], t[2], t[3])) % 0x1_0000_0000
    ensures p.now != 0 ==> v.ntime <= p.now + 7200 && p.now <= v.ntime + 3600
  {
    AcceptedAtHeaderTime(c, b, s, p, limit, v);
    TimeCases(s, p, v.ntime);
  }

  lemma TimeCases(s: PowSubmit, p: Policy, ntime: u32)
    requires s.timeOnWire.Some? && s.blake2b.Some? && ntime == HeaderTime(s) && Timely(s, p)
    ensures s.reserved[0] % 2 == 0 ==> ntime == s.timeOnWire.value
    ensures s.reserved[0] % 2 == 1 ==>
              var t := s.blake2b.value.ntime;
              ntime == (s.timeOnWire.value + Four(t[0], t[1], t[2], t[3])) % 0x1_0000_0000
    ensures p.now != 0 ==> ntime <= p.now + 7200 && p.now <= ntime + 3600
  {
  }

  // It stands for the header its fields, the job's and the section's bytes make, under the
  // first good reading of the transaction count, and its hash is that header's.
  lemma AcceptedHeader(c: Crypto, b: Bare, s: PowSubmit, p: Policy, limit: nat, v: VerifiedShare)
    requires BareVerify(c, b, s, p, limit).1 == Ok(v)
    ensures HasCoinbase(b, s) && GoodCount(c, b, s, limit).Some?
    ensures v.commitment == HeaderOf(c, b, s, GoodCount(c, b, s, limit).value)
    ensures v.hash == HashOf(c, b, s, GoodCount(c, b, s, limit).value) && FromLe(v.hash) <= limit
  {
    Accepted(c, b, s, p, limit, v);
    Reading(c, b, s, true);
    Reading(c, b, s, false);
    HeaderRead(c, b, s, GoodCount(c, b, s, limit).value);
  }

  // It is credited 2 to its power, saturating, at the job's height, for its own coinbase.
  lemma AcceptedWork(c: Crypto, b: Bare, s: PowSubmit, p: Policy, limit: nat, v: VerifiedShare)
    requires BareVerify(c, b, s, p, limit).1 == Ok(v)
    ensures HasCoinbase(b, s)
    ensures v.work == (if s.targetPot < 64 then Pow2(s.targetPot) else 0xFFFF_FFFF_FFFF_FFFF)
    ensures v.height == b.job.value.height && v.targetPot == s.targetPot
    ensures v.legacy == Legacy(CoinbaseBytes(b, s), Parse(CoinbaseBytes(b, s)).value)
  {
    Accepted(c, b, s, p, limit, v);
  }

  // A share whose time is within the bounds is never refused for it.
  lemma TimelyNeverRefused(c: Crypto, b: Bare, s: PowSubmit, p: Policy, limit: nat)
    requires s.blake2b.Some? && s.timeOnWire.Some?
    ensures BareVerify(c, b, s, p, limit).1 == Err(23) <==> Sanctioned(b, s, p) && !Timely(s, p)
  {
    VerdictByFields(c, b, s, p, limit);
  }

  // A share is a block candidate when its hash is at most the target its job's four nBits
  // bytes stand for: three bytes of mantissa, the top bit of which makes it negative, and
  // one of exponent.
  lemma CandidateByFields(c: Crypto, b: Bare, s: PowSubmit, p: Policy, limit: nat, v: VerifiedShare)
    requires BareVerify(c, b, s, p, limit).1 == Ok(v)
    ensures b.job.Some?
    ensures var nb := b.job.value.nbits;
            && v.commitment.nbits == Four(nb[0], nb[1], nb[2], nb[3])
            && (v.isBlockCandidate <==> WithinNbits(FromLe(v.hash), nb[0], nb[1], nb[2], nb[3]))
  {
    Accepted(c, b, s, p, limit, v);
    var nb := b.job.value.nbits;
    FromLeBytes(nb);
    NbitsAreBytes(v.hash, nb[0], nb[1], nb[2], nb[3]);
  }

  ghost predicate WithinNbits(v: nat, b0: int, b1: int, b2: int, exp: int) {
    var mant := b0 + 0x100 * b1 + 0x1_0000 * (b2 % 0x80);
    && b2 < 0x80 && mant > 0 && exp <= 32
    && if exp >= 3 then v <= mant * Pow256(exp - 3) else exp >= 0 && v * Pow256(3 - exp) <= mant
  }

  lemma NbitsAreBytes(hash: Hash, b0: byte, b1: byte, b2: byte, b3: byte)
    ensures 0 <= Four(b0, b1, b2, b3) <= U32_MAX
    ensures BlockCandidate(hash, Four(b0, b1, b2, b3)) <==> WithinNbits(FromLe(hash), b0, b1, b2, b3)
  {
    NbitsFields(b0, b1, b2, b3);
    if b3 < 3 {
      DivAtLeast(T.NbitsMantissa(Four(b0, b1, b2, b3)), Pow256(3 - b3), FromLe(hash));
    }
  }

  lemma NbitsFields(b0: byte, b1: byte, b2: byte, b3: byte)
    ensures 0 <= Four(b0, b1, b2, b3) <= U32_MAX
    ensures T.NbitsExp(Four(b0, b1, b2, b3)) == b3
    ensures T.NbitsMantissa(Four(b0, b1, b2, b3)) == Four(b0, b1, b2 % 0x80, 0)
    ensures T.NbitsNegative(Four(b0, b1, b2, b3)) <==> b2 >= 0x80
  {
    assert Four(b0, b1, b2, b3) / 0x80_0000 == b2 / 0x80 + 2 * b3;
  }

  // ---- what a share leaves in the slot --------------------------------------------------

  // A section over 20000 bytes, or a ninth one, is refused and nothing changes. Otherwise a
  // new job empties the slot first, and a section that is not already there takes its id,
  // with nothing derived from the old one left.
  lemma AbsorbByFields(slot: Slot, s: PowSubmit)
    ensures var (after, r) := AbsorbSlot(slot, s);
            var starts := s.job.Some? && slot.job != s.job;
            var held := if starts then map[] else slot.coinbases;
            if s.coinbase.Some? && |s.coinbase.value.coinb1| + |s.coinbase.value.coinb2| > 20_000 then
              r == Err(17) && after == slot
            else if s.coinbase.Some? && s.coinbase.value.coinbaseId !in held && |held| >= 8 then
              r == Err(11) && after == slot
            else
              && after.job == (if starts then s.job else slot.job)
              && after.includesCoinbase == (if starts then None else slot.includesCoinbase)
              && match s.coinbase
                 case None => r == Ok(Absorbed(starts, None)) && after.coinbases == held
                 case Some(x) =>
                   var added := x.coinbaseId !in held || held[x.coinbaseId] != x;
                   && r == Ok(Absorbed(starts, if added then Some(x.coinbaseId) else None))
                   && after.coinbases == held[x.coinbaseId := x]
  {
    if s.coinbase.Some? {
      var x := s.coinbase.value;
      if x.coinbaseId in slot.coinbases && slot.coinbases[x.coinbaseId] == x {
        assert slot.coinbases[x.coinbaseId := x] == slot.coinbases;
      }
    }
  }

  // What was derived from other sections of the same job stays cached, and nothing else.
  lemma AbsorbKeepsCaches(slot: Slot, s: PowSubmit)
    requires AbsorbSlot(slot, s).1.Ok?
    ensures var (after, r) := AbsorbSlot(slot, s);
            && (forall k :: k in after.h2Cache <==>
                  k in slot.h2Cache && !r.value.jobChanged && r.value.coinbaseAdded != Some(k.id))
            && (forall k :: k in after.cbCache <==>
                  k in slot.cbCache && !r.value.jobChanged && r.value.coinbaseAdded != Some(k.id))
            && (forall k :: k in after.h2Cache ==> after.h2Cache[k] == slot.h2Cache[k])
            && (forall k :: k in after.cbCache ==> after.cbCache[k] == slot.cbCache[k])
  {
  }

  lemma ForgetByFields(slot: Slot, id: byte)
    ensures var after := ForgetSlot(slot, id);
            && after.job == slot.job && after.includesCoinbase == slot.includesCoinbase
            && after.coinbases == slot.coinbases - {id}
            && (forall k :: k in after.h2Cache <==> k in slot.h2Cache && k.id != id)
            && (forall k :: k in after.cbCache <==> k in slot.cbCache && k.id != id)
            && EvictSlot(slot) == Slot(slot.job, map[], map[], map[], slot.includesCoinbase)
  {
  }

  // ---- the caches are bounded ---------------------------------------------------------

  predicate Bounded(slot: Slot) {
    |slot.cbCache| <= 32 && |slot.h2Cache| <= 64
  }

  lemma InsertBounded<K(!new), V>(m: map<K, V>, k: K, v: V, cap: nat)
    requires |m| <= cap && cap > 0
    ensures |Insert(m, k, v, cap)| <= cap
  {
    var base := if |m| >= cap then map[] else m;
    assert base[k := v].Keys == base.Keys + {k};
    assert |base[k := v].Keys| <= |base.Keys| + 1;
  }

  lemma KeepBounded(slot: Slot, id: byte)
    ensures |KeepH2(slot.h2Cache, id)| <= |slot.h2Cache| && |KeepCb(slot.cbCache, id)| <= |slot.cbCache|
  {
    assert KeepH2(slot.h2Cache, id).Keys <= slot.h2Cache.Keys;
    assert KeepCb(slot.cbCache, id).Keys <= slot.cbCache.Keys;
    SubsetCard(KeepH2(slot.h2Cache, id).Keys, slot.h2Cache.Keys);
    SubsetCard(KeepCb(slot.cbCache, id).Keys, slot.cbCache.Keys);
  }

  lemma SubsetCard<K(!new)>(a: set<K>, b: set<K>)
    requires a <= b
    ensures |a| <= |b|
  {
    assert b == a + (b - a);
  }

  // Whatever shares choose, no operation makes a cache outgrow its cap.
  lemma StepBounded(c: Crypto, slot: Slot, op: R.Op)
    requires Bounded(slot)
    ensures Bounded(R.CachedStep(c, slot, op).0)
  {
    match op {
      case AbsorbOp(s) =>
        if s.coinbase.Some? {
          KeepBounded(WithJob(slot, s), s.coinbase.value.coinbaseId);
        }
      case ForgetOp(id) => KeepBounded(slot, id);
      case EvictOp =>
      case VerifyOp(s, p, target) => VerifyBounded(c, slot, s, p, FromLe(target));
    }
  }

  lemma VerifyBounded(c: Crypto, slot: Slot, s: PowSubmit, p: Policy, limit: nat)
    requires Bounded(slot)
    ensures Bounded(CachedVerify(c, slot, s, p, limit).0)
  {
    if Missing(slot.job, s).None? {
      var (found, legacy) := CachedLegacy(slot, s);
      if legacy.Ok? {
        InsertBounded(slot.cbCache, CbKey(CoinbaseIdFor(s), s.targetPot), legacy.value, MAX_CB_CACHE);
        JudgeBounded(c, found, legacy.value, s, p, limit);
      }
    }
  }

  lemma JudgeBounded(c: Crypto, slot: Slot, legacy: Legacy, s: PowSubmit, p: Policy, limit: nat)
    requires Bounded(slot) && slot.job.Some? && s.timeOnWire.Some? && s.blake2b.Some?
    ensures Bounded(CachedJudge(c, slot, legacy, s, p, limit).0)
  {
    var job := slot.job.value;
    var first := FirstCached(c, slot.h2Cache, job, legacy, s, Conventions(slot.includesCoinbase), limit);
    if first.Some? {
      InsertBounded(slot.h2Cache, H2KeyOf(job, s, first.value),
                    CachedH2(c, slot.h2Cache, job, legacy, s, first.value), MAX_H2_CACHE);
    }
  }
}
