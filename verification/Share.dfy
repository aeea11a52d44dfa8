// What a gateway submits with a share.
module Share {
  import opened Prelude
  import opened LittleEndian
  import T = Target

  type Bytes4 = b: seq<byte> | |b| == 4 witness Zeros(4)
  type Bytes8 = b: seq<byte> | |b| == 8 witness Zeros(8)
  type Bytes12 = b: seq<byte> | |b| == 12 witness Zeros(12)

  // Sent the first time a job slot is used and whenever it moves to a new job.
  datatype JobSection = JobSection(
    prevHash: Hash, targetByteIndex: u16, nbits: Bytes4, coinbaserId: byte, height: u32, coinbaseValue: u64,
    txnCount: u32, txnTotalWeight: u32, txnTotalSize: u32, txnTotalSigops: u32, merkleBranches: seq<Hash>)

  datatype CoinbaseSection = CoinbaseSection(coinbaseId: byte, coinb1: seq<byte>, coinb2: seq<byte>)

  datatype Blake2bSection = Blake2bSection(ntime: Bytes8, nonce: Bytes8)

  // A username is carried as bytes.
  datatype PowSubmit = PowSubmit(
    jobId: byte, coinbaseId: byte, flags: byte, targetPot: byte, ntime32: u32, nonce32: u32, version: u32,
    extranonce: Bytes12, username: seq<byte>, reserved: Bytes4, blake2b: Option<Blake2bSection>,
    timeOnWire: Option<u32>, job: Option<JobSection>, coinbase: Option<CoinbaseSection>)
  {
    predicate SubsidyOnly() { flags / 2 % 2 == 1 }
    predicate IsBlake2b() { flags / 8 % 2 == 1 || blake2b.Some? }
    predicate UseTimeOffset() { reserved[0] % 2 == 1 }

    // Work in difficulty-1 units: 2^targetPot, saturating.
    function ClaimedWork(): u64 {
      if targetPot >= 64 then U64_MAX
      else
        Pow2Below(targetPot);
        Pow2(targetPot)
    }
  }

  // The work credited for a share, times the number of hashes that meet its target, is
  // the number that meet difficulty one: exactly when the power is below 64. From there on
  // the saturated figure credits too little, never too much.
  lemma ClaimedWorkMatchesTarget(s: PowSubmit)
    requires s.targetPot < T.BASE_BITS
    ensures var hashes := (Pow2(T.BASE_BITS) - 1) / Pow2(s.targetPot) + 1;
            && s.ClaimedWork() * hashes <= Pow2(T.BASE_BITS)
            && (s.ClaimedWork() * hashes == Pow2(T.BASE_BITS) <==> s.targetPot < 64)
  {
    var pot := s.targetPot;
    T.ShareTargetValue(pot);
    Pow2Add(pot, T.BASE_BITS - pot);
    if pot >= 64 {
      Pow2Mono(64, pot);
      Pow2Of64();
      SmallerTimes(s.ClaimedWork(), Pow2(pot), Pow2(T.BASE_BITS - pot));
    }
  }

  lemma SmallerTimes(a: nat, b: nat, c: nat)
    requires a < b && c > 0
    ensures a * c < b * c
  {
    MulMono(a + 1, b, c);
    Distribute(c, a, 1);
  }

  lemma Pow2Of64()
    ensures Pow2(64) == U64_MAX + 1
  {
    Widths();
    Pow256IsPow2(8);
  }

  lemma Pow2Below(k: nat)
    requires k < 64
    ensures Pow2(k) <= U64_MAX
  {
    Pow2Mono(k, 63);
    Pow2Of64();
    assert Pow2(64) == 2 * Pow2(63);
  }
}
