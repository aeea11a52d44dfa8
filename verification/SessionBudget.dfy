// What one session can make the pool hold: 256 job slots, the bytes of their coinbase
// sections counted as they come and go, and a budget over all of them.
module SessionBudget {
  import opened Prelude
  import opened Share
  import opened JobSlotModel

  const MAX_JOB_SLOTS := 256
  const MAX_LIVE_SLOTS := 16

  // ---- bytes held ---------------------------------------------------------------------

  function HeldBelow(m: map<byte, CoinbaseSection>, n: nat): nat
    requires n <= 0x100
  {
    if n == 0 then 0 else HeldBelow(m, n - 1) + if n - 1 in m then SectionBytes(m[n - 1]) else 0
  }

  // Bytes of coinbase sections in one slot.
  function Held(m: map<byte, CoinbaseSection>): nat { HeldBelow(m, 0x100) }

  ghost function HeldBy(): Slot -> nat { (slot: Slot) => Held(slot.coinbases) }

  lemma {:induction false} HeldForget(m: map<byte, CoinbaseSection>, id: byte, n: nat)
    requires n <= 0x100
    ensures HeldBelow(m, n) == HeldBelow(m - {id}, n) + if id < n && id in m then SectionBytes(m[id]) else 0
  {
    if n > 0 {
      HeldForget(m, id, n - 1);
    }
  }

  lemma {:induction false} HeldNothing(n: nat)
    requires n <= 0x100
    ensures HeldBelow(map[], n) == 0
  {
    if n > 0 {
      HeldNothing(n - 1);
    }
  }

  // At most eight sections of at most 20000 bytes.
  predicate SlotOk(slot: Slot) {
    && |slot.coinbases| <= MAX_COINBASES_PER_SLOT
    && forall id :: id in slot.coinbases ==> SectionBytes(slot.coinbases[id]) <= MAX_COINBASE_SECTION_BYTES
  }

  ghost function IdsBelow(m: map<byte, CoinbaseSection>, n: nat): set<byte> {
    set id | id in m && id < n
  }

  lemma {:induction false} HeldBounded(m: map<byte, CoinbaseSection>, n: nat, k: nat)
    requires n <= 0x100 && |IdsBelow(m, n)| <= k
    requires forall id :: id in m ==> SectionBytes(m[id]) <= MAX_COINBASE_SECTION_BYTES
    ensures HeldBelow(m, n) <= k * MAX_COINBASE_SECTION_BYTES
  {
    if n > 0 {
      var below, upTo := IdsBelow(m, n - 1), IdsBelow(m, n);
      if n - 1 in m {
        assert upTo == below + {n - 1};
        HeldBounded(m, n - 1, k - 1);
      } else {
        assert upTo == below;
        HeldBounded(m, n - 1, k);
      }
    }
  }

  // A slot never holds more than eight sections' worth.
  lemma SlotBytes(slot: Slot)
    requires SlotOk(slot)
    ensures Held(slot.coinbases) <= MAX_COINBASES_PER_SLOT * MAX_COINBASE_SECTION_BYTES
  {
    var m := slot.coinbases;
    assert IdsBelow(m, 0x100) == m.Keys && |m.Keys| == |m|;
    HeldBounded(m, 0x100, MAX_COINBASES_PER_SLOT);
  }

  lemma AbsorbKeepsSlotOk(slot: Slot, s: PowSubmit)
    requires SlotOk(slot)
    ensures SlotOk(AbsorbSlot(slot, s).0)
  {
    var started := WithJob(slot, s);
    if s.coinbase.Some? {
      var c := s.coinbase.value;
      var m := started.coinbases[c.coinbaseId := c];
      assert m.Keys == started.coinbases.Keys + {c.coinbaseId};
    }
  }

  lemma ForgetKeepsSlotOk(slot: Slot, id: byte)
    requires SlotOk(slot)
    ensures SlotOk(ForgetSlot(slot, id)) && Held(ForgetSlot(slot, id).coinbases) <= Held(slot.coinbases)
  {
    var m := slot.coinbases - {id};
    assert m.Keys == slot.coinbases.Keys - {id};
    HeldForget(slot.coinbases, id, 0x100);
  }

  // What a slot holds grows by at most the section it absorbed, beyond what it held without
  // that section's id; a share that adds none never makes it grow.
  lemma AbsorbedBytes(slot: Slot, s: PowSubmit)
    ensures var (slot', r) := AbsorbSlot(slot, s);
            && (r.Ok? && r.value.coinbaseAdded.Some? ==>
                  Held(ForgetSlot(slot', r.value.coinbaseAdded.value).coinbases) <= Held(slot.coinbases))
            && (r.Ok? && r.value.coinbaseAdded.None? ==> Held(slot'.coinbases) <= Held(slot.coinbases))
            && (r.Ok? && !r.value.jobChanged ==> slot'.job == slot.job)
  {
    var (slot', r) := AbsorbSlot(slot, s);
    HeldNothing(0x100);
    if r.Ok? && r.value.coinbaseAdded.Some? {
      var id := r.value.coinbaseAdded.value;
      assert ForgetSlot(slot', id).coinbases == WithJob(slot, s).coinbases - {id};
      HeldForget(WithJob(slot, s).coinbases, id, 0x100);
    }
  }

  // Verifying a share only touches caches and the pinned convention: no bytes come or go.
  lemma VerifyHoldsBytes(c: Crypto, slot: Slot, s: PowSubmit, p: Policy, limit: nat)
    ensures CachedVerify(c, slot, s, p, limit).0.coinbases == slot.coinbases
    ensures SlotOk(slot) ==> SlotOk(CachedVerify(c, slot, s, p, limit).0)
  {
  }

  // ---- the session --------------------------------------------------------------------

  ghost predicate AllOk(slots: seq<Slot>) {
    |slots| == MAX_JOB_SLOTS && forall i :: 0 <= i < |slots| ==> SlotOk(slots[i])
  }

  ghost predicate Distinct(live: seq<byte>) {
    forall i, j :: 0 <= i < j < |live| ==> live[i] != live[j]
  }

  function Without(live: seq<byte>, id: byte): (r: seq<byte>)
    ensures |r| <= |live| && id !in r
    ensures forall i :: 0 <= i < |r| ==> r[i] in live
    ensures Distinct(live) ==> Distinct(r)
  {
    if live == [] then []
    else
      var init, last := Without(live[..|live| - 1], id), live[|live| - 1];
      if last == id then init else init + [last]
  }

  // The slot whose sections go when `job` starts: with sixteen others live, the oldest.
  predicate Displaces(live: seq<byte>, job: byte) {
    |live| == 16 && job !in live
  }

  ghost function LiveAfter(live: seq<byte>, job: byte): seq<byte> {
    if Displaces(live, job) then live[1..] + [job] else Without(live, job) + [job]
  }

  // A slot keeps its job and its convention, but no section and nothing derived from one.
  ghost function Evicted(slots: seq<Slot>, i: byte): (r: seq<Slot>)
    ensures |r| == |slots|
  {
    if i < |slots| then
      slots[i := Slot(slots[i].job, map[], map[], map[], slots[i].includesCoinbase)]
    else slots
  }

  ghost function Touched(slots: seq<Slot>, live: seq<byte>, job: byte): (r: seq<Slot>)
    ensures |r| == |slots|
  {
    if Displaces(live, job) then Evicted(slots, live[0]) else slots
  }

  // All slots with the absorbed one in place, and the oldest evicted if it started a job.
  ghost function Placed(slots: seq<Slot>, live: seq<byte>, job: byte, absorbed: Slot, jobChanged: bool): (r: seq<Slot>)
    requires |slots| == MAX_JOB_SLOTS
    ensures |r| == MAX_JOB_SLOTS
  {
    var placed := slots[job := absorbed];
    if jobChanged then Touched(placed, live, job) else placed
  }

  // Removing an identity from a list that does not repeat it.
  lemma {:induction false} WithoutAbsent(live: seq<byte>, id: byte)
    requires id !in live
    ensures Without(live, id) == live
  {
    if live != [] {
      var n := |live| - 1;
      WithoutAbsent(live[..n], id);
      assert live[..n] + [live[n]] == live;
    }
  }

  lemma {:induction false} WithoutAt(live: seq<byte>, i: nat)
    requires Distinct(live) && i < |live|
    ensures Without(live, live[i]) == live[..i] + live[i + 1..]
  {
    var n := |live| - 1;
    if i == n {
      WithoutAbsent(live[..n], live[i]);
    } else {
      WithoutAt(live[..n], i);
      assert live[..n][..i] == live[..i] && live[..n][i + 1..] + [live[n]] == live[i + 1..];
    }
  }

  lemma WithoutLength(live: seq<byte>, id: byte)
    requires Distinct(live)
    ensures id in live ==> |Without(live, id)| < |live|
    ensures id !in live ==> Without(live, id) == live
  {
    if id in live {
      var i :| 0 <= i < |live| && live[i] == id;
      WithoutAt(live, i);
    } else {
      WithoutAbsent(live, id);
    }
  }

  lemma AppendDistinct(live: seq<byte>, id: byte)
    requires Distinct(live) && id !in live
    ensures Distinct(live + [id])
  {
  }

  // The queue stays free of repetitions and short, and the slot that started a job is spared.
  lemma LiveStays(live: seq<byte>, job: byte)
    requires |live| <= MAX_LIVE_SLOTS && Distinct(live)
    ensures |LiveAfter(live, job)| <= MAX_LIVE_SLOTS && Distinct(LiveAfter(live, job))
    ensures Displaces(live, job) ==> live[0] != job && Without(live, job) == live
    ensures Displaces(live, job) <==> |Without(live, job) + [job]| > MAX_LIVE_SLOTS
  {
    WithoutLength(live, job);
    if Displaces(live, job) {
      AppendDistinct(live[1..], job);
      assert live[0] in live;
    } else {
      AppendDistinct(Without(live, job), job);
    }
  }

  lemma TouchedStays(slots: seq<Slot>, live: seq<byte>, job: byte)
    requires AllOk(slots) && (Displaces(live, job) ==> live[0] != job)
    ensures AllOk(Touched(slots, live, job)) && Touched(slots, live, job)[job] == slots[job]
    ensures Sum(Touched(slots, live, job), HeldBy()) <= Sum(slots, HeldBy())
  {
    if Displaces(live, job) {
      var i := live[0];
      HeldNothing(0x100);
      SumUpdate(slots, i, Slot(slots[i].job, map[], map[], map[], slots[i].includesCoinbase), HeldBy());
    }
  }

  class Session {
    var slots: seq<Slot>
    var coinbaseBytes: nat
    var liveSlots: seq<byte>
    const budget: nat

    // The running count is exact and within the budget.
    ghost predicate Valid()
      reads this
    {
      && AllOk(slots)
      && coinbaseBytes == Sum(slots, HeldBy())
      && coinbaseBytes <= budget
      && |liveSlots| <= MAX_LIVE_SLOTS && Distinct(liveSlots)
    }

    constructor (budget: nat)
      ensures Valid() && this.budget == budget && coinbaseBytes == 0 && |slots| == 256
    {
      this.budget := budget;
      var none := Slot(None, map[], map[], map[], None);
      slots, coinbaseBytes, liveSlots := seq(MAX_JOB_SLOTS, _ => none), 0, [];
      NothingHeld(none, MAX_JOB_SLOTS);
    }

    method TotalHeld() returns (total: nat)
      ensures total == Sum(slots, HeldBy())
    {
      total := 0;
      for i := 0 to |slots|
        invariant total == Sum(slots[..i], HeldBy())
      {
        SumPrefix(slots, i, HeldBy());
        total := total + Held(slots[i].coinbases);
      }
      assert slots[..|slots|] == slots;
    }

    // Note that a slot started a new job, and evict the sections of the one that has gone
    // longest without once more than sixteen are live. Nobody else loses anything.
    method TouchSlot(job: byte)
      requires |slots| == MAX_JOB_SLOTS && |liveSlots| <= MAX_LIVE_SLOTS && Distinct(liveSlots)
      modifies this`liveSlots, this`slots
      ensures |liveSlots| <= MAX_LIVE_SLOTS && Distinct(liveSlots)
      ensures liveSlots == LiveAfter(old(liveSlots), job)
      ensures slots == Touched(old(slots), old(liveSlots), job)
    {
      ghost var was := liveSlots;
      LiveStays(was, job);
      liveSlots := Without(liveSlots, job) + [job];
      ghost var queued := liveSlots;
      while |liveSlots| > MAX_LIVE_SLOTS
        invariant |slots| == MAX_JOB_SLOTS
        invariant (liveSlots == queued && slots == old(slots))
                  || (Displaces(was, job) && liveSlots == queued[1..] && slots == Evicted(old(slots), queued[0]))
        decreases |liveSlots|
      {
        EvictOldest();
      }
    }

    method EvictOldest()
      requires |slots| == MAX_JOB_SLOTS && |liveSlots| > 1
      modifies this`liveSlots, this`slots
      ensures liveSlots == old(liveSlots)[1..]
      ensures slots == Evicted(old(slots), old(liveSlots)[0])
    {
      var oldest := liveSlots[0];
      liveSlots := liveSlots[1..];
      slots := slots[oldest := EvictSlot(slots[oldest])];
    }

    // Undo a section this share brought in.
    method DropCoinbase(job: byte, added: Option<byte>)
      requires AllOk(slots) && coinbaseBytes == Sum(slots, HeldBy())
      modifies this`slots, this`coinbaseBytes
      ensures AllOk(slots) && coinbaseBytes == Sum(slots, HeldBy())
      ensures slots == if added.Some? then old(slots)[job := ForgetSlot(old(slots[job]), added.value)] else old(slots)
    {
      if added.None? {
        return;
      }
      ghost var was := slots;
      var before := Held(slots[job].coinbases);
      ForgetKeepsSlotOk(slots[job], added.value);
      SumAtLeastMember(slots, job, HeldBy());
      SumUpdate(slots, job, ForgetSlot(slots[job], added.value), HeldBy());
      slots := slots[job := ForgetSlot(slots[job], added.value)];
      var after := Held(slots[job].coinbases);
      coinbaseBytes := SatSub(coinbaseBytes, SatSub(before, after));
    }

    // Put the absorbed slot in place and count: exactly, without ever saturating.
    method Count(job: byte, absorbed: Slot, jobChanged: bool)
      requires Valid() && SlotOk(absorbed)
      modifies this`slots, this`coinbaseBytes, this`liveSlots
      ensures AllOk(slots) && coinbaseBytes == Sum(slots, HeldBy())
      ensures |liveSlots| <= MAX_LIVE_SLOTS && Distinct(liveSlots)
      ensures slots == Placed(old(slots), old(liveSlots), job, absorbed, jobChanged) && slots[job] == absorbed
      ensures liveSlots == if jobChanged then LiveAfter(old(liveSlots), job) else old(liveSlots)
      ensures coinbaseBytes + Held(old(slots[job]).coinbases) <= old(coinbaseBytes) + Held(absorbed.coinbases)
    {
      var heldBefore := Held(slots[job].coinbases);
      SumAtLeastMember(slots, job, HeldBy());
      SumUpdate(slots, job, absorbed, HeldBy());
      slots := slots[job := absorbed];
      if jobChanged {
        LiveStays(liveSlots, job);
        TouchedStays(slots, liveSlots, job);
        TouchSlot(job);
        coinbaseBytes := TotalHeld();
      } else {
        coinbaseBytes := SatSub(coinbaseBytes, heldBefore) + Held(slots[job].coinbases);
      }
    }

    // A share's sections: absorbed, counted, and dropped again exactly when they brought in
    // a section and all slots together then hold more than the budget.
    method TakeSections(s: PowSubmit) returns (r: Result<Absorbed, Code>)
      requires Valid()
      modifies this
      ensures Valid()
      ensures var (slot', a) := AbsorbSlot(old(slots[s.jobId]), s);
              match a
              case Err(_) => r == a && slots == old(slots) && liveSlots == old(liveSlots)
              case Ok(absorbed) =>
                var placed := Placed(old(slots), old(liveSlots), s.jobId, slot', absorbed.jobChanged);
                && liveSlots == (if absorbed.jobChanged then LiveAfter(old(liveSlots), s.jobId) else old(liveSlots))
                && if absorbed.coinbaseAdded.Some? && Sum(placed, HeldBy()) > budget then
                     && r == Err(REJECT_COINBASE_TOO_LARGE)
                     && slots == placed[s.jobId := ForgetSlot(slot', absorbed.coinbaseAdded.value)]
                   else r == a && slots == placed
    {
      var job := s.jobId;
      var (absorbed, a) := AbsorbSlot(slots[job], s);
      AbsorbAtomic(slots[job], s);
      AbsorbKeepsSlotOk(slots[job], s);
      AbsorbedBytes(slots[job], s);
      if a.Err? {
        return a;
      }
      Count(job, absorbed, a.value.jobChanged);
      if a.value.coinbaseAdded.Some? && coinbaseBytes > budget {
        ghost var counted := slots;
        DropCoinbase(job, a.value.coinbaseAdded);
        SumUpdate(counted, job, ForgetSlot(counted[job], a.value.coinbaseAdded.value), HeldBy());
        return Err(REJECT_COINBASE_TOO_LARGE);
      }
      return a;
    }
  }

  // ---- what the total is --------------------------------------------------------------

  // Without a new job the slots hold what they held, but for this slot's sections.
  lemma PlacedBytes(slots: seq<Slot>, live: seq<byte>, job: byte, absorbed: Slot)
    requires |slots| == MAX_JOB_SLOTS
    ensures Sum(Placed(slots, live, job, absorbed, false), HeldBy())
            == Sum(slots, HeldBy()) - Held(slots[job].coinbases) + Held(absorbed.coinbases)
  {
    SumAtLeastMember(slots, job, HeldBy());
    SumUpdate(slots, job, absorbed, HeldBy());
  }

  // With one, everything the oldest of sixteen others held is gone too.
  lemma DisplacedBytes(slots: seq<Slot>, live: seq<byte>, job: byte, absorbed: Slot)
    requires |slots| == MAX_JOB_SLOTS && Distinct(live)
    ensures Sum(Placed(slots, live, job, absorbed, true), HeldBy())
            == Sum(Placed(slots, live, job, absorbed, false), HeldBy())
               - if |live| == 16 && job !in live then Held(slots[live[0]].coinbases) else 0
  {
    var placed := slots[job := absorbed];
    if Displaces(live, job) {
      var i := live[0];
      HeldNothing(0x100);
      SumAtLeastMember(placed, i, HeldBy());
      SumUpdate(placed, i, Slot(placed[i].job, map[], map[], map[], placed[i].includesCoinbase), HeldBy());
    }
  }

  // What a slot holds is the two halves of each of its sections.
  lemma {:induction false} HeldIsHalves(m: map<byte, CoinbaseSection>, ids: seq<byte>)
    requires forall i, j :: 0 <= i < j < |ids| ==> ids[i] != ids[j]
    requires forall id :: id in m <==> id in ids
    ensures Held(m) == Sum(ids, HalvesIn(m))
    decreases |ids|
  {
    if ids == [] {
      HeldNothing(0x100);
      assert m == map[];
    } else {
      var n := |ids| - 1;
      var id := ids[n];
      assert id in m;
      HeldForget(m, id, 0x100);
      forall other ensures other in m - {id} <==> other in ids[..n] {
        if other in m - {id} {
          var i :| 0 <= i < |ids| && ids[i] == other;
          assert ids[..n][i] == other;
        }
      }
      HeldIsHalves(m - {id}, ids[..n]);
      SameHalves(m, id, ids[..n]);
    }
  }

  ghost function HalvesIn(m: map<byte, CoinbaseSection>): byte -> nat {
    (id: byte) => if id in m then |m[id].coinb1| + |m[id].coinb2| else 0
  }

  lemma SameHalves(m: map<byte, CoinbaseSection>, id: byte, ids: seq<byte>)
    requires id !in ids
    ensures Sum(ids, HalvesIn(m - {id})) == Sum(ids, HalvesIn(m))
  {
    forall i | 0 <= i < |ids| ensures HalvesIn(m - {id})(ids[i]) == HalvesIn(m)(ids[i]) {
      assert ids[i] in ids;
    }
    SumAgrees(ids, ids, HalvesIn(m - {id}), HalvesIn(m));
  }

  lemma {:induction false} NothingHeld(none: Slot, n: nat)
    requires none.coinbases == map[]
    ensures Sum(seq(n, _ => none), HeldBy()) == 0
  {
    HeldNothing(0x100);
    if n > 0 {
      NothingHeld(none, n - 1);
      assert seq(n, _ => none)[..n - 1] == seq(n - 1, _ => none);
    }
  }
}
