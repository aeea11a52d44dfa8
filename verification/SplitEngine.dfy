// The split as the program runs it: one loop over the miners, edits in place for the
// cut, one loop over the carry. Machine-integer locals make every u64 and u128
// computation carry a proof that it neither wraps nor truncates.
module SplitEngine {
  import opened Prelude
  import opened Ranking
  import opened Split
  import opened SplitLaws
  import opened CappedLaws

  lemma WindowProductsFit(t: Terms, ms: seq<MinerStat>, i: nat)
    requires Sane(t, ms) && i < |ms|
    ensures t.value * t.KeepWeight(ms[i]) < 0x1_0000_0000_0000_0000_0000_0000_0000_0000
    ensures t.value * t.FeeWeight(ms[i]) < 0x1_0000_0000_0000_0000_0000_0000_0000_0000
  {
    WeightsAddUp(t, ms[i]);
    SumAtLeastMember(ms, i, WorkOf());
    MulMono(t.KeepWeight(ms[i]), t.totalWork * 10_000, t.value);
    MulMono(t.FeeWeight(ms[i]), t.totalWork * 10_000, t.value);
    assert t.value * (t.totalWork * 10_000) == t.value * t.totalWork * 10_000;
  }

  lemma FeeWeightPrefixFits(t: Terms, ms: seq<MinerStat>, k: nat)
    requires Sane(t, ms) && k <= |ms|
    ensures Sum(ms[..k], FeeWeightIn(t)) <= 10_000 * U64_MAX
  {
    SumMonotone(ms, k, FeeWeightIn(t));
    FeeWeightBounded(t, ms);
  }

  // Pay one miner, or say why not.
  method Place(t: Terms, st: Stage, m: MinerStat, sats: nat) returns (next: Stage, paid: nat)
    requires sats == t.Earned(m)
    ensures next == BaseStep(t, st, m)
    ensures paid <= sats && Sum(next.payees, SatsOf()) == Sum(st.payees, SatsOf()) + paid
  {
    if sats < t.params.minPayout {
      return st.(unpaid := st.unpaid + [Unpaid(m.identity, sats, BelowMinimum)]), 0;
    }
    var script := t.scriptFor(m.identity);
    if script.None? {
      return st.(unpaid := st.unpaid + [Unpaid(m.identity, sats, NoScript)]), 0;
    }
    var need := OutputBytes(script.value);
    if |st.payees| >= t.params.maxOutputs || st.bytes + need > t.params.outputBudgetBytes {
      return st.(unpaid := st.unpaid + [Unpaid(m.identity, sats, OverBudget)]), 0;
    }
    var q := Payee(m.identity, m.work, sats, script.value);
    SumSnoc(st.payees, q, SatsOf());
    return st.(payees := st.payees + [q], bytes := st.bytes + need), sats;
  }

  // Both floors for one miner, from products that fit 128 bits.
  method Amounts(t: Terms, m: MinerStat) returns (sats: nat, fee: nat)
    requires t.totalWork > 0
    requires t.value * t.KeepWeight(m) < 0x1_0000_0000_0000_0000_0000_0000_0000_0000
    requires t.value * t.FeeWeight(m) < 0x1_0000_0000_0000_0000_0000_0000_0000_0000
    ensures sats == t.Earned(m) && fee == t.FeeOf(m)
  {
    var forMiner: u128, forFee: u128 := t.value * t.KeepWeight(m), t.value * t.FeeWeight(m);
    sats, fee := forMiner / t.totalWork / 10_000, forFee / t.totalWork / 10_000;
  }

  method PayWindow(t: Terms, ms: seq<MinerStat>)
    returns (st: Stage, paid: u64, feeSats: u64, feeNum: u128)
    requires Sane(t, ms) && t.totalWork > 0
    ensures st == Base(t, ms)
    ensures paid == Sum(st.payees, SatsOf())
    ensures feeSats == Sum(ms, FeeIn(t))
    ensures feeNum == Sum(ms, FeeWeightIn(t))
  {
    st, paid, feeSats, feeNum := Stage([], [], 0), 0, 0, 0;
    for i := 0 to |ms|
      invariant st == Base(t, ms[..i])
      invariant paid == Sum(st.payees, SatsOf())
      invariant feeSats == Sum(ms[..i], FeeIn(t))
      invariant feeNum == Sum(ms[..i], FeeWeightIn(t))
    {
      StepFacts(t, ms, i);
      feeNum := feeNum + t.FeeWeight(ms[i]);
      var sats, fee := Amounts(t, ms[i]);
      feeSats := SatAdd(feeSats, fee);
      var now: nat;
      st, now := Place(t, st, ms[i], sats);
      paid := paid + now;
    }
    assert ms[..|ms|] == ms;
  }

  // What one pass of the window loop may rely on.
  lemma StepFacts(t: Terms, ms: seq<MinerStat>, i: nat)
    requires Sane(t, ms) && t.totalWork > 0 && i < |ms|
    ensures Base(t, ms[..i + 1]) == BaseStep(t, Base(t, ms[..i]), ms[i])
    ensures t.value * t.KeepWeight(ms[i]) < 0x1_0000_0000_0000_0000_0000_0000_0000_0000
    ensures t.value * t.FeeWeight(ms[i]) < 0x1_0000_0000_0000_0000_0000_0000_0000_0000
    ensures Sum(ms[..i + 1], FeeIn(t)) == Sum(ms[..i], FeeIn(t)) + t.FeeOf(ms[i]) <= U64_MAX
    ensures Sum(ms[..i + 1], FeeWeightIn(t)) == Sum(ms[..i], FeeWeightIn(t)) + t.FeeWeight(ms[i]) <= 10_000 * U64_MAX
    ensures Sum(Base(t, ms[..i]).payees, SatsOf()) + t.Earned(ms[i]) <= U64_MAX
  {
    assert ms[..i + 1][..i] == ms[..i];
    WindowProductsFit(t, ms, i);
    SumPrefix(ms, i, FeeIn(t));
    SumPrefix(ms, i, FeeWeightIn(t));
    SumPrefix(ms, i, EarnedIn(t));
    PrefixAffordable(t, ms, i + 1);
    FeeWeightPrefixFits(t, ms, i + 1);
    BaseSumsToEarned(t, ms[..i]);
  }

  method CutToLargest(t: Terms, ghost ms: seq<MinerStat>, st: Stage, feeNum: u128)
    returns (next: Stage, paid: u64, feeSats: u64)
    requires Sane(t, ms) && t.totalWork > 0 && st == Base(t, ms) && Cuts(t, st)
    requires feeNum == Sum(ms, FeeWeightIn(t))
    ensures next == AfterCut(t, ms)
    ensures feeSats == SplitFee(t, ms)
    ensures paid == Sum(next.payees, SatsOf())
  {
    FeeAffordable(t, ms);
    FeeNumFits(t, ms);
    var scaledFee: u128 := t.value * feeNum;
    feeSats := scaledFee / Max(t.totalWork, 1) / 10_000;
    var payees, unpaid := KeepLargest(t, st);
    var distributable: u64 := SatSub(t.value, feeSats);
    var keptWork: u128 := SumWork(t, ms, payees);
    SharesFit(t, ms);
    forall i | 0 <= i < |payees| ensures Fits128(distributable, payees[i].work) {
      SumAtLeastMember(payees, i, PayeeWork());
      ProductFits(t, distributable, payees[i].work);
    }
    var sum: u64;
    payees, sum := ShareOut(payees, distributable, keptWork);
    var top := Top(payees);
    CutPaysAllButFee(t, ms);
    next := Stage(AddSats(payees, top, distributable - sum), unpaid, st.bytes);
    paid := distributable;
  }

  method KeepLargest(t: Terms, st: Stage) returns (payees: seq<Payee>, unpaid: seq<Unpaid>)
    requires Cuts(t, st)
    ensures payees == Kept(t, st)
    ensures unpaid == st.unpaid + BelowCutEntries(Dropped(t, st))
  {
    payees, unpaid := Sort(st.payees, PayeeRank), st.unpaid;
    if |payees| > t.params.maxPayees {
      var dropped := payees[t.params.maxPayees..];
      payees := payees[..t.params.maxPayees];
      for i := 0 to |dropped|
        invariant unpaid == st.unpaid + BelowCutEntries(dropped)[..i]
      {
        unpaid := unpaid + [Unpaid(dropped[i].identity, dropped[i].sats, BelowCut)];
      }
      assert BelowCutEntries(dropped)[..|dropped|] == BelowCutEntries(dropped);
    }
  }

  // `max_by_key`: among equal maxima the last one wins.
  method Top(payees: seq<Payee>) returns (top: nat)
    requires payees != []
    ensures top == LastMax(payees)
  {
    top := 0;
    for i := 1 to |payees|
      invariant top < i && top == LastMax(payees[..i])
    {
      assert payees[..i + 1][..i] == payees[..i];
      if payees[i].sats >= payees[top].sats {
        top := i;
      }
    }
    assert payees[..|payees|] == payees;
  }

  lemma FeeNumFits(t: Terms, ms: seq<MinerStat>)
    requires Sane(t, ms)
    ensures t.value * Sum(ms, FeeWeightIn(t)) < 0x1_0000_0000_0000_0000_0000_0000_0000_0000
  {
    FeeWeightBounded(t, ms);
    MulMono(Sum(ms, FeeWeightIn(t)), t.totalWork * 10_000, t.value);
    assert t.value * (t.totalWork * 10_000) == t.value * t.totalWork * 10_000;
  }

  method SumWork(t: Terms, ghost ms: seq<MinerStat>, kept: seq<Payee>) returns (w: u128)
    requires Sane(t, ms) && t.totalWork > 0 && Cuts(t, Base(t, ms)) && kept == Kept(t, Base(t, ms))
    ensures w == Sum(kept, PayeeWork()) <= t.totalWork
  {
    w := 0;
    KeptWorkBounded(t, ms);
    for i := 0 to |kept|
      invariant w == Sum(kept[..i], PayeeWork())
    {
      SumPrefix(kept, i, PayeeWork());
      SumMonotone(kept, i + 1, PayeeWork());
      w := w + kept[i].work;
    }
    assert kept[..|kept|] == kept;
  }

  method ShareOut(kept: seq<Payee>, distributable: u64, keptWork: u128) returns (payees: seq<Payee>, sum: u64)
    requires forall i :: 0 <= i < |kept| ==> Fits128(distributable, kept[i].work)
    requires Sum(Proportions(distributable, keptWork, kept), SatsOf()) <= U64_MAX
    ensures payees == Proportions(distributable, keptWork, kept)
    ensures sum == Sum(payees, SatsOf())
  {
    payees, sum := kept, 0;
    ghost var shares := Proportions(distributable, keptWork, kept);
    for i := 0 to |kept|
      invariant |payees| == |kept|
      invariant forall j :: 0 <= j < i ==> payees[j] == shares[j]
      invariant forall j :: i <= j < |kept| ==> payees[j] == kept[j]
      invariant sum == Sum(shares[..i], SatsOf())
    {
      SumPrefix(shares, i, SatsOf());
      SumMonotone(shares, i + 1, SatsOf());
      var share := OneShare(distributable, keptWork, payees[i]);
      payees := payees[i := share];
      sum := sum + share.sats;
    }
    assert shares[..|kept|] == shares;
    assert payees == shares;
  }

  predicate Fits128(a: nat, b: nat) {
    a * b < 0x1_0000_0000_0000_0000_0000_0000_0000_0000
  }

  method OneShare(distributable: u64, keptWork: u128, q: Payee) returns (r: Payee)
    requires Fits128(distributable, q.work)
    ensures r == Proportional(distributable, keptWork, q)
  {
    var product: u128 := distributable * q.work;
    r := q.(sats := product / Max(keptWork, 1));
  }

  lemma ProductFits(t: Terms, d: u64, w: nat)
    requires d <= t.value && w <= t.totalWork
    requires t.value * t.totalWork * 10_000 < 0x1_0000_0000_0000_0000_0000_0000_0000_0000
    ensures Fits128(d, w)
  {
    MulMono(d, t.value, w);
    MulMono(w, t.totalWork, t.value);
  }

  // ---- carry ------------------------------------------------------------------------

  lemma {:induction false} NoRoomNoChange(t: Terms, cs: CarryStage, a: seq<string>, b: seq<string>, owed: map<string, nat>)
    requires CarryFold(t, cs, a, owed).room == 0
    ensures CarryFold(t, cs, a + b, owed) == CarryFold(t, cs, a, owed)
    decreases |b|
  {
    if b == [] {
      assert a + b == a;
    } else {
      assert (a + b)[..|a + b| - 1] == a + b[..|b| - 1];
      NoRoomNoChange(t, cs, a, b[..|b| - 1], owed);
    }
  }

  // One identity of the carry loop: raise its output, or open a new one if that is
  // payable and fits, or leave it owed.
  method PayOwed(t: Terms, cs: CarryStage, identity: string, due: nat) returns (next: CarryStage)
    requires cs.room > 0
    ensures next == CarryStep(t, cs, identity, due)
  {
    if due == 0 {
      return cs;
    }
    var payees, bytes := cs.payees, cs.bytes;
    var give := Min(due, cs.room);
    var hit := FindPayee(payees, identity);
    if hit.Some? {
      payees := AddSats(payees, hit.value, give);
    } else {
      if give < t.params.minPayout {
        return cs;
      }
      var script := t.scriptFor(identity);
      if script.None? {
        return cs;
      }
      var need := OutputBytes(script.value);
      if |payees| >= t.params.maxOutputs || bytes + need > t.params.outputBudgetBytes {
        return cs;
      }
      bytes := bytes + need;
      payees := payees + [Payee(identity, 0, give, script.value)];
    }
    next := CarryStage(payees, bytes, cs.room - give, cs.gives + [Paid(identity, give)]);
  }

  method PayCarry(t: Terms, start: CarryStage, owed: map<string, nat>) returns (cs: CarryStage)
    ensures cs == CarryFold(t, start, SortedKeys(owed.Keys), owed)
  {
    var keys := KeysInOrder(owed.Keys);
    cs := start;
    for i := 0 to |keys|
      invariant cs == CarryFold(t, start, keys[..i], owed)
    {
      if cs.room == 0 {
        NoRoomNoChange(t, start, keys[..i], keys[i..], owed);
        assert keys[..i] + keys[i..] == keys;
        return;
      }
      assert keys[..i + 1][..i] == keys[..i];
      cs := PayOwed(t, cs, keys[i], Due(owed, keys[i]));
    }
    assert keys[..|keys|] == keys;
  }

  method ComputeWithCarry(t: Terms, ms: seq<MinerStat>, owed: map<string, nat>) returns (s: Split)
    requires Sane(t, ms)
    ensures s == SplitOf(t, ms, owed)
    ensures Sum(s.payees, SatsOf()) + s.poolSats == t.value
  {
    var st, gives := Stage([], [], 0), [];
    var feeSats: u64, paid: u64, feeNum: u128 := 0, 0, 0;
    if t.totalWork > 0 {
      st, paid, feeSats, feeNum := PayWindow(t, ms);
    }
    if t.params.maxPayees > 0 && st.payees != [] {
      st, paid, feeSats := CutToLargest(t, ms, st, feeNum);
    }
    AfterCutAffordable(t, ms);
    SplitConserves(t, ms, owed);
    if owed == map[] {
      assert owed.Keys == {} && SortedKeys(owed.Keys) == [];
    } else {
      var room := SatSub(t.value, paid);
      var cs := PayCarry(t, CarryStage(st.payees, st.bytes, room, []), owed);
      st, gives := st.(payees := cs.payees), cs.gives;
      paid := paid + (room - cs.room);
    }
    s := Split(t.value, feeSats, t.totalWork, st.payees, st.unpaid, gives, SatSub(t.value, paid));
  }
}
