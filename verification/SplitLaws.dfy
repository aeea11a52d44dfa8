// What a split guarantees: nothing is created or lost, the floors cost less than two
// sats per miner, and the capped form pays the best-ranked identities everything but
// the fee.
module SplitLaws {
  import opened Prelude
  import opened Ranking
  import opened Split

  // ---- one miner --------------------------------------------------------------------

  lemma WeightsAddUp(t: Terms, m: MinerStat)
    ensures t.FeeWeight(m) + t.KeepWeight(m) == 10_000 * m.work
  {
    var sw, dw := m.OnStratum(), m.work - m.OnStratum();
    var (s, d) := t.params.BpsFor(m.identity);
    Distribute(sw, s, 10_000 - s);
    Distribute(dw, d, 10_000 - d);
  }

  // The exact entitlement value * work / total lies between the two floors and the
  // two floors plus two.
  lemma MinerBounds(t: Terms, m: MinerStat)
    requires t.totalWork > 0
    ensures (t.Earned(m) + t.FeeOf(m)) * (t.totalWork * 10_000) <= t.value * 10_000 * m.work
    ensures t.value * 10_000 * m.work < (t.Earned(m) + t.FeeOf(m) + 2) * (t.totalWork * 10_000)
  {
    var d := t.totalWork * 10_000;
    var k, f := t.KeepWeight(m), t.FeeWeight(m);
    DivDivBounds(t.value * k, t.totalWork, 10_000);
    DivDivBounds(t.value * f, t.totalWork, 10_000);
    WeightsAddUp(t, m);
    var e, g := t.Earned(m), t.FeeOf(m);
    assert e * d <= t.value * k < (e + 1) * d;
    assert g * d <= t.value * f < (g + 1) * d;
    assert t.value * k + t.value * f == t.value * (k + f) == t.value * 10_000 * m.work by {
      Distribute(t.value, k, f);
      assert t.value * (10_000 * m.work) == t.value * 10_000 * m.work;
    }
    Distribute(d, e, g);
    Distribute(d, e + 1, g + 1);
  }

  // ---- the window pass --------------------------------------------------------------

  lemma {:induction false} WindowBounds(t: Terms, ms: seq<MinerStat>)
    requires t.totalWork > 0
    ensures (Sum(ms, EarnedIn(t)) + Sum(ms, FeeIn(t))) * (t.totalWork * 10_000) <= t.value * 10_000 * Sum(ms, WorkOf())
    ensures ms != [] ==>
      t.value * 10_000 * Sum(ms, WorkOf())
      < (Sum(ms, EarnedIn(t)) + Sum(ms, FeeIn(t)) + 2 * |ms|) * (t.totalWork * 10_000)
  {
    if ms != [] {
      var init, m := ms[..|ms| - 1], ms[|ms| - 1];
      WindowBounds(t, init);
      MinerBounds(t, m);
      var d := t.totalWork * 10_000;
      var v := t.value * 10_000;
      Distribute(v, Sum(init, WorkOf()), m.work);
      var a, b := Sum(init, EarnedIn(t)) + Sum(init, FeeIn(t)), t.Earned(m) + t.FeeOf(m);
      Distribute(d, a, b);
      Distribute(d, a + 2 * |init|, b + 2);
    }
  }

  lemma CancelTotal(v: nat, s: nat, n: nat, total: nat)
    requires total > 0
    requires s * (total * 10_000) <= v * 10_000 * total < (s + n) * (total * 10_000)
    ensures s <= v < s + n
  {
    assert v * 10_000 * total == v * (total * 10_000);
    MulCancel(s, v, total * 10_000);
    MulCancelStrict(v, s + n, total * 10_000);
  }

  // Rounding: what the two floors per miner leave unassigned.
  lemma RoundingLoss(t: Terms, ms: seq<MinerStat>)
    requires Sane(t, ms) && t.totalWork > 0
    ensures 0 <= t.value - (Sum(ms, EarnedIn(t)) + Sum(ms, FeeIn(t))) < 2 * |ms|
  {
    WindowBounds(t, ms);
    assert ms != [];
    CancelTotal(t.value, Sum(ms, EarnedIn(t)) + Sum(ms, FeeIn(t)), 2 * |ms|, t.totalWork);
  }

  lemma PrefixAffordable(t: Terms, ms: seq<MinerStat>, k: nat)
    requires Sane(t, ms) && t.totalWork > 0 && k <= |ms|
    ensures Sum(ms[..k], EarnedIn(t)) + Sum(ms[..k], FeeIn(t)) <= t.value
  {
    SumMonotone(ms, k, EarnedIn(t));
    SumMonotone(ms, k, FeeIn(t));
    RoundingLoss(t, ms);
  }

  // How often a name with a given amount occurs among miners (with what they earned),
  // payees and unpaid entries.
  ghost function MinerIs(t: Terms, id: string, sats: nat): MinerStat -> nat {
    (m: MinerStat) => if m.identity == id && t.Earned(m) == sats then 1 else 0
  }

  ghost function PayeeIs(id: string, sats: nat): Payee -> nat {
    (q: Payee) => if q.identity == id && q.sats == sats then 1 else 0
  }

  ghost function UnpaidIs(id: string, sats: nat): Unpaid -> nat {
    (u: Unpaid) => if u.identity == id && u.sats == sats then 1 else 0
  }

  ghost function Places(st: Stage, id: string, sats: nat): nat {
    Sum(st.payees, PayeeIs(id, sats)) + Sum(st.unpaid, UnpaidIs(id, sats))
  }

  lemma StepPlaces(t: Terms, st: Stage, m: MinerStat, id: string, sats: nat)
    ensures Places(BaseStep(t, st, m), id, sats) == Places(st, id, sats) + MinerIs(t, id, sats)(m)
  {
    var st' := BaseStep(t, st, m);
    if st'.payees != st.payees {
      SumSnoc(st.payees, st'.payees[|st.payees|], PayeeIs(id, sats));
    } else {
      SumSnoc(st.unpaid, st'.unpaid[|st.unpaid|], UnpaidIs(id, sats));
    }
  }

  // Every miner is placed exactly once, payee or unpaid, for exactly what it earned.
  lemma {:induction false} EveryMinerPlacedOnce(t: Terms, ms: seq<MinerStat>, id: string, sats: nat)
    requires t.totalWork > 0
    ensures Places(Base(t, ms), id, sats) == Sum(ms, MinerIs(t, id, sats))
  {
    if ms != [] {
      var init, m := ms[..|ms| - 1], ms[|ms| - 1];
      EveryMinerPlacedOnce(t, init, id, sats);
      StepPlaces(t, Base(t, init), m, id, sats);
    }
  }

  lemma {:induction false} BaseSumsToEarned(t: Terms, ms: seq<MinerStat>)
    requires t.totalWork > 0
    ensures Sum(Base(t, ms).payees, SatsOf()) + Sum(Base(t, ms).unpaid, UnpaidSats()) == Sum(ms, EarnedIn(t))
  {
    if ms != [] {
      var init, m := ms[..|ms| - 1], ms[|ms| - 1];
      BaseSumsToEarned(t, init);
      var st, st' := Base(t, init), Base(t, ms);
      assert st' == BaseStep(t, st, m);
      if |st'.payees| > |st.payees| {
        SumSnoc(st.payees, st'.payees[|st.payees|], SatsOf());
      } else {
        SumSnoc(st.unpaid, st'.unpaid[|st.unpaid|], UnpaidSats());
      }
    }
  }

  // Names in the window pass come from the window, in its order, without repeats.
  lemma {:induction false} BaseNames(t: Terms, ms: seq<MinerStat>)
    requires UniqueMiners(ms)
    ensures UniquePayees(Base(t, ms).payees)
    ensures forall q :: q in Base(t, ms).payees ==>
              exists i :: 0 <= i < |ms| && ms[i].identity == q.identity && ms[i].work == q.work
                          && q.sats == t.Earned(ms[i]) && t.scriptFor(q.identity) == Some(q.script)
  {
    if t.totalWork != 0 && ms != [] {
      var init, m := ms[..|ms| - 1], ms[|ms| - 1];
      BaseNames(t, init);
      var st, st' := Base(t, init), Base(t, ms);
      assert st' == BaseStep(t, st, m);
      forall q | q in st'.payees
        ensures exists i :: 0 <= i < |ms| && ms[i].identity == q.identity && ms[i].work == q.work
                            && q.sats == t.Earned(ms[i]) && t.scriptFor(q.identity) == Some(q.script)
      {
        if q in st.payees {
          var i :| 0 <= i < |init| && init[i].identity == q.identity && init[i].work == q.work
                   && q.sats == t.Earned(init[i]) && t.scriptFor(q.identity) == Some(q.script);
          assert ms[i] == init[i];
        } else {
          assert ms[|ms| - 1] == m;
        }
      }
      forall i | 0 <= i < |st.payees| ensures st.payees[i].identity != m.identity {
        assert st.payees[i] in st.payees;
      }
    }
  }

  // Classic split, before carry: payees, unpaid and fee account for the whole value up
  // to less than two sats per miner, and every miner is in exactly one list.
  lemma ClassicAccounts(t: Terms, ms: seq<MinerStat>)
    requires Sane(t, ms) && t.totalWork > 0 && t.params.maxPayees == 0
    ensures var st := AfterCut(t, ms);
            var placed := SplitFee(t, ms) + Sum(st.unpaid, UnpaidSats()) + Sum(st.payees, SatsOf());
            && 0 <= t.value - placed < 2 * |ms|
            && forall id, sats :: Places(st, id, sats) == Sum(ms, MinerIs(t, id, sats))
  {
    RoundingLoss(t, ms);
    BaseSumsToEarned(t, ms);
    forall id, sats
      ensures Places(AfterCut(t, ms), id, sats) == Sum(ms, MinerIs(t, id, sats))
    {
      EveryMinerPlacedOnce(t, ms, id, sats);
    }
  }

  lemma BaseAffordable(t: Terms, ms: seq<MinerStat>)
    requires Sane(t, ms)
    ensures Sum(Base(t, ms).payees, SatsOf()) <= t.value
  {
    if t.totalWork > 0 {
      BaseSumsToEarned(t, ms);
      RoundingLoss(t, ms);
    }
  }

  // ---- the cut ----------------------------------------------------------------------

  lemma {:induction false} FeeWeightBounded(t: Terms, ms: seq<MinerStat>)
    ensures Sum(ms, FeeWeightIn(t)) <= 10_000 * Sum(ms, WorkOf())
  {
    if ms != [] {
      FeeWeightBounded(t, ms[..|ms| - 1]);
      WeightsAddUp(t, ms[|ms| - 1]);
    }
  }

  lemma FractionBounded(v: nat, n: nat, total: nat)
    requires total > 0 && n <= 10_000 * total
    ensures FeeFraction(v, n, total) <= v
  {
    var d, r := total * 10_000, FeeFraction(v, n, total);
    DivDivBounds(v * n, total, 10_000);
    MulMono(n, d, v);
    MulCancel(r, v, d);
  }

  lemma FeeAffordable(t: Terms, ms: seq<MinerStat>)
    requires Sane(t, ms)
    ensures SplitFee(t, ms) <= t.value
  {
    if t.totalWork > 0 {
      if Cuts(t, Base(t, ms)) {
        FeeWeightBounded(t, ms);
        FractionBounded(t.value, Sum(ms, FeeWeightIn(t)), t.totalWork);
      } else {
        RoundingLoss(t, ms);
      }
    }
  }

  ghost function ShareIn(d: nat, w: nat): Payee -> nat {
    (q: Payee) => d * q.work / Max(w, 1)
  }

  lemma ProportionsBounded(d: nat, w: nat, qs: seq<Payee>)
    ensures Sum(Proportions(d, w, qs), SatsOf()) * Max(w, 1) <= d * Sum(qs, PayeeWork())
  {
    FlooredSharesFit(qs, PayeeWork(), ShareIn(d, w), d, Max(w, 1));
    SumAgrees(Proportions(d, w, qs), qs, SatsOf(), ShareIn(d, w));
  }

  lemma SharesFit(t: Terms, ms: seq<MinerStat>)
    requires Sane(t, ms)
    ensures Sum(Shares(t, ms), SatsOf()) <= SatSub(t.value, SplitFee(t, ms))
  {
    var kept := Kept(t, Base(t, ms));
    var d, w := SatSub(t.value, SplitFee(t, ms)), Sum(kept, PayeeWork());
    ProportionsBounded(d, w, kept);
    MulMono(w, Max(w, 1), d);
    MulCancel(Sum(Shares(t, ms), SatsOf()), d, Max(w, 1));
  }

  // The capped split leaves nothing over: what it pays out is the value less the fee.
  lemma CutPaysAllButFee(t: Terms, ms: seq<MinerStat>)
    requires Sane(t, ms) && Cuts(t, Base(t, ms))
    ensures Sum(AfterCut(t, ms).payees, SatsOf()) == t.value - SplitFee(t, ms)
  {
    FeeAffordable(t, ms);
    SharesFit(t, ms);
    var shares := Shares(t, ms);
    var i := LastMax(shares);
    SumUpdate(shares, i, shares[i].(sats := shares[i].sats + Dust(t, ms)), SatsOf());
  }

  lemma AfterCutAffordable(t: Terms, ms: seq<MinerStat>)
    requires Sane(t, ms)
    ensures Sum(AfterCut(t, ms).payees, SatsOf()) <= t.value
  {
    if Cuts(t, Base(t, ms)) {
      CutPaysAllButFee(t, ms);
    } else {
      BaseAffordable(t, ms);
    }
  }

  // ---- carry-forward ----------------------------------------------------------------

  // The three things a carry step can do: nothing, raise an output, open an output.
  lemma CarryStepShape(t: Terms, cs: CarryStage, id: string, owed: nat) returns (script: Script)
    ensures var c, hit, give := CarryStep(t, cs, id, owed), FindPayee(cs.payees, id), Min(owed, cs.room);
            || c == cs
            || (&& c.room == cs.room - give && c.gives == cs.gives + [Paid(id, give)]
                && if hit.Some? then c.payees == AddSats(cs.payees, hit.value, give)
                   else c.payees == cs.payees + [Payee(id, 0, give, script)])
  {
    script := if t.scriptFor(id).Some? then t.scriptFor(id).value else [];
  }

  lemma RaiseAddsTo(qs: seq<Payee>, i: nat, give: nat, f: Payee -> nat)
    requires i < |qs|
    ensures Sum(AddSats(qs, i, give), f) + f(qs[i]) == Sum(qs, f) + f(qs[i].(sats := qs[i].sats + give))
  {
    SumUpdate(qs, i, qs[i].(sats := qs[i].sats + give), f);
  }

  lemma CarryStepBalances(t: Terms, cs: CarryStage, id: string, owed: nat)
    ensures var c := CarryStep(t, cs, id, owed);
            && Sum(c.payees, SatsOf()) + c.room == Sum(cs.payees, SatsOf()) + cs.room
            && Sum(c.gives, PaidSats()) + c.room == Sum(cs.gives, PaidSats()) + cs.room
  {
    var script := CarryStepShape(t, cs, id, owed);
    var hit, give := FindPayee(cs.payees, id), Min(owed, cs.room);
    SumSnoc(cs.gives, Paid(id, give), PaidSats());
    SumSnoc(cs.payees, Payee(id, 0, give, script), SatsOf());
    if hit.Some? {
      RaiseAddsTo(cs.payees, hit.value, give, SatsOf());
    }
  }

  lemma {:induction false} CarryBalances(t: Terms, cs: CarryStage, keys: seq<string>, owed: map<string, nat>)
    ensures var c := CarryFold(t, cs, keys, owed);
            && Sum(c.payees, SatsOf()) + c.room == Sum(cs.payees, SatsOf()) + cs.room
            && Sum(c.gives, PaidSats()) + c.room == Sum(cs.gives, PaidSats()) + cs.room
  {
    if keys != [] {
      var init, k := keys[..|keys| - 1], keys[|keys| - 1];
      CarryBalances(t, cs, init, owed);
      CarryStepBalances(t, CarryFold(t, cs, init, owed), k, Due(owed, k));
    }
  }

  lemma {:induction false} FoldConcat(t: Terms, cs: CarryStage, a: seq<string>, b: seq<string>, owed: map<string, nat>)
    ensures CarryFold(t, cs, a + b, owed) == CarryFold(t, CarryFold(t, cs, a, owed), b, owed)
    decreases |b|
  {
    if b == [] {
      assert a + b == a;
    } else {
      assert (a + b)[..|a + b| - 1] == a + b[..|b| - 1];
      FoldConcat(t, cs, a, b[..|b| - 1], owed);
    }
  }

  // Every split, capped or not, with any carry: outputs sum to the block value and the
  // final saturating subtraction never clips; what the carry got is what the pool lost.
  lemma SplitConserves(t: Terms, ms: seq<MinerStat>, owed: map<string, nat>)
    requires Sane(t, ms)
    ensures var s := SplitOf(t, ms, owed);
            && Sum(s.payees, SatsOf()) <= t.value
            && Sum(s.payees, SatsOf()) + s.poolSats == t.value
            && s.poolSats + Sum(s.carryPaid, PaidSats()) == t.value - Sum(AfterCut(t, ms).payees, SatsOf())
            && s.poolSats == AfterCarry(t, ms, owed).room
  {
    AfterCutAffordable(t, ms);
    CarryBalances(t, BeforeCarry(t, ms), SortedKeys(owed.Keys), owed);
  }
}
