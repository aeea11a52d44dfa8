// The capped split ("pay the largest, in full"): who is paid, that the pool keeps the
// fee to the sat, and when no kept identity is worse off than without the cap.
module CappedLaws {
  import opened Prelude
  import opened Ranking
  import opened Split
  import opened SplitLaws

  lemma {:induction false} BaseWorkBounded(t: Terms, ms: seq<MinerStat>)
    requires t.totalWork > 0
    ensures Sum(Base(t, ms).payees, PayeeWork()) <= Sum(ms, WorkOf())
  {
    if ms != [] {
      var init, m := ms[..|ms| - 1], ms[|ms| - 1];
      BaseWorkBounded(t, init);
      var st, st' := Base(t, init), Base(t, ms);
      assert st' == BaseStep(t, st, m);
      if |st'.payees| > |st.payees| {
        SumSnoc(st.payees, st'.payees[|st.payees|], PayeeWork());
      }
    }
  }

  lemma KeptWorkBounded(t: Terms, ms: seq<MinerStat>)
    requires Sane(t, ms) && Cuts(t, Base(t, ms))
    ensures Sum(Kept(t, Base(t, ms)), PayeeWork()) <= t.totalWork
  {
    var st := Base(t, ms);
    var sorted := Sort(st.payees, PayeeRank);
    SortSum(st.payees, PayeeRank, PayeeWork());
    BaseWorkBounded(t, ms);
    if |sorted| > t.params.maxPayees {
      SumMonotone(sorted, t.params.maxPayees, PayeeWork());
    }
  }

  lemma EligibleSorted(t: Terms, ms: seq<MinerStat>)
    requires Sane(t, ms)
    ensures var sorted := Sort(Base(t, ms).payees, PayeeRank);
            && Ranked(sorted, PayeeRank)
            && |sorted| == |Base(t, ms).payees|
            && forall q :: q in sorted <==> q in Base(t, ms).payees
  {
    var qs := Base(t, ms).payees;
    BaseNames(t, ms);
    SortMultiset(qs, PayeeRank);
    SortRanked(qs, PayeeRank);
    forall q ensures q in Sort(qs, PayeeRank) <==> q in qs {
      assert q in multiset(Sort(qs, PayeeRank)) <==> q in multiset(qs);
    }
  }

  // The same entry but for the amount.
  predicate SameEntry(a: Payee, b: Payee) {
    a.identity == b.identity && a.work == b.work && a.script == b.script
  }

  // The capped payees are exactly the best-ranked of the eligible, in rank order; every
  // other eligible identity ranks after all of them and is recorded as below the cut.
  ghost predicate IsTopOf(paid: seq<Payee>, unpaid: seq<Unpaid>, eligible: seq<Payee>, k: nat) {
    && Ranked(paid, PayeeRank)
    && |paid| == Min(k, |eligible|)
    && (forall p :: p in paid ==> exists q :: q in eligible && SameEntry(p, q))
    && (forall q :: q in eligible ==>
          || (exists p :: p in paid && SameEntry(p, q))
          || (&& Unpaid(q.identity, q.sats, BelowCut) in unpaid
              && forall p :: p in paid ==> Before(PayeeRank(p), PayeeRank(q))))
  }

  lemma TopOfSorted(eligible: seq<Payee>, sorted: seq<Payee>, k: nat, paid: seq<Payee>, unpaid: seq<Unpaid>)
    requires Ranked(sorted, PayeeRank) && |sorted| == |eligible|
    requires forall q :: q in sorted <==> q in eligible
    requires |paid| == Min(k, |sorted|) && forall i :: 0 <= i < |paid| ==> SameEntry(paid[i], sorted[i])
    requires forall i :: k <= i < |sorted| ==> Unpaid(sorted[i].identity, sorted[i].sats, BelowCut) in unpaid
    ensures IsTopOf(paid, unpaid, eligible, k)
  {
    forall p | p in paid ensures exists q :: q in eligible && SameEntry(p, q) {
      var i :| 0 <= i < |paid| && paid[i] == p;
      assert sorted[i] in sorted;
    }
    forall q | q in eligible
      ensures || (exists p :: p in paid && SameEntry(p, q))
              || (&& Unpaid(q.identity, q.sats, BelowCut) in unpaid
                  && forall p :: p in paid ==> Before(PayeeRank(p), PayeeRank(q)))
    {
      var i :| 0 <= i < |sorted| && sorted[i] == q;
      if i < |paid| {
        assert paid[i] in paid && SameEntry(paid[i], q);
      } else {
        forall p | p in paid ensures Before(PayeeRank(p), PayeeRank(q)) {
          var j :| 0 <= j < |paid| && paid[j] == p;
          assert PayeeRank(p) == PayeeRank(sorted[j]);
        }
      }
    }
  }

  lemma DroppedListed(t: Terms, ms: seq<MinerStat>, i: nat)
    requires Cuts(t, Base(t, ms)) && t.params.maxPayees <= i < |Sort(Base(t, ms).payees, PayeeRank)|
    ensures var q := Sort(Base(t, ms).payees, PayeeRank)[i];
            Unpaid(q.identity, q.sats, BelowCut) in AfterCut(t, ms).unpaid
  {
    var dropped := Dropped(t, Base(t, ms));
    var cut := BelowCutEntries(dropped);
    assert cut[i - t.params.maxPayees] in cut;
  }

  lemma CutIsTop(t: Terms, ms: seq<MinerStat>)
    requires Sane(t, ms) && Cuts(t, Base(t, ms))
    ensures IsTopOf(AfterCut(t, ms).payees, AfterCut(t, ms).unpaid, Base(t, ms).payees, t.params.maxPayees)
  {
    var st, k := Base(t, ms), t.params.maxPayees;
    var paid, unpaid, sorted := AfterCut(t, ms).payees, AfterCut(t, ms).unpaid, Sort(st.payees, PayeeRank);
    EligibleSorted(t, ms);
    forall i | k <= i < |sorted| ensures Unpaid(sorted[i].identity, sorted[i].sats, BelowCut) in unpaid {
      DroppedListed(t, ms, i);
    }
    TopOfSorted(st.payees, sorted, k, paid, unpaid);
  }

  // With a cap, no carry and somebody payable: the payees are the top of the eligible,
  // they share everything but the fee, and the pool keeps exactly the fee.
  lemma CappedSplit(t: Terms, ms: seq<MinerStat>)
    requires Sane(t, ms) && t.params.maxPayees > 0 && Base(t, ms).payees != []
    ensures var s := SplitOf(t, ms, map[]);
            && IsTopOf(s.payees, s.unpaid, Base(t, ms).payees, t.params.maxPayees)
            && s.poolSats == s.feeSats == t.value * Sum(ms, FeeWeightIn(t)) / Max(t.totalWork, 1) / 10_000
            && Sum(s.payees, SatsOf()) == t.value - s.feeSats
            && s.carryPaid == []
  {
    CutIsTop(t, ms);
    CutPaysAllButFee(t, ms);
    SplitConserves(t, ms, map[]);
    var owed: map<string, nat> := map[];
    assert SortedKeys(owed.Keys) == [];
  }

  // ---- when a kept identity is not worse off ------------------------------------------

  lemma Regroup(a: nat, b: nat, c: nat)
    ensures a * (b * c) == (a * c) * b == (a * b) * c
  {
  }

  // The exact fee takes at most its part of the value.
  lemma FeePart(v: nat, n: nat, total: nat, f: nat)
    requires total > 0 && f == v * n / total / 10_000
    ensures f * (total * 10_000) <= v * n
  {
    DivDivBounds(v * n, total, 10_000);
  }

  lemma ScaleEarned(e: nat, u: nat, v: nat, k: nat, total: nat)
    requires e * u <= v * k
    ensures (e * total) * u <= v * (k * total)
  {
    MulMono(e * u, v * k, total);
    Regroup(total, e, u);
    Regroup(v, k, total);
  }

  lemma ScaleKept(kt: nat, w: nat, n: nat, u: nat, v: nat)
    requires kt + w * n <= w * u
    ensures v * kt + w * (v * n) <= w * (v * u)
  {
    MulMono(kt + w * n, w * u, v);
    Distribute(v, kt, w * n);
    Regroup(v, w, n);
    Regroup(v, w, u);
  }

  lemma ScaleLeft(v: nat, d: nat, n: nat, u: nat, w: nat)
    requires d <= v && (v - d) * u <= v * n
    ensures w * (v * u) <= (d * w) * u + w * (v * n)
  {
    Distribute(u, v - d, d);
    MulMono(v * u, d * u + v * n, w);
    Distribute(w, d * u, v * n);
    Regroup(w, d, u);
  }

  // e is what weight k earns of v, d what fee weight n leaves of it: if k's part of the
  // whole is no more than w's part of what the fee leaves, sharing d by work covers e.
  lemma ShareCovers(e: nat, d: nat, v: nat, k: nat, n: nat, w: nat, total: nat, u: nat, kept: nat)
    requires total > 0 && u > 0 && w <= kept <= total && d <= v
    requires e * u <= v * k && (v - d) * u <= v * n && k * total + w * n <= w * u
    ensures e * Max(kept, 1) <= d * w
  {
    ScaleEarned(e, u, v, k, total);
    ScaleKept(k * total, w, n, u, v);
    ScaleLeft(v, d, n, u, w);
    MulCancel(e * total, d * w, u);
    MulMono(Max(kept, 1), total, e);
  }

  // An identity charged at least the window's average rate is not worse off for the cut:
  // its share of what the fee leaves is at least what it earned.
  lemma AverageRateNotWorse(t: Terms, ms: seq<MinerStat>, m: MinerStat, kept: nat)
    requires Sane(t, ms) && t.totalWork > 0 && Cuts(t, Base(t, ms))
    requires m.work <= kept <= t.totalWork
    requires m.work * Sum(ms, FeeWeightIn(t)) <= t.FeeWeight(m) * t.totalWork
    ensures t.Earned(m) <= SatSub(t.value, SplitFee(t, ms)) * m.work / Max(kept, 1)
  {
    var n, e, f := Sum(ms, FeeWeightIn(t)), t.Earned(m), SplitFee(t, ms);
    var d := SatSub(t.value, f);
    FeeAffordable(t, ms);
    FeePart(t.value, n, t.totalWork, f);
    FeePart(t.value, t.KeepWeight(m), t.totalWork, e);
    WeightsAddUp(t, m);
    WeightsOfWhole(t.KeepWeight(m), t.FeeWeight(m), m.work, t.totalWork);
    ShareCovers(e, d, t.value, t.KeepWeight(m), n, m.work, t.totalWork, t.totalWork * 10_000, kept);
    DivAtLeast(d * m.work, Max(kept, 1), e);
  }

  lemma WeightsOfWhole(k: nat, f: nat, w: nat, total: nat)
    requires k + f == 10_000 * w
    ensures k * total + f * total == w * (total * 10_000)
  {
    Distribute(total, k, f);
    Regroup(w, total, 10_000);
  }

  // What the dust adds to the i-th payee.
  ghost function DustAt(t: Terms, ms: seq<MinerStat>, i: nat): nat
    requires Cuts(t, Base(t, ms))
  {
    if i == LastMax(Shares(t, ms)) then Dust(t, ms) else 0
  }

  // Exactly when the i-th kept payee gets at least what the window pass admitted it with:
  // when its work's part of what the fee leaves covers it, but for the dust.
  lemma KeptNotWorseIff(t: Terms, ms: seq<MinerStat>, i: nat)
    requires Cuts(t, Base(t, ms)) && i < |Kept(t, Base(t, ms))|
    ensures |AfterCut(t, ms).payees| == |Kept(t, Base(t, ms))|
    ensures var q, paid := Kept(t, Base(t, ms))[i], AfterCut(t, ms).payees[i];
            var d, w := SatSub(t.value, SplitFee(t, ms)), Sum(Kept(t, Base(t, ms)), PayeeWork());
            && SameEntry(q, paid)
            && (paid.sats >= q.sats <==>
                  q.sats <= DustAt(t, ms, i) || (q.sats - DustAt(t, ms, i)) * Max(w, 1) <= d * q.work)
  {
    var kept, shares := Kept(t, Base(t, ms)), Shares(t, ms);
    var d, w, extra := SatSub(t.value, SplitFee(t, ms)), Sum(kept, PayeeWork()), DustAt(t, ms, i);
    assert shares[i] == Proportional(d, w, kept[i]);
    DivAtLeast(d * kept[i].work, Max(w, 1), 0);
    if kept[i].sats > extra {
      DivAtLeast(d * kept[i].work, Max(w, 1), kept[i].sats - extra);
    }
  }

  // So with every kept identity charged at least the average rate, nobody kept is worse off.
  lemma KeptNotWorse(t: Terms, ms: seq<MinerStat>, i: nat)
    requires Sane(t, ms) && t.totalWork > 0 && Cuts(t, Base(t, ms)) && i < |AfterCut(t, ms).payees|
    requires forall m :: m in ms && m.identity == Kept(t, Base(t, ms))[i].identity ==>
               m.work * Sum(ms, FeeWeightIn(t)) <= t.FeeWeight(m) * t.totalWork
    ensures SameEntry(Kept(t, Base(t, ms))[i], AfterCut(t, ms).payees[i])
    ensures AfterCut(t, ms).payees[i].sats >= Kept(t, Base(t, ms))[i].sats
  {
    var kept := Kept(t, Base(t, ms));
    var j := MinerOfKept(t, ms, i);
    KeptWorkBounded(t, ms);
    SumAtLeastMember(kept, i, PayeeWork());
    assert ms[j] in ms;
    AverageRateNotWorse(t, ms, ms[j], Sum(kept, PayeeWork()));
    var d, w := SatSub(t.value, SplitFee(t, ms)), Sum(kept, PayeeWork());
    assert Shares(t, ms)[i] == Proportional(d, w, kept[i]);
  }

  lemma MinerOfKept(t: Terms, ms: seq<MinerStat>, i: nat) returns (j: nat)
    requires Sane(t, ms) && Cuts(t, Base(t, ms)) && i < |Kept(t, Base(t, ms))|
    ensures j < |ms|
    ensures var q := Kept(t, Base(t, ms))[i];
            ms[j].identity == q.identity && ms[j].work == q.work && q.sats == t.Earned(ms[j])
  {
    EligibleSorted(t, ms);
    BaseNames(t, ms);
    var q := Kept(t, Base(t, ms))[i];
    assert q in Base(t, ms).payees;
    j :| 0 <= j < |ms| && ms[j].identity == q.identity && ms[j].work == q.work && q.sats == t.Earned(ms[j]);
  }

  // One rate over the whole window is the average rate of everybody.
  ghost predicate OneRate(t: Terms, ms: seq<MinerStat>, b: Bps) {
    forall i :: 0 <= i < |ms| ==> t.params.BpsFor(ms[i].identity) == (b, b)
  }

  lemma OneRateWeight(t: Terms, m: MinerStat, b: Bps)
    requires t.params.BpsFor(m.identity) == (b, b)
    ensures t.FeeWeight(m) == m.work * b
  {
    var sw := m.OnStratum();
    Distribute(b, sw, m.work - sw);
  }

  lemma {:induction false} OneRateFeeWeight(t: Terms, ms: seq<MinerStat>, b: Bps)
    requires OneRate(t, ms, b)
    ensures Sum(ms, FeeWeightIn(t)) == Sum(ms, WorkOf()) * b
  {
    if ms != [] {
      OneRateFeeWeight(t, ms[..|ms| - 1], b);
      OneRateWeight(t, ms[|ms| - 1], b);
      Distribute(b, Sum(ms[..|ms| - 1], WorkOf()), ms[|ms| - 1].work);
    }
  }

  // Under one fee rate, every kept identity gets at least what the uncapped split pays.
  lemma OneRateNotWorse(t: Terms, ms: seq<MinerStat>, b: Bps, i: nat)
    requires Sane(t, ms) && t.totalWork > 0 && Cuts(t, Base(t, ms)) && OneRate(t, ms, b)
    requires i < |AfterCut(t, ms).payees|
    ensures SameEntry(Kept(t, Base(t, ms))[i], AfterCut(t, ms).payees[i])
    ensures AfterCut(t, ms).payees[i].sats >= Kept(t, Base(t, ms))[i].sats
  {
    OneRateFeeWeight(t, ms, b);
    forall m | m in ms ensures m.work * Sum(ms, FeeWeightIn(t)) <= t.FeeWeight(m) * t.totalWork {
      OneRateWeight(t, m, b);
      Regroup(m.work, t.totalWork, b);
    }
    KeptNotWorse(t, ms, i);
  }

  // Below the average rate it can fail: two equal miners, the second at a fee of one half.
  // The cut keeps both and pays the first 37 of 100, where the uncapped split pays it 50.
  // Any scripts will do, and any limits that leave room for them.
  ghost predicate Mixed(t: Terms, a: MinerStat, b: MinerStat, sa: Script, sb: Script) {
    && t.params.minPayout <= 25 && t.params.maxOutputs >= 2 && t.params.maxPayees >= 2
    && OutputBytes(sa) + OutputBytes(sb) <= t.params.outputBudgetBytes
    && t.value == 100 && t.totalWork == 2
    && a.work == b.work == 1 && a.stratumWork == b.stratumWork == 0 && StrLess(a.identity, b.identity)
    && t.params.BpsFor(a.identity).1 == 0 && t.params.BpsFor(b.identity).1 == 5_000
    && t.scriptFor(a.identity) == Some(sa) && t.scriptFor(b.identity) == Some(sb)
  }

  lemma MixedBase(t: Terms, a: MinerStat, b: MinerStat, sa: Script, sb: Script)
    requires Mixed(t, a, b, sa, sb)
    ensures Base(t, [a, b]).payees == [Payee(a.identity, 1, 50, sa), Payee(b.identity, 1, 25, sb)]
  {
    var ms := [a, b];
    assert ms[..1] == [a] && [a][..0] == [];
    assert t.Earned(a) == 50 && t.Earned(b) == 25;
    assert Base(t, [a]) == BaseStep(t, Base(t, []), a);
    assert Base(t, ms) == BaseStep(t, Base(t, [a]), b);
  }

  lemma MixedWeights(t: Terms, a: MinerStat, b: MinerStat, sa: Script, sb: Script)
    requires Mixed(t, a, b, sa, sb)
    ensures Sum([a, b], FeeWeightIn(t)) == 5_000
  {
    SumOfTwo(a, b, FeeWeightIn(t));
  }

  lemma MixedFee(t: Terms, a: MinerStat, b: MinerStat, sa: Script, sb: Script)
    requires Mixed(t, a, b, sa, sb)
    ensures Cuts(t, Base(t, [a, b])) && SplitFee(t, [a, b]) == 25
  {
    MixedBase(t, a, b, sa, sb);
    MixedWeights(t, a, b, sa, sb);
    QuarterFee(t, Sum([a, b], FeeWeightIn(t)));
  }

  lemma QuarterFee(t: Terms, n: nat)
    requires t.value == 100 && t.totalWork == 2 && n == 5_000
    ensures t.ExactFee(n) == 25
  {
  }

  lemma MixedKept(t: Terms, st: Stage, q: Payee, r: Payee)
    requires st.payees == [q, r] && t.params.maxPayees >= 2
    requires q.work == r.work == 1 && StrLess(q.identity, r.identity)
    ensures Kept(t, st) == [q, r] && Sum([q, r], PayeeWork()) == 2
  {
    SortOfRanked(st.payees, PayeeRank);
    SumOfTwo(q, r, PayeeWork());
  }

  lemma MixedShares(t: Terms, a: MinerStat, b: MinerStat, sa: Script, sb: Script)
    requires Mixed(t, a, b, sa, sb)
    ensures Shares(t, [a, b]) == [Payee(a.identity, 1, 37, sa), Payee(b.identity, 1, 37, sb)]
  {
    MixedBase(t, a, b, sa, sb);
    MixedFee(t, a, b, sa, sb);
    var q, r := Payee(a.identity, 1, 50, sa), Payee(b.identity, 1, 25, sb);
    MixedKept(t, Base(t, [a, b]), q, r);
    assert Proportional(75, 2, q) == q.(sats := 37) && Proportional(75, 2, r) == r.(sats := 37);
    assert Proportions(75, 2, [q, r]) == [q.(sats := 37), r.(sats := 37)];
  }

  lemma MixedRatesCanPayLess(t: Terms, a: MinerStat, b: MinerStat, sa: Script, sb: Script)
    requires Mixed(t, a, b, sa, sb)
    ensures Base(t, [a, b]).payees == [Payee(a.identity, 1, 50, sa), Payee(b.identity, 1, 25, sb)]
    ensures AfterCut(t, [a, b]).payees == [Payee(a.identity, 1, 37, sa), Payee(b.identity, 1, 38, sb)]
  {
    MixedBase(t, a, b, sa, sb);
    MixedFee(t, a, b, sa, sb);
    MixedShares(t, a, b, sa, sb);
    var shares := Shares(t, [a, b]);
    SumOfTwo(shares[0], shares[1], SatsOf());
    assert LastMax(shares) == 1;
  }
}
