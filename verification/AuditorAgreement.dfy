// When the auditor's report has no problems: always for a classic split, and for a
// capped one exactly when its rounding dust has one possible owner.
module AuditorAgreement {
  import opened Prelude
  import opened Ranking
  import opened Split
  import opened SplitLaws
  import opened CappedLaws
  import opened Auditor
  import opened AuditorRefinement

  ghost function Published(t: Terms, ms: seq<MinerStat>, owed: map<string, nat>): Snapshot {
    Publish(t, ms, owed, SplitOf(t, ms, owed))
  }

  // ---- the published window is the window -------------------------------------------

  lemma NamesDistinct(ms: seq<MinerStat>)
    requires UniqueMiners(ms)
    ensures UniqueMiners(Sort(ms, NameRank))
    ensures multiset(Sort(ms, NameRank)) == multiset(ms)
  {
    SortRanked(ms, NameRank);
    SortMultiset(ms, NameRank);
    var ids := Sort(ms, NameRank);
    forall i, j | 0 <= i < j < |ids| ensures ids[i].identity != ids[j].identity {
      BeforeAsymmetric(NameRank(ids[i]), NameRank(ids[j]));
    }
  }

  lemma PublishedByName(t: Terms, ms: seq<MinerStat>, owed: map<string, nat>)
    requires Listed(t, ms)
    ensures var ids := Published(t, ms, owed).identities;
            && multiset(ids) == multiset(ms)
            && forall i, j :: 0 <= i < j < |ids| ==> StrLess(ids[i].identity, ids[j].identity)
  {
    SortRanked(ms, NameRank);
    SortMultiset(ms, NameRank);
    var ids := Sort(ms, NameRank);
    forall i, j | 0 <= i < j < |ids| ensures StrLess(ids[i].identity, ids[j].identity) {
      assert Before(NameRank(ids[i]), NameRank(ids[j]));
    }
  }

  lemma WindowRestored(t: Terms, ms: seq<MinerStat>, owed: map<string, nat>)
    requires Listed(t, ms)
    ensures var snap := Published(t, ms, owed);
            Sort(snap.identities, MinerRank) == ms && TotalOf(snap) == t.totalWork
  {
    var ids := Sort(ms, NameRank);
    NamesDistinct(ms);
    SortRanked(ids, MinerRank);
    SortMultiset(ids, MinerRank);
    RankedUnique(Sort(ids, MinerRank), ms, MinerRank);
    SortSum(ms, NameRank, WorkOf());
  }

  lemma {:induction false} WorkMapContents(ids: seq<MinerStat>, i: nat)
    requires UniqueMiners(ids) && i < |ids|
    ensures Lookup(WorkMap(ids), ids[i].identity) == ids[i].work
  {
    if i < |ids| - 1 {
      WorkMapContents(ids[..|ids| - 1], i);
    }
  }

  ghost predicate KnowsWork(works: map<string, nat>, ms: seq<MinerStat>) {
    forall i :: 0 <= i < |ms| ==> Lookup(works, ms[i].identity) == ms[i].work
  }

  lemma WorksRestored(ms: seq<MinerStat>)
    requires UniqueMiners(ms)
    ensures KnowsWork(WorkMap(Sort(ms, NameRank)), ms)
  {
    var ids := Sort(ms, NameRank);
    NamesDistinct(ms);
    forall i | 0 <= i < |ms| ensures Lookup(WorkMap(ids), ms[i].identity) == ms[i].work {
      assert ms[i] in multiset(ids);
      var j :| 0 <= j < |ids| && ids[j] == ms[i];
      WorkMapContents(ids, j);
    }
  }

  lemma SameFormulas(t: Terms, ms: seq<MinerStat>, owed: map<string, nat>, m: MinerStat)
    ensures var snap := Published(t, ms, owed);
            && KeepNumOf(snap, m) == t.KeepWeight(m) && FeeNumOf(snap, m) == t.FeeWeight(m)
            && (t.totalWork > 0 ==> SatsFor(snap, t.totalWork, m) == t.Earned(m))
  {
  }

  // ---- the window pass --------------------------------------------------------------

  ghost function AuditLines(t: Terms, ms: seq<MinerStat>, owed: map<string, nat>, j: nat): seq<Line>
    requires j <= |ms|
  {
    AuditBase(Published(t, ms, owed), SeenScripts(t, ms, owed), t.totalWork, ms[..j])
  }

  // A miner Prime places before the cut earned something.
  lemma PlacedEarned(t: Terms, ms: seq<MinerStat>, n: nat, i: nat)
    requires Listed(t, ms) && t.totalWork > 0 && ZeroFree(t, ms) && IsCutPoint(t, ms, n) && i < n
    requires At(t, ms, i + 1).payees != At(t, ms, i).payees
    ensures t.Earned(ms[i]) > 0
  {
    AtStep(t, ms, i);
    StagesGrow(t, ms, i + 1, n);
    SurvivorsAtCut(t, ms, n);
    assert At(t, ms, n).payees[|At(t, ms, i).payees|] == At(t, ms, i + 1).payees[|At(t, ms, i).payees|];
    assert At(t, ms, n).payees[|At(t, ms, i).payees|] in Survivors(t, ms);
  }

  lemma StepAgrees(t: Terms, ms: seq<MinerStat>, owed: map<string, nat>, n: nat, i: nat)
    requires Listed(t, ms) && t.totalWork > 0 && ZeroFree(t, ms) && IsCutPoint(t, ms, n) && i < n
    ensures |At(t, ms, i).payees| <= |At(t, ms, i + 1).payees|
    ensures AuditLines(t, ms, owed, i + 1)
            == AuditLines(t, ms, owed, i) + LinesOf(At(t, ms, i + 1).payees[|At(t, ms, i).payees|..])
  {
    assert ms[..i + 1][..i] == ms[..i];
    AtStep(t, ms, i);
    SameFormulas(t, ms, owed, ms[i]);
    if t.Earned(ms[i]) >= t.params.minPayout {
      ScriptSeenIffPlaced(t, ms, owed, n, i);
      if At(t, ms, i + 1).payees != At(t, ms, i).payees {
        PlacedEarned(t, ms, n, i);
      }
    }
  }

  lemma {:induction false} AuditFollowsPrime(t: Terms, ms: seq<MinerStat>, owed: map<string, nat>, n: nat, j: nat)
    requires Listed(t, ms) && t.totalWork > 0 && ZeroFree(t, ms) && IsCutPoint(t, ms, n) && j <= n
    ensures AuditLines(t, ms, owed, j) == LinesOf(At(t, ms, j).payees)
  {
    if j > 0 {
      AuditFollowsPrime(t, ms, owed, n, j - 1);
      StepAgrees(t, ms, owed, n, j - 1);
      var a, b := At(t, ms, j - 1).payees, At(t, ms, j).payees;
      StagesGrow(t, ms, j - 1, j);
      assert LinesOf(a) + LinesOf(b[|a|..]) == LinesOf(b);
    }
  }

  lemma {:induction false} AuditGrows(t: Terms, ms: seq<MinerStat>, owed: map<string, nat>, i: nat, j: nat)
    requires i <= j <= |ms|
    ensures var a, b := AuditLines(t, ms, owed, i), AuditLines(t, ms, owed, j);
            |a| <= |b| && b[..|a|] == a
    decreases j
  {
    if i < j {
      AuditGrows(t, ms, owed, i, j - 1);
      assert ms[..j][..j - 1] == ms[..j - 1];
    }
  }

  lemma {:induction false} AuditRanked(snap: Snapshot, scripts: map<string, Script>, total: nat, works: map<string, nat>,
                                       ms: seq<MinerStat>)
    requires Ranked(ms, MinerRank) && KnowsWork(works, ms)
    ensures var ls := AuditBase(snap, scripts, total, ms);
            && Ranked(ls, LineRank(works))
            && forall l :: l in ls ==> exists i :: 0 <= i < |ms| && LineRank(works)(l) == MinerRank(ms[i])
  {
    if total != 0 && ms != [] {
      var init, m := ms[..|ms| - 1], ms[|ms| - 1];
      AuditRanked(snap, scripts, total, works, init);
      var a, b := AuditBase(snap, scripts, total, init), AuditBase(snap, scripts, total, ms);
      forall l | l in a ensures Before(LineRank(works)(l), MinerRank(m))
        ensures exists i :: 0 <= i < |ms| && LineRank(works)(l) == MinerRank(ms[i])
      {
        var i :| 0 <= i < |init| && LineRank(works)(l) == MinerRank(init[i]);
        assert ms[i] == init[i];
      }
      assert forall i :: 0 <= i < |a| ==> b[i] == a[i] && a[i] in a;
      assert |b| > |a| ==> LineRank(works)(b[|a|]) == MinerRank(ms[|ms| - 1]);
    }
  }

  // ---- the cut ----------------------------------------------------------------------

  lemma {:induction false} WorkOfLines(works: map<string, nat>, qs: seq<Payee>)
    requires forall i :: 0 <= i < |qs| ==> Lookup(works, qs[i].identity) == qs[i].work
    ensures Sum(LinesOf(qs), WorkIn(works)) == Sum(qs, PayeeWork())
  {
    SumAgrees(LinesOf(qs), qs, WorkIn(works), PayeeWork());
  }

  lemma KeptWorkKnown(t: Terms, ms: seq<MinerStat>, works: map<string, nat>)
    requires Listed(t, ms) && KnowsWork(works, ms)
    ensures forall q :: q in Kept(t, Base(t, ms)) ==> Lookup(works, q.identity) == q.work
  {
    EligibleSorted(t, ms);
    BaseNames(t, ms);
    forall q | q in Kept(t, Base(t, ms)) ensures Lookup(works, q.identity) == q.work {
      assert q in Sort(Base(t, ms).payees, PayeeRank);
      var i :| 0 <= i < |ms| && ms[i].identity == q.identity && ms[i].work == q.work;
    }
  }

  lemma AuditSorted(t: Terms, ms: seq<MinerStat>, owed: map<string, nat>, works: map<string, nat>)
    requires Listed(t, ms) && KnowsWork(works, ms)
    ensures var lines := AuditLines(t, ms, owed, |ms|); Sort(lines, LineRank(works)) == lines
  {
    assert ms[..|ms|] == ms;
    AuditRanked(Published(t, ms, owed), SeenScripts(t, ms, owed), t.totalWork, works, ms);
    SortOfRanked(AuditLines(t, ms, owed, |ms|), LineRank(works));
  }

  lemma TakesTop(snap: Snapshot, works: map<string, nat>, lines: seq<Line>, k: nat)
    requires Sort(lines, LineRank(works)) == lines
    requires k <= |lines| && k <= snap.maxPayees && (k == |lines| || k == snap.maxPayees)
    ensures TopLines(snap, works, lines) == lines[..k]
  {
  }

  // Of everything the auditor lists, its own top is what Prime kept.
  lemma TopIsKept(t: Terms, ms: seq<MinerStat>, owed: map<string, nat>)
    requires Listed(t, ms) && t.totalWork > 0 && ZeroFree(t, ms) && Cuts(t, Base(t, ms))
    ensures var snap := Published(t, ms, owed);
            var lines := AuditLines(t, ms, owed, |ms|);
            lines != [] && TopLines(snap, WorkMap(snap.identities), lines) == LinesOf(Kept(t, Base(t, ms)))
  {
    var works := WorkMap(Sort(ms, NameRank));
    var n := CutPoint(t, ms);
    WorksRestored(ms);
    AuditSorted(t, ms, owed, works);
    AuditFollowsPrime(t, ms, owed, n, n);
    AuditGrows(t, ms, owed, n, |ms|);
    KeptIsPrefix(t, ms, n);
    assert ms[..|ms|] == ms;
    TakesTop(Published(t, ms, owed), works, AuditLines(t, ms, owed, |ms|), |At(t, ms, n).payees|);
  }

  lemma FeesAgree(t: Terms, ms: seq<MinerStat>, owed: map<string, nat>)
    requires Listed(t, ms) && t.totalWork > 0 && Cuts(t, Base(t, ms))
    ensures ExactFeeOf(Published(t, ms, owed), ms) == SplitFee(t, ms)
  {
    var snap := Published(t, ms, owed);
    WindowRestored(t, ms, owed);
    forall i | 0 <= i < |ms| ensures FeeNumIn(snap)(ms[i]) == FeeWeightIn(t)(ms[i]) {
      SameFormulas(t, ms, owed, ms[i]);
    }
    SumAgrees(ms, ms, FeeNumIn(snap), FeeWeightIn(t));
  }

  // First and last largest line.
  ghost function FirstTop(t: Terms, ms: seq<MinerStat>): nat
    requires Cuts(t, Base(t, ms))
  {
    FirstMax(LinesOf(Shares(t, ms)))
  }

  lemma ScaledAgree(d: nat, w: nat, works: map<string, nat>, kept: seq<Payee>)
    requires forall i :: 0 <= i < |kept| ==> Lookup(works, kept[i].identity) == kept[i].work
    ensures ScaleAll(d, w, works, LinesOf(kept)) == LinesOf(Proportions(d, w, kept))
  {
    var a, b := ScaleAll(d, w, works, LinesOf(kept)), LinesOf(Proportions(d, w, kept));
    forall i | 0 <= i < |kept| ensures a[i] == b[i] {
      assert a[i] == Scale(d, w, works, LineOf(kept[i]));
      assert b[i] == LineOf(Proportional(d, w, kept[i]));
    }
  }

  lemma RaiseAgrees(qs: seq<Payee>, i: nat, extra: nat)
    requires i < |qs|
    ensures Raise(LinesOf(qs), i, extra) == LinesOf(AddSats(qs, i, extra))
  {
  }

  lemma ShareLinesAgree(d: nat, works: map<string, nat>, kept: seq<Payee>, shares: seq<Payee>)
    requires kept != [] && forall i :: 0 <= i < |kept| ==> Lookup(works, kept[i].identity) == kept[i].work
    requires shares == Proportions(d, Sum(kept, PayeeWork()), kept)
    ensures ShareLines(d, works, LinesOf(kept))
            == LinesOf(AddSats(shares, FirstMax(LinesOf(shares)), SatSub(d, Sum(shares, SatsOf()))))
  {
    WorkOfLines(works, kept);
    ScaledAgree(d, Sum(kept, PayeeWork()), works, kept);
    SumAgrees(LinesOf(shares), shares, LineSats(), SatsOf());
    RaiseAgrees(shares, FirstMax(LinesOf(shares)), SatSub(d, Sum(shares, SatsOf())));
  }

  lemma SharesAgree(t: Terms, ms: seq<MinerStat>, works: map<string, nat>)
    requires Listed(t, ms) && Cuts(t, Base(t, ms)) && KnowsWork(works, ms)
    ensures FirstTop(t, ms) < |Shares(t, ms)|
    ensures ShareLines(SatSub(t.value, SplitFee(t, ms)), works, LinesOf(Kept(t, Base(t, ms))))
            == LinesOf(AddSats(Shares(t, ms), FirstTop(t, ms), Dust(t, ms)))
  {
    var kept := Kept(t, Base(t, ms));
    KeptWorkKnown(t, ms, works);
    assert forall i :: 0 <= i < |kept| ==> kept[i] in kept;
    ShareLinesAgree(SatSub(t.value, SplitFee(t, ms)), works, kept, Shares(t, ms));
  }

  lemma CutAgrees(t: Terms, ms: seq<MinerStat>, owed: map<string, nat>)
    requires Listed(t, ms) && t.totalWork > 0 && ZeroFree(t, ms) && Cuts(t, Base(t, ms))
    ensures FirstTop(t, ms) < |Shares(t, ms)|
    ensures AuditStart(Published(t, ms, owed))
            == Tally(LinesOf(AddSats(Shares(t, ms), FirstTop(t, ms), Dust(t, ms))), SplitFee(t, ms))
  {
    WindowRestored(t, ms, owed);
    assert ms[..|ms|] == ms;
    TopIsKept(t, ms, owed);
    FeesAgree(t, ms, owed);
    FeeAffordable(t, ms);
    WorksRestored(ms);
    SharesAgree(t, ms, WorkMap(Sort(ms, NameRank)));
  }

  lemma UncutLines(t: Terms, ms: seq<MinerStat>, owed: map<string, nat>)
    requires Listed(t, ms) && ZeroFree(t, ms) && !Cuts(t, Base(t, ms))
    ensures AuditLines(t, ms, owed, |ms|) == LinesOf(Base(t, ms).payees)
  {
    assert ms[..|ms|] == ms;
    if t.totalWork > 0 {
      var n := CutPoint(t, ms);
      AuditFollowsPrime(t, ms, owed, n, n);
    }
  }

  lemma NoCutAgrees(t: Terms, ms: seq<MinerStat>, owed: map<string, nat>)
    requires Listed(t, ms) && ZeroFree(t, ms) && !Cuts(t, Base(t, ms))
    ensures AuditStart(Published(t, ms, owed))
            == Tally(LinesOf(AfterCut(t, ms).payees), t.value - Sum(AfterCut(t, ms).payees, SatsOf()))
  {
    var qs := Base(t, ms).payees;
    WindowRestored(t, ms, owed);
    assert ms[..|ms|] == ms;
    UncutLines(t, ms, owed);
    SumAgrees(LinesOf(qs), qs, LineSats(), SatsOf());
  }
}
