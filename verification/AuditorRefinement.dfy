// The auditor refines Prime: from the published snapshot alone it rebuilds the payee
// list, order, amounts and pool output that Prime computed from the full state.
module AuditorRefinement {
  import opened Prelude
  import opened Ranking
  import opened Split
  import opened SplitLaws
  import opened CappedLaws
  import opened Auditor

  // A window as `miners()` lists it, with the standing assumptions of a split.
  ghost predicate Listed(t: Terms, ms: seq<MinerStat>) {
    Sane(t, ms) && Ranked(ms, MinerRank)
  }

  // Who is on the list before carry, with what the window pass admitted them for.
  ghost function Survivors(t: Terms, ms: seq<MinerStat>): seq<Payee> {
    if Cuts(t, Base(t, ms)) then Kept(t, Base(t, ms)) else Base(t, ms).payees
  }

  // None of them earned nothing; a minimum payout of one sat ensures it.
  ghost predicate ZeroFree(t: Terms, ms: seq<MinerStat>) {
    forall q :: q in Survivors(t, ms) ==> q.sats > 0
  }

  // The rounding dust of a capped split goes to the same payee whichever program looks:
  // there is no cut, no dust, or a single largest share.
  ghost predicate DustUnambiguous(t: Terms, ms: seq<MinerStat>) {
    Cuts(t, Base(t, ms)) ==>
      var shares := Shares(t, ms);
      || Dust(t, ms) == 0
      || forall i, j :: 0 <= i < j < |shares| && shares[i].sats == shares[j].sats ==>
           exists k :: 0 <= k < |shares| && shares[k].sats > shares[i].sats
  }

  // ---- Prime's window pass, prefix by prefix ----------------------------------------

  ghost function At(t: Terms, ms: seq<MinerStat>, i: nat): Stage
    requires i <= |ms|
  {
    Base(t, ms[..i])
  }

  lemma AtStep(t: Terms, ms: seq<MinerStat>, i: nat)
    requires i < |ms| && t.totalWork > 0
    ensures At(t, ms, i + 1) == BaseStep(t, At(t, ms, i), ms[i])
  {
    assert ms[..i + 1][..i] == ms[..i];
  }

  // Later stages extend earlier ones, and a full list never grows again.
  lemma {:induction false} StagesGrow(t: Terms, ms: seq<MinerStat>, i: nat, j: nat)
    requires i <= j <= |ms| && t.totalWork > 0
    ensures var a, b := At(t, ms, i), At(t, ms, j);
            && |a.payees| <= |b.payees| && b.payees[..|a.payees|] == a.payees
            && a.bytes <= b.bytes
            && (|a.payees| >= t.params.maxOutputs ==> b.payees == a.payees)
    decreases j
  {
    if i < j {
      StagesGrow(t, ms, i, j - 1);
      AtStep(t, ms, j - 1);
    }
  }

  // How far Prime's list and the auditor's agree entry by entry: to the end, or, when
  // the cut drops somebody, to the point where the list first holds `maxPayees`.
  ghost predicate IsCutPoint(t: Terms, ms: seq<MinerStat>, n: nat) {
    && n <= |ms|
    && var all := Base(t, ms).payees;
       if t.params.maxPayees == 0 || |all| <= t.params.maxPayees then n == |ms|
       else |At(t, ms, n).payees| == t.params.maxPayees
            && forall i :: 0 <= i < n ==> |At(t, ms, i).payees| < t.params.maxPayees
  }

  lemma {:induction false} FirstFull(t: Terms, ms: seq<MinerStat>, j: nat) returns (n: nat)
    requires t.totalWork > 0 && j <= |ms| && |At(t, ms, j).payees| >= t.params.maxPayees
    ensures n <= j && |At(t, ms, n).payees| == t.params.maxPayees
    ensures forall i :: 0 <= i < n ==> |At(t, ms, i).payees| < t.params.maxPayees
  {
    n := 0;
    while |At(t, ms, n).payees| < t.params.maxPayees
      invariant n <= j && |At(t, ms, n).payees| <= t.params.maxPayees
      invariant forall i :: 0 <= i < n ==> |At(t, ms, i).payees| < t.params.maxPayees
      decreases j - n
    {
      AtStep(t, ms, n);
      n := n + 1;
    }
  }

  lemma CutPoint(t: Terms, ms: seq<MinerStat>) returns (n: nat)
    requires t.totalWork > 0
    ensures IsCutPoint(t, ms, n)
  {
    assert ms[..|ms|] == ms;
    n := |ms|;
    if t.params.maxPayees > 0 && |Base(t, ms).payees| > t.params.maxPayees {
      n := FirstFull(t, ms, |ms|);
    }
  }

  // ---- the cut keeps a prefix -------------------------------------------------------

  lemma {:induction false} BaseRanked(t: Terms, ms: seq<MinerStat>)
    requires Ranked(ms, MinerRank) && t.totalWork > 0
    ensures Ranked(Base(t, ms).payees, PayeeRank)
    ensures forall q :: q in Base(t, ms).payees ==> exists i :: 0 <= i < |ms| && PayeeRank(q) == MinerRank(ms[i])
  {
    if ms != [] {
      var init, m := ms[..|ms| - 1], ms[|ms| - 1];
      BaseRanked(t, init);
      var st, st' := Base(t, init), Base(t, ms);
      assert st' == BaseStep(t, st, m);
      forall q | q in st.payees ensures Before(PayeeRank(q), MinerRank(m))
        ensures exists i :: 0 <= i < |ms| && PayeeRank(q) == MinerRank(ms[i])
      {
        var i :| 0 <= i < |init| && PayeeRank(q) == MinerRank(init[i]);
        assert ms[i] == init[i];
      }
      if st'.payees != st.payees {
        assert PayeeRank(st'.payees[|st.payees|]) == MinerRank(ms[|ms| - 1]);
        forall i, j | 0 <= i < j < |st'.payees| ensures Before(PayeeRank(st'.payees[i]), PayeeRank(st'.payees[j])) {
          assert st.payees[i] in st.payees;
        }
      }
    }
  }

  lemma KeptIsPrefix(t: Terms, ms: seq<MinerStat>, n: nat)
    requires Listed(t, ms) && Cuts(t, Base(t, ms)) && IsCutPoint(t, ms, n)
    ensures Kept(t, Base(t, ms)) == At(t, ms, n).payees
  {
    BaseRanked(t, ms);
    SortOfRanked(Base(t, ms).payees, PayeeRank);
    assert ms[..|ms|] == ms;
    StagesGrow(t, ms, n, |ms|);
  }

  lemma SurvivorsAtCut(t: Terms, ms: seq<MinerStat>, n: nat)
    requires Listed(t, ms) && t.totalWork > 0 && IsCutPoint(t, ms, n)
    ensures Survivors(t, ms) == At(t, ms, n).payees
  {
    if Cuts(t, Base(t, ms)) {
      KeptIsPrefix(t, ms, n);
    } else {
      assert ms[..|ms|] == ms;
      if t.params.maxPayees > 0 {
        StagesGrow(t, ms, n, |ms|);
      }
    }
  }

  // Who is on Prime's list before carry: exactly the identities placed before the cut
  // point, with the scripts they decode to.
  lemma StartIsCutPoint(t: Terms, ms: seq<MinerStat>, n: nat)
    requires Listed(t, ms) && t.totalWork > 0 && IsCutPoint(t, ms, n)
    ensures var a, b := AfterCut(t, ms), At(t, ms, n).payees;
            && |a.payees| == |b| && a.bytes == Base(t, ms).bytes
            && forall i :: 0 <= i < |b| ==> a.payees[i].identity == b[i].identity && a.payees[i].script == b[i].script
  {
    if Cuts(t, Base(t, ms)) {
      KeptIsPrefix(t, ms, n);
    } else {
      assert ms[..|ms|] == ms;
      if t.params.maxPayees > 0 {
        StagesGrow(t, ms, n, |ms|);
      }
    }
  }

  // ---- what carry adds --------------------------------------------------------------

  // Outputs keep their places; whoever is new decodes to its script and would have
  // fitted before any carry was paid.
  ghost predicate Extends(t: Terms, a: CarryStage, b: CarryStage) {
    && |a.payees| <= |b.payees| && a.bytes <= b.bytes
    && (forall i :: 0 <= i < |a.payees| ==>
          b.payees[i].identity == a.payees[i].identity && b.payees[i].script == a.payees[i].script)
    && (forall i :: |a.payees| <= i < |b.payees| ==>
          t.scriptFor(b.payees[i].identity) == Some(b.payees[i].script)
          && Fits(t.params, |a.payees|, a.bytes, b.payees[i].script))
  }

  lemma {:induction false} CarryExtends(t: Terms, cs: CarryStage, keys: seq<string>, owed: map<string, nat>)
    ensures Extends(t, cs, CarryFold(t, cs, keys, owed))
  {
    if keys != [] {
      CarryExtends(t, cs, keys[..|keys| - 1], owed);
    }
  }

  // ---- which scripts the auditor sees -----------------------------------------------

  lemma {:induction false} ScriptMapContents(ls: seq<Line>)
    ensures forall id :: id in ScriptMap(ls) <==> exists i :: 0 <= i < |ls| && ls[i].identity == id
    ensures forall id :: id in ScriptMap(ls) ==> HasLine(ls, id, ScriptMap(ls)[id])
  {
    if ls != [] {
      var init := ls[..|ls| - 1];
      ScriptMapContents(init);
      forall id | id in ScriptMap(ls)
        ensures HasLine(ls, id, ScriptMap(ls)[id])
        ensures exists i :: 0 <= i < |ls| && ls[i].identity == id
      {
        if id == ls[|ls| - 1].identity {
          assert ls[|ls| - 1].script == ScriptMap(ls)[id];
        } else {
          assert HasLine(init, id, ScriptMap(init)[id]);
          var i :| 0 <= i < |init| && init[i].identity == id && init[i].script == ScriptMap(init)[id];
          assert ls[i] == init[i];
        }
      }
      forall i | 0 <= i < |ls| ensures ls[i].identity in ScriptMap(ls) {
        if i < |init| {
          assert init[i].identity in ScriptMap(init);
        }
      }
    }
  }

  ghost predicate HasLine(ls: seq<Line>, id: string, script: Script) {
    exists i :: 0 <= i < |ls| && ls[i].identity == id && ls[i].script == script
  }

  ghost function SeenScripts(t: Terms, ms: seq<MinerStat>, owed: map<string, nat>): map<string, Script> {
    ScriptMap(LinesOf(SplitOf(t, ms, owed).payees))
  }

  lemma {:induction false} PlacedWhenMet(t: Terms, ms: seq<MinerStat>, i: nat, j: nat, q: Payee)
    requires UniqueMiners(ms) && t.totalWork > 0 && i < j <= |ms|
    requires q in At(t, ms, j).payees && q.identity == ms[i].identity
    ensures At(t, ms, i + 1).payees != At(t, ms, i).payees
    decreases j
  {
    AtStep(t, ms, j - 1);
    BaseNames(t, ms[..j - 1]);
    if i < j - 1 {
      PlacedWhenMet(t, ms, i, j - 1, q);
    }
  }

  lemma FinalPayees(t: Terms, ms: seq<MinerStat>, owed: map<string, nat>, n: nat)
    requires Listed(t, ms) && t.totalWork > 0 && IsCutPoint(t, ms, n)
    ensures var f, b := SplitOf(t, ms, owed).payees, At(t, ms, n).payees;
            && |b| <= |f|
            && (forall k :: 0 <= k < |b| ==> f[k].identity == b[k].identity && f[k].script == b[k].script)
            && (forall k :: 0 <= k < |f| ==> t.scriptFor(f[k].identity) == Some(f[k].script))
            && (forall k :: |b| <= k < |f| ==> Fits(t.params, |b|, Base(t, ms).bytes, f[k].script))
  {
    StartIsCutPoint(t, ms, n);
    CarryExtends(t, BeforeCarry(t, ms), SortedKeys(owed.Keys), owed);
    BaseNames(t, ms[..n]);
    var b := At(t, ms, n).payees;
    assert forall k :: 0 <= k < |b| ==> b[k] in b;
  }

  // A miner worth paying that Prime passed over is on no later list either: nothing
  // frees room, so carry cannot place it.
  lemma PassedOverForGood(t: Terms, ms: seq<MinerStat>, owed: map<string, nat>, n: nat, i: nat, k: nat)
    requires Listed(t, ms) && t.totalWork > 0 && IsCutPoint(t, ms, n) && i < n
    requires t.Earned(ms[i]) >= t.params.minPayout
    requires At(t, ms, i + 1).payees == At(t, ms, i).payees
    requires k < |SplitOf(t, ms, owed).payees|
    ensures SplitOf(t, ms, owed).payees[k].identity != ms[i].identity
  {
    FinalPayees(t, ms, owed, n);
    AtStep(t, ms, i);
    StagesGrow(t, ms, i, n);
    assert ms[..|ms|] == ms;
    StagesGrow(t, ms, i, |ms|);
    var b := At(t, ms, n).payees;
    if k < |b| && b[k].identity == ms[i].identity {
      PlacedWhenMet(t, ms, i, n, b[k]);
    }
  }

  lemma PlacedIsSeen(t: Terms, ms: seq<MinerStat>, owed: map<string, nat>, n: nat, i: nat)
    requires Listed(t, ms) && t.totalWork > 0 && IsCutPoint(t, ms, n) && i < n
    requires At(t, ms, i + 1).payees != At(t, ms, i).payees
    ensures |At(t, ms, i).payees| < |SplitOf(t, ms, owed).payees|
    ensures SplitOf(t, ms, owed).payees[|At(t, ms, i).payees|].identity == ms[i].identity
  {
    FinalPayees(t, ms, owed, n);
    AtStep(t, ms, i);
    StagesGrow(t, ms, i + 1, n);
    assert At(t, ms, n).payees[|At(t, ms, i).payees|] == At(t, ms, i + 1).payees[|At(t, ms, i).payees|];
  }

  // The auditor sees the script of a miner worth paying exactly when Prime placed it.
  lemma ScriptSeenIffPlaced(t: Terms, ms: seq<MinerStat>, owed: map<string, nat>, n: nat, i: nat)
    requires Listed(t, ms) && t.totalWork > 0 && IsCutPoint(t, ms, n) && i < n
    requires t.Earned(ms[i]) >= t.params.minPayout
    ensures var id, scripts := ms[i].identity, SeenScripts(t, ms, owed);
            && (id in scripts <==> At(t, ms, i + 1).payees != At(t, ms, i).payees)
            && (id in scripts ==> t.scriptFor(id) == Some(scripts[id]))
  {
    var id, f := ms[i].identity, SplitOf(t, ms, owed).payees;
    var lines := LinesOf(f);
    ScriptMapContents(lines);
    FinalPayees(t, ms, owed, n);
    if At(t, ms, i + 1).payees != At(t, ms, i).payees {
      PlacedIsSeen(t, ms, owed, n, i);
      assert lines[|At(t, ms, i).payees|].identity == id;
    } else {
      forall k | 0 <= k < |f| ensures lines[k].identity != id {
        PassedOverForGood(t, ms, owed, n, i, k);
      }
    }
    if id in ScriptMap(lines) {
      assert HasLine(lines, id, ScriptMap(lines)[id]);
      var k :| 0 <= k < |f| && lines[k].identity == id && lines[k].script == ScriptMap(lines)[id];
      assert f[k].identity == id;
    }
  }
}
