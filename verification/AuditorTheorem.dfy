// Carry, and the verdict: the auditor reports no problem exactly when the split can be
// told apart from nothing but its published inputs.
module AuditorTheorem {
  import opened Prelude
  import opened Ranking
  import opened Split
  import opened SplitLaws
  import opened CappedLaws
  import opened Auditor
  import opened AuditorRefinement
  import opened AuditorAgreement

  // The auditor's lines follow Prime's payees entry by entry; `delta` is by how much the
  // amounts differ on the entries that were there before carry.
  ghost predicate Shadows(ls: seq<Line>, qs: seq<Payee>, delta: seq<int>) {
    && |ls| == |qs| && |delta| <= |qs|
    && forall i :: 0 <= i < |qs| ==>
         && ls[i].identity == qs[i].identity && ls[i].script == qs[i].script
         && ls[i].sats == qs[i].sats + if i < |delta| then delta[i] else 0
  }

  lemma FindsSame(ls: seq<Line>, qs: seq<Payee>, delta: seq<int>, id: string)
    requires Shadows(ls, qs, delta)
    ensures FindLine(ls, id) == FindPayee(qs, id)
  {
    var a, b := FindLine(ls, id), FindPayee(qs, id);
    if a.Some? {
      assert qs[a.value].identity == id;
    }
    if b.Some? {
      assert ls[b.value].identity == id;
    }
  }

  // The auditor may open an output for `id` exactly when Prime can.
  ghost predicate SeenWhenPayable(t: Terms, scripts: map<string, Script>, cs: CarryStage, id: string) {
    && (id in scripts <==> t.scriptFor(id).Some? && Fits(t.params, |cs.payees|, cs.bytes, t.scriptFor(id).value))
    && (id in scripts ==> t.scriptFor(id) == Some(scripts[id]))
  }

  ghost predicate Opens(t: Terms, cs: CarryStage, id: string, due: nat) {
    cs.room > 0 && due > 0 && FindPayee(cs.payees, id).None? && Min(due, cs.room) >= t.params.minPayout
  }

  lemma CarryStepAgrees(t: Terms, snap: Snapshot, scripts: map<string, Script>, y: Tally, cs: CarryStage,
                        delta: seq<int>, id: string, due: nat)
    requires snap.minPayout == t.params.minPayout
    requires Shadows(y.lines, cs.payees, delta) && y.room == cs.room
    requires Opens(t, cs, id, due) ==> SeenWhenPayable(t, scripts, cs, id)
    ensures var a, b := AuditCarryStep(snap, scripts, y, Paid(id, due)), CarryStep(t, cs, id, due);
            Shadows(a.lines, b.payees, delta) && a.room == b.room
  {
    FindsSame(y.lines, cs.payees, delta, id);
  }

  ghost predicate Absent(qs: seq<Payee>, id: string) {
    forall i :: 0 <= i < |qs| ==> qs[i].identity != id
  }

  lemma StepKeepsAbsent(t: Terms, cs: CarryStage, k: string, due: nat, id: string)
    requires k != id && Absent(cs.payees, id)
    ensures Absent(CarryStep(t, cs, k, due).payees, id)
  {
  }

  lemma {:induction false} NeverAdded(t: Terms, cs: CarryStage, keys: seq<string>, owed: map<string, nat>, id: string)
    requires forall j :: 0 <= j < |keys| ==> keys[j] != id
    requires Absent(cs.payees, id)
    ensures Absent(CarryFold(t, cs, keys, owed).payees, id)
  {
    if keys != [] {
      var init, k := keys[..|keys| - 1], keys[|keys| - 1];
      NeverAdded(t, cs, init, owed, id);
      StepKeepsAbsent(t, CarryFold(t, cs, init, owed), k, Due(owed, k), id);
    }
  }

  lemma FinalScripts(t: Terms, ms: seq<MinerStat>, owed: map<string, nat>)
    requires Listed(t, ms)
    ensures var f := SplitOf(t, ms, owed).payees;
            forall k :: 0 <= k < |f| ==> t.scriptFor(f[k].identity) == Some(f[k].script)
  {
    if t.totalWork > 0 {
      var n := CutPoint(t, ms);
      FinalPayees(t, ms, owed, n);
    } else {
      CarryExtends(t, BeforeCarry(t, ms), SortedKeys(owed.Keys), owed);
    }
  }

  lemma SeenIffPaid(t: Terms, ms: seq<MinerStat>, owed: map<string, nat>, id: string)
    requires Listed(t, ms)
    ensures var f, scripts := SplitOf(t, ms, owed).payees, SeenScripts(t, ms, owed);
            && (id in scripts <==> exists k :: 0 <= k < |f| && f[k].identity == id)
            && (id in scripts ==> t.scriptFor(id) == Some(scripts[id]))
  {
    var f := SplitOf(t, ms, owed).payees;
    var lines := LinesOf(f);
    FinalScripts(t, ms, owed);
    ScriptMapContents(lines);
    if k :| 0 <= k < |f| && f[k].identity == id {
      assert lines[k].identity == id;
    }
    if id in ScriptMap(lines) {
      assert HasLine(lines, id, ScriptMap(lines)[id]);
      var k :| 0 <= k < |f| && lines[k].identity == id && lines[k].script == ScriptMap(lines)[id];
      assert f[k].identity == id;
    }
  }

  ghost function CarryAt(t: Terms, ms: seq<MinerStat>, owed: map<string, nat>, i: nat): CarryStage
    requires i <= |SortedKeys(owed.Keys)|
  {
    CarryFold(t, BeforeCarry(t, ms), SortedKeys(owed.Keys)[..i], owed)
  }

  // An identity's own turn in the carry walk is the only one that can place it.
  lemma CarrySeen(t: Terms, ms: seq<MinerStat>, owed: map<string, nat>, i: nat)
    requires Listed(t, ms) && i < |SortedKeys(owed.Keys)|
    requires Opens(t, CarryAt(t, ms, owed, i), SortedKeys(owed.Keys)[i], Due(owed, SortedKeys(owed.Keys)[i]))
    ensures SeenWhenPayable(t, SeenScripts(t, ms, owed), CarryAt(t, ms, owed, i), SortedKeys(owed.Keys)[i])
  {
    var keys := SortedKeys(owed.Keys);
    var id, rest, cs := keys[i], keys[i + 1..], CarryAt(t, ms, owed, i);
    var next, f := CarryStep(t, cs, id, Due(owed, id)), SplitOf(t, ms, owed).payees;
    assert keys[..i + 1][..i] == keys[..i] && keys[..i + 1] + rest == keys;
    FoldConcat(t, BeforeCarry(t, ms), keys[..i + 1], rest, owed);
    SeenIffPaid(t, ms, owed, id);
    if t.scriptFor(id).Some? && Fits(t.params, |cs.payees|, cs.bytes, t.scriptFor(id).value) {
      CarryExtends(t, next, rest, owed);
      assert f[|cs.payees|].identity == id;
    } else {
      SortedKeysFaithful(owed.Keys);
      forall j | 0 <= j < |rest| ensures rest[j] != id {
        StrLessAsymmetric(id, keys[i + 1 + j]);
      }
      NeverAdded(t, cs, rest, owed, id);
    }
  }

  lemma {:induction false} CarryAgrees(t: Terms, ms: seq<MinerStat>, owed: map<string, nat>, y: Tally, delta: seq<int>, i: nat)
    requires Listed(t, ms) && i <= |SortedKeys(owed.Keys)|
    requires Shadows(y.lines, BeforeCarry(t, ms).payees, delta) && y.room == BeforeCarry(t, ms).room
    ensures var a := AuditCarry(Published(t, ms, owed), SeenScripts(t, ms, owed), y,
                                CarryEntries(SortedKeys(owed.Keys)[..i], owed));
            Shadows(a.lines, CarryAt(t, ms, owed, i).payees, delta) && a.room == CarryAt(t, ms, owed, i).room
    decreases i
  {
    if i > 0 {
      var keys := SortedKeys(owed.Keys);
      var id := keys[i - 1];
      CarryAgrees(t, ms, owed, y, delta, i - 1);
      assert keys[..i][..i - 1] == keys[..i - 1];
      assert CarryEntries(keys[..i], owed)[..i - 1] == CarryEntries(keys[..i - 1], owed);
      if Opens(t, CarryAt(t, ms, owed, i - 1), id, Due(owed, id)) {
        CarrySeen(t, ms, owed, i - 1);
      }
      CarryStepAgrees(t, Published(t, ms, owed), SeenScripts(t, ms, owed),
                      AuditCarry(Published(t, ms, owed), SeenScripts(t, ms, owed), y, CarryEntries(keys[..i - 1], owed)),
                      CarryAt(t, ms, owed, i - 1), delta, id, Due(owed, id));
    }
  }

  lemma CarryListInOrder(owed: map<string, nat>)
    ensures var cs := CarryEntries(SortedKeys(owed.Keys), owed); Sort(cs, PaidRank) == cs
  {
    SortedKeysFaithful(owed.Keys);
    SortOfRanked(CarryEntries(SortedKeys(owed.Keys), owed), PaidRank);
  }

  // What the auditor ends with, from any start that shadows Prime's.
  lemma AuditEnds(t: Terms, ms: seq<MinerStat>, owed: map<string, nat>, delta: seq<int>)
    requires Listed(t, ms)
    requires var y := AuditStart(Published(t, ms, owed));
             Shadows(y.lines, BeforeCarry(t, ms).payees, delta) && y.room == BeforeCarry(t, ms).room
    ensures var r, s := AuditOf(Published(t, ms, owed)), SplitOf(t, ms, owed);
            && Shadows(r.lines, s.payees, delta) && r.poolSats == s.poolSats
            && r.problems == if SameAmounts(r.lines, LinesOf(s.payees)) then [] else [SplitDiffers]
  {
    var keys := SortedKeys(owed.Keys);
    assert keys[..|keys|] == keys;
    CarryListInOrder(owed);
    CarryAgrees(t, ms, owed, AuditStart(Published(t, ms, owed)), delta, |keys|);
    SplitConserves(t, ms, owed);
    WindowRestored(t, ms, owed);
  }

  // Where the two programs put the dust: Prime on the last largest share, the auditor on
  // the first.
  function Moved(n: nat, first: nat, last: nat, dust: nat): (d: seq<int>)
    ensures |d| == n
  {
    seq(n, i => (if i == first then dust else 0) - (if i == last then dust else 0))
  }

  lemma MovedShadows(qs: seq<Payee>, first: nat, last: nat, dust: nat)
    requires first < |qs| && last < |qs|
    ensures Shadows(LinesOf(AddSats(qs, first, dust)), AddSats(qs, last, dust), Moved(|qs|, first, last, dust))
  {
  }

  ghost function DustDelta(t: Terms, ms: seq<MinerStat>): (d: seq<int>)
    requires Cuts(t, Base(t, ms))
  {
    Moved(|Shares(t, ms)|, FirstTop(t, ms), LastMax(Shares(t, ms)), Dust(t, ms))
  }

  lemma CutShadows(t: Terms, ms: seq<MinerStat>, owed: map<string, nat>)
    requires Listed(t, ms) && t.totalWork > 0 && ZeroFree(t, ms) && Cuts(t, Base(t, ms))
    ensures var y := AuditStart(Published(t, ms, owed));
            && Shadows(y.lines, BeforeCarry(t, ms).payees, DustDelta(t, ms))
            && y.room == BeforeCarry(t, ms).room
  {
    CutAgrees(t, ms, owed);
    CutPaysAllButFee(t, ms);
    FeeAffordable(t, ms);
    MovedShadows(Shares(t, ms), FirstTop(t, ms), LastMax(Shares(t, ms)), Dust(t, ms));
  }

  lemma FirstIsLast(t: Terms, ms: seq<MinerStat>)
    requires Cuts(t, Base(t, ms))
    ensures var first, last := FirstTop(t, ms), LastMax(Shares(t, ms));
            && first < |Shares(t, ms)|
            && (DustUnambiguous(t, ms) <==> Dust(t, ms) == 0 || first == last)
  {
    var shares := Shares(t, ms);
    var lines := LinesOf(shares);
    var first, last := FirstTop(t, ms), LastMax(shares);
    assert forall j :: 0 <= j < |shares| ==> lines[j].sats == shares[j].sats;
    if first == last {
      forall i, j | 0 <= i < j < |shares| && shares[i].sats == shares[j].sats
        ensures exists k :: 0 <= k < |shares| && shares[k].sats > shares[i].sats
      {
        assert shares[first].sats > shares[i].sats;
      }
    } else {
      assert shares[first].sats == shares[last].sats && first < last;
    }
  }

  // Shadowing lists carry the same amounts exactly when no entry is off.
  lemma SameWhenNoDelta(ls: seq<Line>, qs: seq<Payee>, delta: seq<int>)
    requires Shadows(ls, qs, delta)
    ensures SameAmounts(ls, LinesOf(qs)) <==> forall i :: 0 <= i < |delta| ==> delta[i] == 0
    ensures SameAmounts(ls, LinesOf(qs)) ==> ls == LinesOf(qs)
  {
    var bs := LinesOf(qs);
    if SameAmounts(ls, bs) {
      forall i | 0 <= i < |ls| ensures ls[i] == bs[i] {
      }
    }
    forall i | 0 <= i < |delta| ensures delta[i] == ls[i].sats - bs[i].sats {
    }
  }

  lemma CutVerdict(t: Terms, ms: seq<MinerStat>, owed: map<string, nat>)
    requires Listed(t, ms) && ZeroFree(t, ms) && Cuts(t, Base(t, ms))
    ensures var r, s := AuditOf(Published(t, ms, owed)), SplitOf(t, ms, owed);
            && Shadows(r.lines, s.payees, DustDelta(t, ms))
            && r.poolSats == s.poolSats
            && (r.problems == [] <==> SameAmounts(r.lines, LinesOf(s.payees)))
            && (SameAmounts(r.lines, LinesOf(s.payees)) <==> DustUnambiguous(t, ms))
  {
    CutShadows(t, ms, owed);
    AuditEnds(t, ms, owed, DustDelta(t, ms));
    FirstIsLast(t, ms);
    SameWhenNoDelta(AuditOf(Published(t, ms, owed)).lines, SplitOf(t, ms, owed).payees, DustDelta(t, ms));
    if Dust(t, ms) > 0 {
      assert DustDelta(t, ms)[FirstTop(t, ms)] == 0 <==> FirstTop(t, ms) == LastMax(Shares(t, ms));
    }
  }

  // For every window, carry and parameters whose payable amounts are positive: the
  // recomputed list has Prime's identities, scripts, order and pool output, and the
  // audit is clean exactly when the dust of a cut, if any, has one possible owner.
  lemma AuditVerdict(t: Terms, ms: seq<MinerStat>, owed: map<string, nat>)
    requires Listed(t, ms) && ZeroFree(t, ms)
    ensures var r, s := AuditOf(Published(t, ms, owed)), SplitOf(t, ms, owed);
            && |r.lines| == |s.payees|
            && (forall i :: 0 <= i < |s.payees| ==>
                  r.lines[i].identity == s.payees[i].identity && r.lines[i].script == s.payees[i].script)
            && r.poolSats == s.poolSats
            && (r.problems == [] <==> DustUnambiguous(t, ms))
            && (DustUnambiguous(t, ms) ==> r.lines == LinesOf(s.payees))
  {
    var ls, qs := AuditOf(Published(t, ms, owed)).lines, SplitOf(t, ms, owed).payees;
    if Cuts(t, Base(t, ms)) {
      CutVerdict(t, ms, owed);
      SameWhenNoDelta(ls, qs, DustDelta(t, ms));
    } else {
      NoCutAgrees(t, ms, owed);
      AfterCutAffordable(t, ms);
      AuditEnds(t, ms, owed, []);
      SameWhenNoDelta(ls, qs, []);
    }
  }

  // A minimum payout of one sat rules zero amounts out, so every classic split passes.
  lemma ClassicSplitAudits(t: Terms, ms: seq<MinerStat>, owed: map<string, nat>)
    requires Listed(t, ms) && t.params.maxPayees == 0 && t.params.minPayout >= 1
    ensures var r, s := AuditOf(Published(t, ms, owed)), SplitOf(t, ms, owed);
            r.problems == [] && r.lines == LinesOf(s.payees) && r.poolSats == s.poolSats
  {
    MinimumPayoutPositive(t, ms);
    AuditVerdict(t, ms, owed);
  }

  lemma MinimumPayoutPositive(t: Terms, ms: seq<MinerStat>)
    requires Listed(t, ms) && t.params.minPayout >= 1
    ensures ZeroFree(t, ms)
  {
    EligibleSorted(t, ms);
    forall q | q in Survivors(t, ms) ensures q.sats > 0 {
      assert q in Base(t, ms).payees;
      AdmittedAboveMinimum(t, ms, q);
    }
  }

  lemma {:induction false} AdmittedAboveMinimum(t: Terms, ms: seq<MinerStat>, q: Payee)
    requires q in Base(t, ms).payees
    ensures q.sats >= t.params.minPayout
  {
    if q !in Base(t, ms[..|ms| - 1]).payees {
    } else {
      AdmittedAboveMinimum(t, ms[..|ms| - 1], q);
    }
  }

  // ---- zero amounts -----------------------------------------------------------------

  ghost function IsZero(): Payee -> nat {
    (q: Payee) => if q.sats == 0 then 1 else 0
  }

  // Up to the cut the auditor lists Prime's payees but those with a zero amount.
  lemma {:induction false} ZeroAmountsMissing(t: Terms, ms: seq<MinerStat>, owed: map<string, nat>, n: nat, j: nat)
    requires Listed(t, ms) && t.totalWork > 0 && IsCutPoint(t, ms, n) && j <= n
    ensures |AuditLines(t, ms, owed, j)| + Sum(At(t, ms, j).payees, IsZero()) == |At(t, ms, j).payees|
  {
    if j == 0 {
      NothingAtStart(t, ms, owed);
    } else {
      ZeroAmountsMissing(t, ms, owed, n, j - 1);
      OneMoreCounted(t, ms, owed, n, j - 1);
    }
  }

  lemma NothingAtStart(t: Terms, ms: seq<MinerStat>, owed: map<string, nat>)
    ensures AuditLines(t, ms, owed, 0) == [] && At(t, ms, 0).payees == []
  {
  }

  lemma OneMoreCounted(t: Terms, ms: seq<MinerStat>, owed: map<string, nat>, n: nat, i: nat)
    requires Listed(t, ms) && t.totalWork > 0 && IsCutPoint(t, ms, n) && i < n
    ensures |AuditLines(t, ms, owed, i + 1)| + Sum(At(t, ms, i + 1).payees, IsZero()) + |At(t, ms, i).payees|
            == |AuditLines(t, ms, owed, i)| + Sum(At(t, ms, i).payees, IsZero()) + |At(t, ms, i + 1).payees|
  {
    assert ms[..i + 1][..i] == ms[..i];
    AtStep(t, ms, i);
    SameFormulas(t, ms, owed, ms[i]);
    var a, b := At(t, ms, i).payees, At(t, ms, i + 1).payees;
    if t.Earned(ms[i]) >= t.params.minPayout {
      ScriptSeenIffPlaced(t, ms, owed, n, i);
    }
    if b != a {
      SumSnoc(a, b[|a|], IsZero());
    }
  }

  lemma {:induction false} NoZeroesSum(qs: seq<Payee>)
    ensures Sum(qs, IsZero()) == 0 <==> forall q :: q in qs ==> q.sats > 0
  {
    if qs != [] {
      NoZeroesSum(qs[..|qs| - 1]);
      assert qs == qs[..|qs| - 1] + [qs[|qs| - 1]];
    }
  }

  lemma NothingToCarry(t: Terms, ms: seq<MinerStat>)
    ensures SplitOf(t, ms, map[]).payees == AfterCut(t, ms).payees
  {
    var none: map<string, nat> := map[];
    assert SortedKeys(none.Keys) == [];
  }

  // Whoever is not seen adds nothing to the auditor's list.
  lemma {:induction false} UnseenAddNothing(t: Terms, ms: seq<MinerStat>, owed: map<string, nat>, n: nat, j: nat)
    requires n <= j <= |ms|
    requires forall i :: n <= i < |ms| ==> ms[i].identity !in SeenScripts(t, ms, owed)
    ensures AuditLines(t, ms, owed, j) == AuditLines(t, ms, owed, n)
    decreases j
  {
    if n < j {
      UnseenAddNothing(t, ms, owed, n, j - 1);
      UnseenAddsNothing(t, ms, owed, j - 1);
    }
  }

  lemma UnseenAddsNothing(t: Terms, ms: seq<MinerStat>, owed: map<string, nat>, i: nat)
    requires i < |ms| && ms[i].identity !in SeenScripts(t, ms, owed)
    ensures AuditLines(t, ms, owed, i + 1) == AuditLines(t, ms, owed, i)
  {
    assert ms[..i + 1][..i] == ms[..i];
    var before := AuditLines(t, ms, owed, i);
    assert before + [] == before;
  }

  // Without carry the auditor sees nobody behind the cut.
  lemma DroppedUnseen(t: Terms, ms: seq<MinerStat>, n: nat, i: nat)
    requires Listed(t, ms) && t.totalWork > 0 && IsCutPoint(t, ms, n) && n <= i < |ms|
    ensures ms[i].identity !in SeenScripts(t, ms, map[])
  {
    var id, f, b := ms[i].identity, SplitOf(t, ms, map[]).payees, At(t, ms, n).payees;
    NothingToCarry(t, ms);
    StartIsCutPoint(t, ms, n);
    SeenIffPaid(t, ms, map[], id);
    BaseNames(t, ms[..n]);
    forall k | 0 <= k < |f| ensures f[k].identity != id {
      assert b[k] in b;
      var j :| 0 <= j < |ms[..n]| && ms[..n][j].identity == b[k].identity;
      assert ms[j].identity != ms[i].identity;
    }
  }

  // If somebody on the list earned nothing, the auditor's list comes out too short.
  lemma ZeroMakesShort(t: Terms, ms: seq<MinerStat>)
    requires Listed(t, ms) && !ZeroFree(t, ms)
    ensures |AuditOf(Published(t, ms, map[])).lines| < |SplitOf(t, ms, map[]).payees|
  {
    assert t.totalWork > 0;
    var n := CutPoint(t, ms);
    SurvivorsAtCut(t, ms, n);
    ZeroAmountsMissing(t, ms, map[], n, n);
    NoZeroesSum(Survivors(t, ms));
    forall i | n <= i < |ms| ensures ms[i].identity !in SeenScripts(t, ms, map[]) {
      DroppedUnseen(t, ms, n, i);
    }
    UnseenAddNothing(t, ms, map[], n, |ms|);
    assert ms[..|ms|] == ms;
    NothingToCarry(t, ms);
    StartIsCutPoint(t, ms, n);
    ShortStart(t, ms);
    CarryListInOrder(map[]);
  }

  // The auditor's list before carry is no longer than what its window pass found.
  lemma ShortStart(t: Terms, ms: seq<MinerStat>)
    requires Listed(t, ms)
    ensures |AuditStart(Published(t, ms, map[])).lines| <= |AuditLines(t, ms, map[], |ms|)|
  {
    var snap, lines := Published(t, ms, map[]), AuditLines(t, ms, map[], |ms|);
    WindowRestored(t, ms, map[]);
    assert ms[..|ms|] == ms;
    if snap.maxPayees > 0 && lines != [] {
      CutNoLonger(snap, ms, lines);
    }
  }

  lemma CutNoLonger(snap: Snapshot, ms: seq<MinerStat>, lines: seq<Line>)
    requires snap.maxPayees > 0 && lines != []
    ensures |CutLines(snap, ms, lines).lines| <= |lines|
  {
    SortMultiset(lines, LineRank(WorkMap(snap.identities)));
  }

  // Without carry, in either mode: the audit is clean exactly when nobody on the list
  // earned nothing and the dust of the cut, if any, has one possible owner.
  lemma AuditExact(t: Terms, ms: seq<MinerStat>)
    requires Listed(t, ms)
    ensures AuditOf(Published(t, ms, map[])).problems == [] <==> ZeroFree(t, ms) && DustUnambiguous(t, ms)
  {
    if ZeroFree(t, ms) {
      AuditVerdict(t, ms, map[]);
    } else {
      ZeroMakesShort(t, ms);
    }
  }

  // ---- windows that do fail -----------------------------------------------------------

  // Two equal miners sharing dust: Prime rounds up the second, the auditor the first.
  lemma TiedDustFails(t: Terms, a: MinerStat, b: MinerStat, sa: Script, sb: Script)
    requires Mixed(t, a, b, sa, sb)
    ensures !DustUnambiguous(t, [a, b])
  {
    MixedFee(t, a, b, sa, sb);
    MixedShares(t, a, b, sa, sb);
    var shares := Shares(t, [a, b]);
    SumOfTwo(shares[0], shares[1], SatsOf());
    assert shares[0].sats == shares[1].sats == 37 && Dust(t, [a, b]) == 1;
  }

  // A miner charged everything, with no minimum payout: it earns nothing but is listed.
  lemma WholeFeeFails(t: Terms, m: MinerStat, script: Script)
    requires t.params.minPayout == 0 && t.params.maxOutputs >= 1 && OutputBytes(script) <= t.params.outputBudgetBytes
    requires t.totalWork == m.work > 0 && t.params.BpsFor(m.identity) == (10_000, 10_000)
    requires t.scriptFor(m.identity) == Some(script)
    requires Listed(t, [m])
    ensures !ZeroFree(t, [m]) && AuditOf(Published(t, [m], map[])).problems != []
  {
    WholeFeeBase(t, m, script);
    LoneSurvivor(t, [m], Payee(m.identity, m.work, 0, script));
    assert Survivors(t, [m])[0].sats == 0;
    AuditExact(t, [m]);
  }

  lemma WholeFeeBase(t: Terms, m: MinerStat, script: Script)
    requires t.params.minPayout == 0 && t.params.maxOutputs >= 1 && OutputBytes(script) <= t.params.outputBudgetBytes
    requires t.totalWork == m.work > 0 && t.params.BpsFor(m.identity) == (10_000, 10_000)
    requires t.scriptFor(m.identity) == Some(script)
    ensures Base(t, [m]).payees == [Payee(m.identity, m.work, 0, script)]
  {
    assert [m][..0] == [];
    assert t.KeepWeight(m) == 0;
    assert t.value * 0 == 0;
    assert t.Earned(m) == 0;
    assert Base(t, [m]) == BaseStep(t, Base(t, []), m);
  }

  lemma LoneSurvivor(t: Terms, ms: seq<MinerStat>, q: Payee)
    requires Base(t, ms).payees == [q]
    ensures Survivors(t, ms) == [q]
  {
    SortOfRanked([q], PayeeRank);
  }
}
