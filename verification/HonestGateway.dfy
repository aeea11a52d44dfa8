// The list a session issues, and why a gateway that pays it, verbatim or rescaled to what
// its block is worth, is always recognised.
module HonestGateway {
  import opened Prelude
  import opened Outputs
  import opened CoinbasePolicy
  import opened CoinbasePolicyLaws
  import opened Ranking
  import opened CappedLaws
  import S = Split
  import SplitLaws

  // ---- the issued list ----------------------------------------------------------------

  predicate PayeesFit(payees: seq<S.Payee>) {
    forall k :: 0 <= k < |payees| ==> payees[k].sats <= U64_MAX
  }

  function PayeeOutputs(payees: seq<S.Payee>): (r: seq<Output>)
    requires PayeesFit(payees)
    ensures |r| == |payees|
  {
    seq(|payees|, k requires 0 <= k < |payees| => Output(payees[k].sats, payees[k].script))
  }

  // The commitment first, the payees in order, and last what the pool keeps. An empty
  // list gets one sat to the pool: gateways forget an empty coinbaser.
  method IssueList(commit: Option<Script>, payees: seq<S.Payee>, poolSats: u64, pool: Script)
    returns (outputs: seq<Output>)
    requires PayeesFit(payees)
    ensures outputs == IssuedList(commit, payees, poolSats, pool)
  {
    outputs := [];
    if commit.Some? {
      outputs := outputs + [Output(0, commit.value)];
    }
    outputs := outputs + PayeeOutputs(payees);
    if poolSats > 0 || outputs == [] {
      outputs := outputs + [Output(Max(poolSats, 1), pool)];
    }
  }

  function IssuedList(commit: Option<Script>, payees: seq<S.Payee>, poolSats: u64, pool: Script): (r: seq<Output>)
    requires PayeesFit(payees)
    ensures r != []
  {
    var head := if commit.Some? then [Output(0, commit.value)] else [];
    var body := PayeeOutputs(payees);
    head + body + if poolSats > 0 || (commit.None? && payees == []) then [Output(Max(poolSats, 1), pool)] else []
  }

  lemma SplitFitsIn64(t: S.Terms, ms: seq<S.MinerStat>, owed: map<string, nat>)
    requires S.Sane(t, ms)
    ensures PayeesFit(S.SplitOf(t, ms, owed).payees) && S.SplitOf(t, ms, owed).poolSats <= U64_MAX
  {
    var s := S.SplitOf(t, ms, owed);
    SplitLaws.SplitConserves(t, ms, owed);
    forall k | 0 <= k < |s.payees| ensures s.payees[k].sats <= U64_MAX {
      SumAtLeastMember(s.payees, k, S.SatsOf());
    }
  }

  // A commitment comes first, with nothing on it, then every payee with its own amount and
  // script, then the pool: with what is its, or one sat where nothing else is listed.
  lemma ListByFields(commit: Option<Script>, payees: seq<S.Payee>, poolSats: u64, pool: Script)
    requires PayeesFit(payees)
    ensures var list := IssuedList(commit, payees, poolSats, pool);
            var first := if commit.Some? then 1 else 0;
            && first + |payees| <= |list| <= first + |payees| + 1
            && (commit.Some? ==> list[0] == Output(0, commit.value))
            && (forall k :: 0 <= k < |payees| ==> list[first + k] == Output(payees[k].sats, payees[k].script))
            && (poolSats > 0 ==> |list| == first + |payees| + 1 && list[first + |payees|] == Output(poolSats, pool))
            && (poolSats == 0 && first + |payees| > 0 ==> |list| == first + |payees|)
            && (poolSats == 0 && first + |payees| == 0 ==> list == [Output(1, pool)])
  {
    assert [] + [] + [Output(1, pool)] == [Output(1, pool)];
  }

  ghost function ListFor(t: S.Terms, ms: seq<S.MinerStat>, owed: map<string, nat>, commit: Option<Script>, pool: Script)
    : seq<Output>
    requires S.Sane(t, ms)
  {
    SplitFitsIn64(t, ms, owed);
    var s := S.SplitOf(t, ms, owed);
    IssuedList(commit, s.payees, s.poolSats, pool)
  }

  lemma ListSum(commit: Option<Script>, payees: seq<S.Payee>, poolSats: u64, pool: Script)
    requires PayeesFit(payees)
    ensures Sum(IssuedList(commit, payees, poolSats, pool), SatsIn())
            == Sum(payees, S.SatsOf())
               + if poolSats == 0 && commit.None? && payees == [] then 1 else poolSats
  {
    var head := if commit.Some? then [Output(0, commit.value)] else [];
    var body := PayeeOutputs(payees);
    var last := Output(Max(poolSats, 1), pool);
    assert Sum(head, SatsIn()) == 0;
    SumAgrees(body, payees, SatsIn(), S.SatsOf());
    SumConcat(head, body, SatsIn());
    SumSnoc(head + body, last, SatsIn());
    if poolSats > 0 || (commit.None? && payees == []) {
      assert IssuedList(commit, payees, poolSats, pool) == head + body + [last];
    } else {
      assert IssuedList(commit, payees, poolSats, pool) == head + body;
    }
  }

  // The list adds up to the block value, except for the one sat given to the pool when
  // the value is zero and there is nothing else to list.
  lemma ListSumsToValue(t: S.Terms, ms: seq<S.MinerStat>, owed: map<string, nat>, commit: Option<Script>, pool: Script)
    requires S.Sane(t, ms)
    ensures Sum(ListFor(t, ms, owed, commit, pool), SatsIn()) == t.value
            <==> !(t.value == 0 && commit.None? && S.SplitOf(t, ms, owed).payees == [])
  {
    var s := S.SplitOf(t, ms, owed);
    SplitFitsIn64(t, ms, owed);
    SplitLaws.SplitConserves(t, ms, owed);
    ListSum(commit, s.payees, s.poolSats, pool);
    NoPayeesNoSats(s.payees);
  }

  lemma NoPayeesNoSats(payees: seq<S.Payee>)
    ensures payees == [] ==> Sum(payees, S.SatsOf()) == 0
  {
  }

  // ---- paying it ----------------------------------------------------------------------

  ghost function FloorIn(actual: nat, issued: nat): Output -> nat {
    (i: Output) => Max(Ratio(i.sats, actual, issued), 0)
  }

  // Every amount scaled by what the block is worth, rounded down, the remainder on the
  // last output: the pool's, whenever the list names one.
  ghost function Remainder(list: seq<Output>, actual: u64): nat {
    SatSub(actual, Sum(list, FloorIn(actual, Sum(list, SatsIn()))))
  }

  ghost function Share(list: seq<Output>, actual: u64, k: nat): nat
    requires k < |list|
  {
    FloorIn(actual, Sum(list, SatsIn()))(list[k]) + if k == |list| - 1 then Remainder(list, actual) else 0
  }

  ghost predicate Rescales(outs: seq<TxOut>, list: seq<Output>, actual: u64) {
    && |outs| == |list| > 0
    && forall k :: 0 <= k < |list| ==> outs[k].script == list[k].script && outs[k].value == Share(list, actual, k)
  }

  ghost predicate Verbatim(outs: seq<TxOut>, list: seq<Output>) {
    |outs| == |list| && forall k :: 0 <= k < |list| ==> outs[k] == TxOut(list[k].sats, list[k].script)
  }

  lemma {:induction false} FloorsFit(list: seq<Output>, actual: u64, issued: nat)
    requires issued > 0
    ensures Sum(list, FloorIn(actual, issued)) * issued <= actual * Sum(list, SatsIn())
    ensures actual * Sum(list, SatsIn()) <= Sum(list, FloorIn(actual, issued)) * issued + |list| * (issued - 1)
  {
    if list != [] {
      var init, i := list[..|list| - 1], list[|list| - 1];
      FloorsFit(init, actual, issued);
      DivAtLeast(i.sats * actual, issued, 0);
      DivBounds(i.sats * actual, issued);
      var q := Ratio(i.sats, actual, issued);
      Distribute(issued, Sum(init, FloorIn(actual, issued)), q);
      Distribute(actual, Sum(init, SatsIn()), i.sats);
      Distribute(issued - 1, |init|, 1);
      Distribute(issued, q, 1);
    }
  }

  // The remainder is less than one sat per listed output.
  lemma RemainderSmall(list: seq<Output>, actual: u64)
    requires Sum(list, SatsIn()) > 0
    ensures Sum(list, FloorIn(actual, Sum(list, SatsIn()))) + Remainder(list, actual) == actual
    ensures Remainder(list, actual) <= |list|
  {
    var issued := Sum(list, SatsIn());
    var floors := Sum(list, FloorIn(actual, issued));
    FloorsFit(list, actual, issued);
    MulCancel(floors, actual, issued);
    MulMono(issued - 1, issued, |list|);
    Distribute(issued, floors, |list|);
    MulCancel(actual, floors + |list|, issued);
  }

  // A measure that looks only at scripts sums over the coinbase as over the floors, plus
  // the remainder where the last output counts.
  lemma {:induction false} SharesSum(outs: seq<TxOut>, list: seq<Output>, actual: u64, script: Script)
    requires Rescales(outs, list, actual)
    ensures var issued := Sum(list, SatsIn());
            var floors := Sum(list, FloorTo(actual, issued, script));
            floors <= Sum(outs, ValueTo(script)) <= floors + Remainder(list, actual)
    ensures Sum(outs, ValueOf()) == Sum(list, FloorIn(actual, Sum(list, SatsIn()))) + Remainder(list, actual)
  {
    var issued, n := Sum(list, SatsIn()), |list| - 1;
    SumAgrees(outs[..n], list[..n], ValueTo(script), FloorTo(actual, issued, script));
    SumAgrees(outs[..n], list[..n], ValueOf(), FloorIn(actual, issued));
  }

  ghost function FloorTo(actual: nat, issued: nat, script: Script): Output -> nat {
    (i: Output) => if i.script == script then Max(Ratio(i.sats, actual, issued), 0) else 0
  }

  lemma {:induction false} FloorsWithinCeiling(list: seq<Output>, actual: nat, issued: nat, script: Script)
    requires issued > 0
    ensures Sum(list, FloorTo(actual, issued, script)) <= Ceiling(Sum(list, SatsTo(script)), actual, issued)
  {
    if list == [] {
      CeilingAdds(0, 0, actual, issued);
    } else {
      var init, i := list[..|list| - 1], list[|list| - 1];
      FloorsWithinCeiling(init, actual, issued, script);
      if i.script == script {
        FloorBelowCeiling(i.sats, actual, issued);
        CeilingAdds(Sum(init, SatsTo(script)), i.sats, actual, issued);
      }
    }
  }

  lemma FloorBelowCeiling(sats: nat, actual: nat, issued: nat)
    requires issued > 0
    ensures 0 <= Ratio(sats, actual, issued) <= Ceiling(sats, actual, issued)
    ensures Owed(sats, actual, issued) <= Ratio(sats, actual, issued)
  {
    DivAtLeast(sats * actual, issued, 0);
    DivAtLeast(sats * actual, issued, sats);
    DivBounds(sats * actual, issued);
    if actual <= issued {
      MulMono(actual, issued, sats);
      MulCancel(Ratio(sats, actual, issued), sats, issued);
    } else {
      MulMono(issued, actual, sats);
    }
  }

  lemma RescaledSanctioned(outs: seq<TxOut>, list: seq<Output>, actual: u64, pool: Script)
    requires Rescales(outs, list, actual)
    requires exists k :: 0 <= k < |list| && !OpReturn(list[k].script)
    ensures AllSanctioned(outs, pool, list) && CommitsPresent(outs, list)
    ensures PoolPaid(outs, pool) || Miners(list, pool) != []
  {
    forall k | 0 <= k < |outs| ensures !IsForeign(outs[k], pool, list) {
      assert list[k].script == outs[k].script;
    }
    forall k | 0 <= k < |list| && OpReturn(list[k].script) ensures Pays(outs, list[k].script) {
      assert outs[k].script == list[k].script;
    }
    var k :| 0 <= k < |list| && !OpReturn(list[k].script);
    assert outs[k].script == list[k].script;
    if list[k].script != pool {
      var j := MinerListed(list, pool, k);
    }
  }

  lemma RescaledPaysMiner(outs: seq<TxOut>, list: seq<Output>, actual: u64, pool: Script, tolerance: u64, j: nat)
    requires Rescales(outs, list, actual) && 0 < Sum(list, SatsIn()) && j < |Miners(list, pool)|
    ensures !Short(outs, Miners(list, pool)[j], Sum(list, SatsIn()), tolerance)
    ensures !Over(outs, Miners(list, pool)[j].script, Miners(list, pool), Sum(list, SatsIn()), Slack(tolerance, list))
  {
    var issued, i := Sum(list, SatsIn()), Miners(list, pool)[j];
    var k := MinerWasIssued(list, pool, j);
    RemainderSmall(list, actual);
    SharesSum(outs, list, actual, i.script);
    FloorsWithinCeiling(list, actual, issued, i.script);
    MinersKeepTotals(list, pool, i.script);
    SumAtLeastMember(outs, k, ValueTo(i.script));
    FloorBelowCeiling(i.sats, actual, issued);
    OwedBounded(i.sats, actual, issued);
  }

  // A coinbase that pays the list rescaled to any block value is a full split exactly
  // when every miner output is still worth something.
  lemma HonestIsSplit(outs: seq<TxOut>, list: seq<Output>, actual: u64, pool: Script, tolerance: u64)
    requires Rescales(outs, list, actual) && 0 < Sum(list, SatsIn())
    requires exists k :: 0 <= k < |list| && !OpReturn(list[k].script)
    ensures Classify(outs, pool, Some(list), tolerance) == Split <==>
              forall j :: 0 <= j < |Miners(list, pool)| ==> PaidTo(outs, Miners(list, pool)[j].script) > 0
  {
    var miners, issued := Miners(list, pool), Sum(list, SatsIn());
    RescaledSanctioned(outs, list, actual, pool);
    forall j | 0 <= j < |miners|
      ensures !Short(outs, miners[j], issued, tolerance)
      ensures !Over(outs, miners[j].script, miners, issued, Slack(tolerance, list))
    {
      RescaledPaysMiner(outs, list, actual, pool, tolerance, j);
    }
    SplitIff(outs, pool, list, tolerance);
  }

  // Paying the list verbatim is rescaling it to its own value.
  lemma VerbatimRescales(outs: seq<TxOut>, list: seq<Output>)
    requires Verbatim(outs, list) && 0 < Sum(list, SatsIn()) <= U64_MAX
    ensures Rescales(outs, list, Sum(list, SatsIn()))
  {
    var issued := Sum(list, SatsIn());
    forall k | 0 <= k < |list| ensures FloorIn(issued, issued)(list[k]) == list[k].sats {
      FloorSame(list[k].sats, issued);
    }
    SumAgrees(list, list, FloorIn(issued, issued), SatsIn());
    assert Remainder(list, issued) == 0;
  }

  lemma FloorSame(sats: nat, issued: nat)
    requires issued > 0
    ensures Ratio(sats, issued, issued) == sats
  {
    Distribute(issued, sats, 1);
    DivUnique(sats * issued, issued, sats);
  }

  // ---- the whole way ------------------------------------------------------------------

  // Address decoding never yields a burnt output.
  ghost predicate NeverBurns(t: S.Terms) {
    forall id :: t.scriptFor(id).Some? ==> !OpReturn(t.scriptFor(id).value)
  }

  ghost predicate NoneBurnt(payees: seq<S.Payee>) {
    forall k :: 0 <= k < |payees| ==> !OpReturn(payees[k].script)
  }

  lemma {:induction false} BasePayable(t: S.Terms, ms: seq<S.MinerStat>)
    requires NeverBurns(t)
    ensures NoneBurnt(S.Base(t, ms).payees)
  {
    if t.totalWork != 0 && ms != [] {
      BasePayable(t, ms[..|ms| - 1]);
    }
  }

  lemma SharesPayable(t: S.Terms, ms: seq<S.MinerStat>)
    requires S.Sane(t, ms) && NeverBurns(t) && S.Cuts(t, S.Base(t, ms))
    ensures NoneBurnt(S.AfterCut(t, ms).payees)
  {
    var st := S.Base(t, ms);
    BasePayable(t, ms);
    EligibleSorted(t, ms);
    var sorted := Sort(st.payees, S.PayeeRank);
    forall k | 0 <= k < |sorted| ensures !OpReturn(sorted[k].script) {
      assert sorted[k] in st.payees;
    }
  }

  lemma CarryStepPayable(t: S.Terms, cs: S.CarryStage, id: string, owed: nat)
    requires NeverBurns(t) && NoneBurnt(cs.payees)
    ensures NoneBurnt(S.CarryStep(t, cs, id, owed).payees)
  {
  }

  lemma {:induction false} CarryPayable(t: S.Terms, cs: S.CarryStage, keys: seq<string>, owed: map<string, nat>)
    requires NeverBurns(t) && NoneBurnt(cs.payees)
    ensures NoneBurnt(S.CarryFold(t, cs, keys, owed).payees)
  {
    if keys != [] {
      var k := keys[|keys| - 1];
      CarryPayable(t, cs, keys[..|keys| - 1], owed);
      CarryStepPayable(t, S.CarryFold(t, cs, keys[..|keys| - 1], owed), k, S.Due(owed, k));
    }
  }

  lemma PayeesNeverBurn(t: S.Terms, ms: seq<S.MinerStat>, owed: map<string, nat>)
    requires S.Sane(t, ms) && NeverBurns(t)
    ensures NoneBurnt(S.SplitOf(t, ms, owed).payees)
  {
    if S.Cuts(t, S.Base(t, ms)) {
      SharesPayable(t, ms);
    } else {
      BasePayable(t, ms);
    }
    CarryPayable(t, S.BeforeCarry(t, ms), SortedKeys(owed.Keys), owed);
  }

  lemma ListNamesSomebody(commit: Option<Script>, payees: seq<S.Payee>, poolSats: u64, pool: Script)
    requires PayeesFit(payees) && NoneBurnt(payees) && !OpReturn(pool) && (payees != [] || poolSats > 0)
    ensures var list := IssuedList(commit, payees, poolSats, pool);
            exists k :: 0 <= k < |list| && !OpReturn(list[k].script)
  {
    var list := IssuedList(commit, payees, poolSats, pool);
    if payees != [] {
      var k := if commit.Some? then 1 else 0;
      assert list[k] == Output(payees[0].sats, payees[0].script);
    } else {
      assert list[|list| - 1].script == pool;
    }
  }

  // Whatever the window, the carry and the parameters, a gateway whose block is worth
  // anything and that pays the issued list in proportion passes as a full split exactly
  // when no miner output has been rounded away.
  lemma HonestGatewayPasses(t: S.Terms, ms: seq<S.MinerStat>, owed: map<string, nat>, commit: Option<Script>,
                            pool: Script, outs: seq<TxOut>, actual: u64, tolerance: u64)
    requires S.Sane(t, ms) && t.value > 0 && NeverBurns(t) && !OpReturn(pool)
    requires Rescales(outs, ListFor(t, ms, owed, commit, pool), actual)
    ensures var list := ListFor(t, ms, owed, commit, pool);
            Classify(outs, pool, Some(list), tolerance) == Split <==>
              forall j :: 0 <= j < |Miners(list, pool)| ==> PaidTo(outs, Miners(list, pool)[j].script) > 0
  {
    var s, list := S.SplitOf(t, ms, owed), ListFor(t, ms, owed, commit, pool);
    SplitFitsIn64(t, ms, owed);
    ListSumsToValue(t, ms, owed, commit, pool);
    SplitLaws.SplitConserves(t, ms, owed);
    NoPayeesNoSats(s.payees);
    PayeesNeverBurn(t, ms, owed);
    ListNamesSomebody(commit, s.payees, s.poolSats, pool);
    HonestIsSplit(outs, list, actual, pool, tolerance);
  }

  // ---- nothing is rounded away from a verbatim classic list ---------------------------

  ghost predicate AllPaid(payees: seq<S.Payee>) {
    forall k :: 0 <= k < |payees| ==> payees[k].sats > 0
  }

  lemma {:induction false} BasePaid(t: S.Terms, ms: seq<S.MinerStat>)
    requires t.params.minPayout >= 1
    ensures AllPaid(S.Base(t, ms).payees)
  {
    if t.totalWork != 0 && ms != [] {
      BasePaid(t, ms[..|ms| - 1]);
    }
  }

  lemma {:induction false} CarryPaid(t: S.Terms, cs: S.CarryStage, keys: seq<string>, owed: map<string, nat>)
    requires t.params.minPayout >= 1 && AllPaid(cs.payees)
    ensures AllPaid(S.CarryFold(t, cs, keys, owed).payees)
  {
    if keys != [] {
      CarryPaid(t, cs, keys[..|keys| - 1], owed);
    }
  }

  // In classic mode with a minimum payout a verbatim coinbase is always a full split.
  lemma ClassicVerbatimPasses(t: S.Terms, ms: seq<S.MinerStat>, owed: map<string, nat>, commit: Option<Script>,
                              pool: Script, outs: seq<TxOut>, tolerance: u64)
    requires S.Sane(t, ms) && t.value > 0 && NeverBurns(t) && !OpReturn(pool)
    requires commit.Some? ==> OpReturn(commit.value)
    requires t.params.maxPayees == 0 && t.params.minPayout >= 1
    requires Verbatim(outs, ListFor(t, ms, owed, commit, pool))
    ensures Classify(outs, pool, Some(ListFor(t, ms, owed, commit, pool)), tolerance) == Split
  {
    var s, list := S.SplitOf(t, ms, owed), ListFor(t, ms, owed, commit, pool);
    BasePaid(t, ms);
    CarryPaid(t, S.BeforeCarry(t, ms), SortedKeys(owed.Keys), owed);
    ListSumsToValue(t, ms, owed, commit, pool);
    VerbatimRescales(outs, list);
    HonestGatewayPasses(t, ms, owed, commit, pool, outs, t.value, tolerance);
    SplitFitsIn64(t, ms, owed);
    forall j | 0 <= j < |Miners(list, pool)| ensures PaidTo(outs, Miners(list, pool)[j].script) > 0 {
      var k := MinerWasIssued(list, pool, j);
      ListedMinersPaid(commit, s.payees, s.poolSats, pool, k);
      SumAtLeastMember(outs, k, ValueTo(list[k].script));
    }
  }

  lemma ListedMinersPaid(commit: Option<Script>, payees: seq<S.Payee>, poolSats: u64, pool: Script, k: nat)
    requires PayeesFit(payees) && AllPaid(payees) && k < |IssuedList(commit, payees, poolSats, pool)|
    requires commit.Some? ==> OpReturn(commit.value)
    requires IsMiner(IssuedList(commit, payees, poolSats, pool)[k], pool)
    ensures IssuedList(commit, payees, poolSats, pool)[k].sats > 0
  {
  }
}
