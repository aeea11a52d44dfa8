// The coinbase split: how a window of credited work, a carry balance and a set of
// parameters become coinbase outputs. The functions say what a split is; the methods
// compute it with the accumulators, edits in place and early exits of the program.
module Split {
  import opened Prelude
  import opened Ranking

  type Bps = x: int | 0 <= x <= 10_000

  datatype MinerStat = MinerStat(identity: string, work: nat, stratumWork: nat)
  {
    // Stratum work never counts for more than the whole.
    function OnStratum(): (r: nat)
      ensures r <= work
    {
      Min(stratumWork, work)
    }
  }

  function FeeFraction(value: nat, feeNum: nat, totalWork: nat): nat {
    value * feeNum / Max(totalWork, 1) / 10_000
  }

  function Weighted(a: nat, x: nat, b: nat, y: nat): nat {
    a * x + b * y
  }

  datatype SplitParams = SplitParams(
    feeBps: Bps, stratumFeeBps: Bps, minPayout: nat, maxOutputs: nat,
    outputBudgetBytes: nat, maxPayees: nat, feeOverrides: map<string, Bps>)
  {
    // Basis points on stratum work and on the rest, for one identity.
    function BpsFor(identity: string): (Bps, Bps) {
      if identity in feeOverrides then (feeOverrides[identity], feeOverrides[identity])
      else (if stratumFeeBps == 0 then feeBps else stratumFeeBps, feeBps)
    }
  }

  datatype Payee = Payee(identity: string, work: nat, sats: nat, script: Script)

  datatype UnpaidReason = NoScript | BelowMinimum | OverBudget | BelowCut

  datatype Unpaid = Unpaid(identity: string, sats: nat, reason: UnpaidReason)

  datatype Paid = Paid(identity: string, sats: nat)

  datatype Split = Split(
    value: nat, feeSats: nat, totalWork: nat, payees: seq<Payee>,
    unpaid: seq<Unpaid>, carryPaid: seq<Paid>, poolSats: nat)

  // What a split is computed from besides the window rows and the carry. Address
  // decoding is an arbitrary deterministic function.
  datatype Terms = Terms(params: SplitParams, value: nat, totalWork: nat, scriptFor: string -> Option<Script>)
  {
    function FeeWeight(m: MinerStat): nat {
      var (s, d) := params.BpsFor(m.identity);
      Weighted(m.OnStratum(), s, m.work - m.OnStratum(), d)
    }

    function KeepWeight(m: MinerStat): nat {
      var (s, d) := params.BpsFor(m.identity);
      Weighted(m.OnStratum(), 10_000 - s, m.work - m.OnStratum(), 10_000 - d)
    }

    function Earned(m: MinerStat): nat {
      if totalWork == 0 then 0 else value * KeepWeight(m) / totalWork / 10_000
    }

    function FeeOf(m: MinerStat): nat {
      if totalWork == 0 then 0 else value * FeeWeight(m) / totalWork / 10_000
    }

    // Fee of a capped split: one division, no floor per miner.
    function ExactFee(feeNum: nat): nat {
      FeeFraction(value, feeNum, totalWork)
    }
  }

  // The measures that are summed over miners, payees and unpaid entries.
  ghost function WorkOf(): MinerStat -> nat { (m: MinerStat) => m.work }
  ghost function EarnedIn(t: Terms): MinerStat -> nat { (m: MinerStat) => t.Earned(m) }
  ghost function FeeIn(t: Terms): MinerStat -> nat { (m: MinerStat) => t.FeeOf(m) }
  ghost function FeeWeightIn(t: Terms): MinerStat -> nat { (m: MinerStat) => t.FeeWeight(m) }
  ghost function SatsOf(): Payee -> nat { (q: Payee) => q.sats }
  ghost function PayeeWork(): Payee -> nat { (q: Payee) => q.work }
  ghost function UnpaidSats(): Unpaid -> nat { (u: Unpaid) => u.sats }
  ghost function PaidSats(): Paid -> nat { (c: Paid) => c.sats }

  function MinerRank(m: MinerStat): Rank { Rank(m.work, m.identity) }

  function PayeeRank(q: Payee): Rank { Rank(q.work, q.identity) }

  ghost predicate UniqueMiners(ms: seq<MinerStat>) {
    forall i, j :: 0 <= i < j < |ms| ==> ms[i].identity != ms[j].identity
  }

  ghost predicate UniquePayees(qs: seq<Payee>) {
    forall i, j :: 0 <= i < j < |qs| ==> qs[i].identity != qs[j].identity
  }

  // What every caller of the split guarantees: the total is the sum of the rows, names
  // are unique, and the widest product fits 128 bits.
  ghost predicate Sane(t: Terms, ms: seq<MinerStat>) {
    && UniqueMiners(ms)
    && t.totalWork == Sum(ms, WorkOf())
    && t.totalWork <= U64_MAX
    && t.value <= U64_MAX
    && t.value * t.totalWork * 10_000 < 0x1_0000_0000_0000_0000_0000_0000_0000_0000
  }

  // ---- the window pass --------------------------------------------------------------

  datatype Stage = Stage(payees: seq<Payee>, unpaid: seq<Unpaid>, bytes: nat)

  function OutputBytes(s: Script): nat { 8 + 1 + |s| }

  predicate Fits(p: SplitParams, count: nat, bytes: nat, script: Script) {
    count < p.maxOutputs && bytes + OutputBytes(script) <= p.outputBudgetBytes
  }

  function BaseStep(t: Terms, st: Stage, m: MinerStat): Stage {
    var sats := t.Earned(m);
    if sats < t.params.minPayout then
      st.(unpaid := st.unpaid + [Unpaid(m.identity, sats, BelowMinimum)])
    else match t.scriptFor(m.identity)
      case None => st.(unpaid := st.unpaid + [Unpaid(m.identity, sats, NoScript)])
      case Some(script) =>
        if Fits(t.params, |st.payees|, st.bytes, script) then
          Stage(st.payees + [Payee(m.identity, m.work, sats, script)], st.unpaid, st.bytes + OutputBytes(script))
        else
          st.(unpaid := st.unpaid + [Unpaid(m.identity, sats, OverBudget)])
  }

  function Base(t: Terms, ms: seq<MinerStat>): Stage {
    if t.totalWork == 0 || ms == [] then Stage([], [], 0)
    else BaseStep(t, Base(t, ms[..|ms| - 1]), ms[|ms| - 1])
  }

  // ---- the cut ----------------------------------------------------------------------

  function LastMax(qs: seq<Payee>): (i: nat)
    requires qs != []
    ensures i < |qs|
    ensures forall j :: 0 <= j < |qs| ==> qs[j].sats <= qs[i].sats
    ensures forall j :: i < j < |qs| ==> qs[j].sats < qs[i].sats
  {
    var n := |qs| - 1;
    if n == 0 then 0
    else
      var r := LastMax(qs[..n]);
      if qs[n].sats >= qs[r].sats then n else r
  }

  function Proportional(distributable: nat, keptWork: nat, q: Payee): Payee {
    q.(sats := distributable * q.work / Max(keptWork, 1))
  }

  function Proportions(distributable: nat, keptWork: nat, qs: seq<Payee>): (r: seq<Payee>)
    ensures |r| == |qs|
  {
    seq(|qs|, i requires 0 <= i < |qs| => Proportional(distributable, keptWork, qs[i]))
  }

  function AddSats(qs: seq<Payee>, i: nat, extra: nat): (r: seq<Payee>)
    requires i < |qs|
    ensures |r| == |qs|
  {
    qs[i := qs[i].(sats := qs[i].sats + extra)]
  }

  function BelowCutEntries(qs: seq<Payee>): (r: seq<Unpaid>)
    ensures |r| == |qs|
  {
    seq(|qs|, i requires 0 <= i < |qs| => Unpaid(qs[i].identity, qs[i].sats, BelowCut))
  }

  predicate Cuts(t: Terms, st: Stage) {
    t.params.maxPayees > 0 && st.payees != []
  }

  // The `maxPayees` best-ranked of the payees the window pass admitted.
  function Kept(t: Terms, st: Stage): (r: seq<Payee>)
    ensures Cuts(t, st) ==> r != []
  {
    SortMultiset(st.payees, PayeeRank);
    var sorted := Sort(st.payees, PayeeRank);
    if |sorted| > t.params.maxPayees then sorted[..t.params.maxPayees] else sorted
  }

  function Dropped(t: Terms, st: Stage): seq<Payee> {
    var sorted := Sort(st.payees, PayeeRank);
    if |sorted| > t.params.maxPayees then sorted[t.params.maxPayees..] else []
  }

  ghost function Shares(t: Terms, ms: seq<MinerStat>): seq<Payee> {
    var kept := Kept(t, Base(t, ms));
    Proportions(SatSub(t.value, SplitFee(t, ms)), Sum(kept, PayeeWork()), kept)
  }

  ghost function Dust(t: Terms, ms: seq<MinerStat>): nat {
    SatSub(SatSub(t.value, SplitFee(t, ms)), Sum(Shares(t, ms), SatsOf()))
  }

  ghost function SplitFee(t: Terms, ms: seq<MinerStat>): nat {
    if t.totalWork == 0 then 0
    else if Cuts(t, Base(t, ms)) then t.ExactFee(Sum(ms, FeeWeightIn(t)))
    else Sum(ms, FeeIn(t))
  }

  ghost function AfterCut(t: Terms, ms: seq<MinerStat>): Stage {
    var st := Base(t, ms);
    if !Cuts(t, st) then st
    else
      var shares := Shares(t, ms);
      Stage(AddSats(shares, LastMax(shares), Dust(t, ms)),
            st.unpaid + BelowCutEntries(Dropped(t, st)), st.bytes)
  }

  // ---- carry-forward ----------------------------------------------------------------

  datatype CarryStage = CarryStage(payees: seq<Payee>, bytes: nat, room: nat, gives: seq<Paid>)

  function FindPayee(qs: seq<Payee>, identity: string): (r: Option<nat>)
    ensures r.Some? ==> r.value < |qs| && qs[r.value].identity == identity
                        && forall j :: 0 <= j < r.value ==> qs[j].identity != identity
    ensures r.None? ==> forall j :: 0 <= j < |qs| ==> qs[j].identity != identity
  {
    if qs == [] then None
    else match FindPayee(qs[..|qs| - 1], identity)
      case Some(i) => Some(i)
      case None => if qs[|qs| - 1].identity == identity then Some(|qs| - 1) else None
  }

  function CarryStep(t: Terms, cs: CarryStage, identity: string, owed: nat): CarryStage {
    var give := Min(owed, cs.room);
    if cs.room == 0 || owed == 0 then cs
    else match FindPayee(cs.payees, identity)
      case Some(i) =>
        CarryStage(AddSats(cs.payees, i, give), cs.bytes, cs.room - give, cs.gives + [Paid(identity, give)])
      case None =>
        if give < t.params.minPayout then cs
        else match t.scriptFor(identity)
          case None => cs
          case Some(script) =>
            if Fits(t.params, |cs.payees|, cs.bytes, script) then
              CarryStage(cs.payees + [Payee(identity, 0, give, script)], cs.bytes + OutputBytes(script),
                         cs.room - give, cs.gives + [Paid(identity, give)])
            else cs
  }

  function Due(owed: map<string, nat>, identity: string): nat {
    if identity in owed then owed[identity] else 0
  }

  function CarryFold(t: Terms, cs: CarryStage, keys: seq<string>, owed: map<string, nat>): CarryStage {
    if keys == [] then cs
    else
      var k := keys[|keys| - 1];
      CarryStep(t, CarryFold(t, cs, keys[..|keys| - 1], owed), k, Due(owed, k))
  }

  ghost function BeforeCarry(t: Terms, ms: seq<MinerStat>): CarryStage {
    var st := AfterCut(t, ms);
    CarryStage(st.payees, st.bytes, SatSub(t.value, Sum(st.payees, SatsOf())), [])
  }

  ghost function AfterCarry(t: Terms, ms: seq<MinerStat>, owed: map<string, nat>): CarryStage {
    CarryFold(t, BeforeCarry(t, ms), SortedKeys(owed.Keys), owed)
  }

  // The whole split. The pool's output is the block value less everything paid out.
  ghost function SplitOf(t: Terms, ms: seq<MinerStat>, owed: map<string, nat>): Split {
    var cs := AfterCarry(t, ms, owed);
    Split(t.value, SplitFee(t, ms), t.totalWork, cs.payees, AfterCut(t, ms).unpaid, cs.gives,
          SatSub(t.value, Sum(cs.payees, SatsOf())))
  }
}
