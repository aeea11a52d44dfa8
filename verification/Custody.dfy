// Carry custody in classic mode: over any run of blocks, what the pool has received
// less what it has come to owe is its fees, the floors' rounding and the amounts of
// identities that decode to no script, plus what rescaled coinbases shift between the
// pool and its payees. Nothing else stays with the pool.
module Custody {
  import opened Prelude
  import opened Ranking
  import opened Split
  import opened SplitLaws
  import opened CarryLedger

  // What a block's coinbase did with the split it was issued.
  datatype Kind =
    | FullSplit
    | Partial(present: set<Script>) // outputs with other scripts were dropped, to the pool
    | PoolOnly                      // everything to the pool

  // The coinbase is worth `actual`, and pays each issued payee it kept `paid`. A gateway
  // whose block is worth something else than the split assumed may rescale the amounts.
  datatype Block = Block(t: Terms, ms: seq<MinerStat>, kind: Kind, actual: nat, paid: Payee -> nat)

  ghost function SplitAt(b: Block, owed: map<string, nat>): Split {
    SplitOf(b.t, b.ms, owed)
  }

  // Carriable: whatever the split could not place, except identities with no script.
  ghost function NoScriptSats(): Unpaid -> nat { (u: Unpaid) => if u.reason.NoScript? then u.sats else 0 }
  ghost function CarriableSats(): Unpaid -> nat { (u: Unpaid) => if u.reason.NoScript? then 0 else u.sats }

  function Carriable(us: seq<Unpaid>): seq<Paid> {
    if us == [] then []
    else
      var u := us[|us| - 1];
      Carriable(us[..|us| - 1]) + if u.reason.NoScript? then [] else [Paid(u.identity, u.sats)]
  }

  function Scaled(sats: nat, actual: nat, issued: nat): nat {
    if issued == 0 then sats else sats * actual / issued
  }

  // What the coinbase pays for one issued payee ...
  function PaidFor(b: Block, q: Payee): nat {
    match b.kind
    case FullSplit => b.paid(q)
    case Partial(present) => if q.script in present then b.paid(q) else 0
    case PoolOnly => 0
  }

  // ... and what the block's record says it is still owed: a dropped payee its issued
  // amount, a payee of a pool-only block its amount scaled to the block's value, a payee
  // of a full split nothing, whatever it was paid.
  function RecordedFor(b: Block, issued: nat, q: Payee): nat {
    match b.kind
    case FullSplit => 0
    case Partial(present) => if q.script in present then 0 else q.sats
    case PoolOnly => Scaled(q.sats, b.actual, issued)
  }

  function Records(b: Block, q: Payee): bool {
    match b.kind
    case FullSplit => false
    case Partial(present) => q.script !in present
    case PoolOnly => true
  }

  function RecordedPays(b: Block, issued: nat, qs: seq<Payee>): seq<Paid> {
    if qs == [] then []
    else
      var q := qs[|qs| - 1];
      RecordedPays(b, issued, qs[..|qs| - 1])
      + if Records(b, q) then [Paid(q.identity, RecordedFor(b, issued, q))] else []
  }

  // The `unpaid` list of the block's record.
  ghost function RecordUnpaid(b: Block, s: Split): seq<Paid> {
    Carriable(s.unpaid) + RecordedPays(b, s.value, s.payees)
  }

  ghost function PaidIn(b: Block): Payee -> nat { (q: Payee) => PaidFor(b, q) }
  ghost function RecordedIn(b: Block, issued: nat): Payee -> nat { (q: Payee) => RecordedFor(b, issued, q) }

  // What the pool's script receives.
  ghost function Receipts(b: Block, s: Split): int {
    b.actual - Sum(s.payees, PaidIn(b))
  }

  ghost function AfterBlock(b: Block, owed: map<string, nat>): map<string, nat> {
    var s := SplitAt(b, owed);
    AddedAll(SettledAll(owed, s.carryPaid), RecordUnpaid(b, s))
  }

  // What the pool keeps of a block for good: fee, unpayable amounts, rounding. An empty
  // window leaves nobody to owe, and the whole value is rounding.
  ghost function Retained(b: Block): int {
    var st := AfterCut(b.t, b.ms);
    b.t.value - Sum(st.payees, SatsOf()) - Sum(st.unpaid, CarriableSats())
  }

  // What the block is worth beyond what the split assumed, plus what its payees are
  // neither paid nor recorded as owed.
  ghost function Rescaling(b: Block, s: Split): int {
    (b.actual - s.value)
    + (Sum(s.payees, SatsOf()) - Sum(s.payees, PaidIn(b)) - Sum(s.payees, RecordedIn(b, s.value)))
  }

  ghost predicate Sound(b: Block, owed: map<string, nat>) {
    && Sane(b.t, b.ms)
    && b.t.params.maxPayees == 0
    && Balance(owed) + Sum(RecordUnpaid(b, SplitAt(b, owed)), PaidSats()) <= U64_MAX
  }

  // ---- retained is fee, no-script and rounding --------------------------------------

  lemma {:induction false} UnpaidByReason(us: seq<Unpaid>)
    ensures Sum(us, UnpaidSats()) == Sum(us, NoScriptSats()) + Sum(us, CarriableSats())
    ensures Sum(Carriable(us), PaidSats()) == Sum(us, CarriableSats())
  {
    if us != [] {
      var u := us[|us| - 1];
      UnpaidByReason(us[..|us| - 1]);
      if !u.reason.NoScript? {
        SumSnoc(Carriable(us[..|us| - 1]), Paid(u.identity, u.sats), PaidSats());
      } else {
        assert Carriable(us) == Carriable(us[..|us| - 1]);
      }
    }
  }

  lemma RetainedIsFeeNoScriptRounding(b: Block)
    requires Sane(b.t, b.ms) && b.t.params.maxPayees == 0
    ensures b.t.totalWork > 0 ==>
              0 <= Retained(b) - SplitFee(b.t, b.ms) - Sum(AfterCut(b.t, b.ms).unpaid, NoScriptSats()) < 2 * |b.ms|
    ensures b.t.totalWork == 0 ==> Retained(b) == b.t.value
  {
    UnpaidByReason(AfterCut(b.t, b.ms).unpaid);
    if b.t.totalWork > 0 {
      RoundingLoss(b.t, b.ms);
      BaseSumsToEarned(b.t, b.ms);
    }
  }

  // ---- carry payments are covered by the balance in force ---------------------------

  lemma {:induction false} GivesCovered(t: Terms, cs: CarryStage, keys: seq<string>, owed: map<string, nat>)
    requires cs.gives == []
    requires forall i, j :: 0 <= i < j < |keys| ==> keys[i] != keys[j]
    ensures Covered(owed, CarryFold(t, cs, keys, owed).gives)
    ensures forall g :: g in CarryFold(t, cs, keys, owed).gives ==> g.identity in keys
  {
    if keys != [] {
      var init, k := keys[..|keys| - 1], keys[|keys| - 1];
      GivesCovered(t, cs, init, owed);
      var a, b := CarryFold(t, cs, init, owed), CarryFold(t, cs, keys, owed);
      assert b == CarryStep(t, a, k, Due(owed, k));
      forall g | g in b.gives ensures g.identity in keys {
        if g in a.gives {
          assert g.identity in init;
        }
      }
      forall i | 0 <= i < |a.gives| ensures a.gives[i].identity != k {
        assert a.gives[i] in a.gives;
        var j :| 0 <= j < |init| && init[j] == a.gives[i].identity;
        assert keys[j] != k;
      }
    }
  }

  lemma CarryPaidCovered(b: Block, owed: map<string, nat>)
    ensures Covered(owed, SplitAt(b, owed).carryPaid)
  {
    var keys := SortedKeys(owed.Keys);
    SortedKeysFaithful(owed.Keys);
    forall i, j | 0 <= i < j < |keys| ensures keys[i] != keys[j] {
      StrLessAsymmetric(keys[i], keys[j]);
    }
    GivesCovered(b.t, BeforeCarry(b.t, b.ms), keys, owed);
  }

  // ---- one block --------------------------------------------------------------------

  lemma {:induction false} RecordedAdds(b: Block, issued: nat, qs: seq<Payee>)
    ensures Sum(RecordedPays(b, issued, qs), PaidSats()) == Sum(qs, RecordedIn(b, issued))
  {
    if qs != [] {
      var init, q := qs[..|qs| - 1], qs[|qs| - 1];
      RecordedAdds(b, issued, init);
      SumSnoc(RecordedPays(b, issued, init), Paid(q.identity, RecordedFor(b, issued, q)), PaidSats());
      assert RecordedPays(b, issued, init) + [] == RecordedPays(b, issued, init);
    }
  }

  // What the pool receives for a block, less the growth of what it owes, is what it
  // retains for good, plus what rescaling shifted.
  lemma BlockCustody(b: Block, owed: map<string, nat>)
    requires Sound(b, owed)
    ensures Receipts(b, SplitAt(b, owed)) - (Balance(AfterBlock(b, owed)) - Balance(owed))
            == Retained(b) + Rescaling(b, SplitAt(b, owed))
  {
    var s := SplitAt(b, owed);
    SplitConserves(b.t, b.ms, owed);
    CarryPaidCovered(b, owed);
    SettledAllBalance(owed, s.carryPaid);
    AddedAllBalance(SettledAll(owed, s.carryPaid), RecordUnpaid(b, s));
    UnpaidByReason(s.unpaid);
    SumConcat(Carriable(s.unpaid), RecordedPays(b, s.value, s.payees), PaidSats());
    RecordedAdds(b, s.value, s.payees);
  }

  // ---- runs -------------------------------------------------------------------------

  ghost function AfterRun(bs: seq<Block>, owed: map<string, nat>): map<string, nat> {
    if bs == [] then owed else AfterBlock(bs[|bs| - 1], AfterRun(bs[..|bs| - 1], owed))
  }

  ghost predicate SoundRun(bs: seq<Block>, owed: map<string, nat>) {
    bs == [] || (SoundRun(bs[..|bs| - 1], owed) && Sound(bs[|bs| - 1], AfterRun(bs[..|bs| - 1], owed)))
  }

  ghost function RunReceipts(bs: seq<Block>, owed: map<string, nat>): int {
    if bs == [] then 0
    else
      var init, b := bs[..|bs| - 1], bs[|bs| - 1];
      RunReceipts(init, owed) + Receipts(b, SplitAt(b, AfterRun(init, owed)))
  }

  ghost function RunRetained(bs: seq<Block>): int {
    if bs == [] then 0 else RunRetained(bs[..|bs| - 1]) + Retained(bs[|bs| - 1])
  }

  ghost function RunRescaling(bs: seq<Block>, owed: map<string, nat>): int {
    if bs == [] then 0
    else
      var init, b := bs[..|bs| - 1], bs[|bs| - 1];
      RunRescaling(init, owed) + Rescaling(b, SplitAt(b, AfterRun(init, owed)))
  }

  // The custody law over any run of blocks, each computed on the balance in force when
  // it settles, whatever their coinbases were worth and paid.
  lemma {:induction false} RunCustody(bs: seq<Block>, owed: map<string, nat>)
    requires SoundRun(bs, owed)
    ensures RunReceipts(bs, owed) - (Balance(AfterRun(bs, owed)) - Balance(owed))
            == RunRetained(bs) + RunRescaling(bs, owed)
  {
    if bs != [] {
      RunCustody(bs[..|bs| - 1], owed);
      BlockCustody(bs[|bs| - 1], AfterRun(bs[..|bs| - 1], owed));
    }
  }

  // A block worth what its split assumed, paying what was issued to whom it kept.
  ghost predicate Verbatim(b: Block, s: Split) {
    b.actual == s.value && forall i :: 0 <= i < |s.payees| ==> b.paid(s.payees[i]) == s.payees[i].sats
  }

  ghost predicate RunVerbatim(bs: seq<Block>, owed: map<string, nat>) {
    bs == [] ||
    (RunVerbatim(bs[..|bs| - 1], owed) && Verbatim(bs[|bs| - 1], SplitAt(bs[|bs| - 1], AfterRun(bs[..|bs| - 1], owed))))
  }

  lemma ScaledSame(sats: nat, v: nat)
    ensures Scaled(sats, v, v) == sats
  {
    if v > 0 {
      Distribute(v, sats, 1);
      DivUnique(sats * v, v, sats);
    }
  }

  // A measure that splits another in two, entry by entry, splits its sum.
  lemma {:induction false} SumOfParts<T(!new)>(xs: seq<T>, f: T -> nat, g: T -> nat, h: T -> nat)
    requires forall i :: 0 <= i < |xs| ==> f(xs[i]) == g(xs[i]) + h(xs[i])
    ensures Sum(xs, f) == Sum(xs, g) + Sum(xs, h)
  {
    if xs != [] {
      SumOfParts(xs[..|xs| - 1], f, g, h);
    }
  }

  lemma VerbatimShiftsNothing(b: Block, s: Split)
    requires Verbatim(b, s)
    ensures Rescaling(b, s) == 0
  {
    forall i | 0 <= i < |s.payees|
      ensures SatsOf()(s.payees[i]) == PaidIn(b)(s.payees[i]) + RecordedIn(b, s.value)(s.payees[i])
    {
      ScaledSame(s.payees[i].sats, s.value);
    }
    SumOfParts(s.payees, SatsOf(), PaidIn(b), RecordedIn(b, s.value));
  }

  lemma {:induction false} VerbatimRun(bs: seq<Block>, owed: map<string, nat>)
    requires RunVerbatim(bs, owed)
    ensures RunRescaling(bs, owed) == 0
  {
    if bs != [] {
      VerbatimRun(bs[..|bs| - 1], owed);
      VerbatimShiftsNothing(bs[|bs| - 1], SplitAt(bs[|bs| - 1], AfterRun(bs[..|bs| - 1], owed)));
    }
  }

  // With every block worth what its split assumed, the law has no last term.
  lemma RunCustodyExact(bs: seq<Block>, owed: map<string, nat>)
    requires SoundRun(bs, owed) && RunVerbatim(bs, owed)
    ensures RunReceipts(bs, owed) - (Balance(AfterRun(bs, owed)) - Balance(owed)) == RunRetained(bs)
  {
    RunCustody(bs, owed);
    VerbatimRun(bs, owed);
  }

  // ---- one identity -----------------------------------------------------------------

  ghost function EarnedBy(t: Terms, id: string): MinerStat -> nat {
    (m: MinerStat) => if m.identity == id then t.Earned(m) else 0
  }

  ghost function SatsTo(id: string): Payee -> nat { (q: Payee) => if q.identity == id then q.sats else 0 }
  ghost function UnpaidTo(id: string): Unpaid -> nat { (u: Unpaid) => if u.identity == id then u.sats else 0 }
  ghost function PaidTo(id: string): Paid -> nat { (p: Paid) => if p.identity == id then p.sats else 0 }
  ghost function NoScriptTo(id: string): Unpaid -> nat {
    (u: Unpaid) => if u.identity == id && u.reason.NoScript? then u.sats else 0
  }
  ghost function PaidToIn(b: Block, id: string): Payee -> nat {
    (q: Payee) => if q.identity == id then PaidFor(b, q) else 0
  }
  ghost function RecordedToIn(b: Block, issued: nat, id: string): Payee -> nat {
    (q: Payee) => if q.identity == id then RecordedFor(b, issued, q) else 0
  }

  lemma BaseStepTo(t: Terms, st: Stage, m: MinerStat, id: string)
    ensures var st' := BaseStep(t, st, m);
            Sum(st'.payees, SatsTo(id)) + Sum(st'.unpaid, UnpaidTo(id))
            == Sum(st.payees, SatsTo(id)) + Sum(st.unpaid, UnpaidTo(id)) + EarnedBy(t, id)(m)
  {
    var st' := BaseStep(t, st, m);
    if st'.payees != st.payees {
      SumSnoc(st.payees, st'.payees[|st.payees|], SatsTo(id));
    } else {
      SumSnoc(st.unpaid, st'.unpaid[|st.unpaid|], UnpaidTo(id));
    }
  }

  lemma {:induction false} BaseTo(t: Terms, ms: seq<MinerStat>, id: string)
    requires t.totalWork > 0
    ensures Sum(Base(t, ms).payees, SatsTo(id)) + Sum(Base(t, ms).unpaid, UnpaidTo(id)) == Sum(ms, EarnedBy(t, id))
  {
    if ms != [] {
      BaseTo(t, ms[..|ms| - 1], id);
      BaseStepTo(t, Base(t, ms[..|ms| - 1]), ms[|ms| - 1], id);
    }
  }

  lemma CarryStepTo(t: Terms, cs: CarryStage, k: string, due: nat, id: string)
    ensures var c := CarryStep(t, cs, k, due);
            Sum(c.payees, SatsTo(id)) + Sum(cs.gives, PaidTo(id)) == Sum(cs.payees, SatsTo(id)) + Sum(c.gives, PaidTo(id))
  {
    var script := CarryStepShape(t, cs, k, due);
    var hit, give := FindPayee(cs.payees, k), Min(due, cs.room);
    SumSnoc(cs.gives, Paid(k, give), PaidTo(id));
    SumSnoc(cs.payees, Payee(k, 0, give, script), SatsTo(id));
    if hit.Some? {
      RaiseAddsTo(cs.payees, hit.value, give, SatsTo(id));
    }
  }

  lemma {:induction false} CarryTo(t: Terms, cs: CarryStage, keys: seq<string>, owed: map<string, nat>, id: string)
    ensures var c := CarryFold(t, cs, keys, owed);
            Sum(c.payees, SatsTo(id)) + Sum(cs.gives, PaidTo(id)) == Sum(cs.payees, SatsTo(id)) + Sum(c.gives, PaidTo(id))
  {
    if keys != [] {
      var init, k := keys[..|keys| - 1], keys[|keys| - 1];
      CarryTo(t, cs, init, owed, id);
      CarryStepTo(t, CarryFold(t, cs, init, owed), k, Due(owed, k), id);
    }
  }

  lemma {:induction false} SettledTo(m: map<string, nat>, ps: seq<Paid>, id: string)
    requires Covered(m, ps)
    ensures Due(SettledAll(m, ps), id) + Sum(ps, PaidTo(id)) == Due(m, id)
  {
    if ps != [] {
      var init, p := ps[..|ps| - 1], ps[|ps| - 1];
      SettledTo(m, init, id);
      SettledAllBalance(m, init);
      SettledBalance(SettledAll(m, init), p.identity, p.sats);
    }
  }

  lemma {:induction false} AddedTo(m: map<string, nat>, ps: seq<Paid>, id: string)
    requires Balance(m) + Sum(ps, PaidSats()) <= U64_MAX
    ensures Due(AddedAll(m, ps), id) == Due(m, id) + Sum(ps, PaidTo(id))
  {
    if ps != [] {
      var init, p := ps[..|ps| - 1], ps[|ps| - 1];
      AddedTo(m, init, id);
      AddedAllBalance(m, init);
      BalanceDue(AddedAll(m, init), p.identity);
    }
  }

  lemma {:induction false} CarriableTo(us: seq<Unpaid>, id: string)
    ensures Sum(Carriable(us), PaidTo(id)) + Sum(us, NoScriptTo(id)) == Sum(us, UnpaidTo(id))
  {
    if us != [] {
      var u := us[|us| - 1];
      CarriableTo(us[..|us| - 1], id);
      if u.reason.NoScript? {
        assert Carriable(us) == Carriable(us[..|us| - 1]);
      } else {
        SumSnoc(Carriable(us[..|us| - 1]), Paid(u.identity, u.sats), PaidTo(id));
      }
    }
  }

  lemma {:induction false} RecordedTo(b: Block, issued: nat, qs: seq<Payee>, id: string)
    ensures Sum(RecordedPays(b, issued, qs), PaidTo(id)) == Sum(qs, RecordedToIn(b, issued, id))
  {
    if qs != [] {
      var init, q := qs[..|qs| - 1], qs[|qs| - 1];
      RecordedTo(b, issued, init, id);
      SumSnoc(RecordedPays(b, issued, init), Paid(q.identity, RecordedFor(b, issued, q)), PaidTo(id));
      assert RecordedPays(b, issued, init) + [] == RecordedPays(b, issued, init);
    }
  }

  // What the coinbase paid one identity.
  ghost function Received(b: Block, s: Split, id: string): nat {
    Sum(s.payees, PaidToIn(b, id))
  }

  // What an identity was issued and is neither paid nor recorded as owed.
  ghost function Forfeited(b: Block, s: Split, id: string): int {
    Sum(s.payees, SatsTo(id)) - Sum(s.payees, PaidToIn(b, id)) - Sum(s.payees, RecordedToIn(b, s.value, id))
  }

  ghost function EarnedAll(b: Block, id: string): nat {
    if b.t.totalWork == 0 then 0 else Sum(b.ms, EarnedBy(b.t, id))
  }

  // Before and after a block, what an identity has been paid plus what it is owed differ
  // by exactly what it earned, less what has no script and what it forfeits.
  lemma ClaimKept(b: Block, owed: map<string, nat>, id: string)
    requires Sound(b, owed)
    ensures var s := SplitAt(b, owed);
            Received(b, s, id) + Due(AfterBlock(b, owed), id) + Sum(s.unpaid, NoScriptTo(id)) + Forfeited(b, s, id)
            == Due(owed, id) + EarnedAll(b, id)
  {
    var s, keys := SplitAt(b, owed), SortedKeys(owed.Keys);
    CarryPaidCovered(b, owed);
    SettledTo(owed, s.carryPaid, id);
    SettledAllBalance(owed, s.carryPaid);
    AddedTo(SettledAll(owed, s.carryPaid), RecordUnpaid(b, s), id);
    CarryTo(b.t, BeforeCarry(b.t, b.ms), keys, owed, id);
    CarriableTo(s.unpaid, id);
    SumConcat(Carriable(s.unpaid), RecordedPays(b, s.value, s.payees), PaidTo(id));
    RecordedTo(b, s.value, s.payees, id);
    if b.t.totalWork > 0 {
      BaseTo(b.t, b.ms, id);
    }
  }

  // ---- who loses when a block is worth less -------------------------------------------

  // A gateway that scales every issued amount by what its block is worth.
  ghost predicate PaysInProportion(b: Block, s: Split) {
    forall i :: 0 <= i < |s.payees| ==> b.paid(s.payees[i]) == Scaled(s.payees[i].sats, b.actual, s.value)
  }

  // A payee whose issued amount is scaled, by the coinbase or by the record. One that a
  // partial coinbase dropped is not: it is recorded with its whole amount.
  predicate IsScaled(b: Block, q: Payee) {
    b.kind.Partial? ==> q.script in b.kind.present
  }

  // What an identity was issued in such amounts.
  ghost function AtStake(b: Block, id: string): Payee -> nat {
    (q: Payee) => if q.identity == id && IsScaled(b, q) then q.sats else 0
  }

  lemma ScaledShrinks(sats: nat, actual: nat, issued: nat)
    requires actual < issued
    ensures Scaled(sats, actual, issued) <= sats
    ensures sats > 0 ==> Scaled(sats, actual, issued) < sats
  {
    DivBounds(sats * actual, issued);
    if sats > 0 {
      assert sats * actual < sats * issued;
      MulCancelStrict(Scaled(sats, actual, issued), sats, issued);
    }
  }

  lemma {:induction false} ScaledLoss(b: Block, issued: nat, qs: seq<Payee>, id: string)
    requires b.actual < issued
    requires forall i :: 0 <= i < |qs| ==> b.paid(qs[i]) == Scaled(qs[i].sats, b.actual, issued)
    ensures var kept := Sum(qs, PaidToIn(b, id)) + Sum(qs, RecordedToIn(b, issued, id));
            && kept <= Sum(qs, SatsTo(id))
            && (kept < Sum(qs, SatsTo(id)) <==> Sum(qs, AtStake(b, id)) > 0)
  {
    if qs != [] {
      ScaledLoss(b, issued, qs[..|qs| - 1], id);
      ScaledShrinks(qs[|qs| - 1].sats, b.actual, issued);
    }
  }

  // On a block worth less than its split assumed, paid in proportion, nobody ends with
  // more than it came with and earned, and an identity ends with less exactly when the
  // issued list gave it an amount that is scaled: carry is settled in full although it was
  // paid in part. Payees a partial coinbase dropped lose nothing.
  lemma RescaledClaims(b: Block, owed: map<string, nat>, id: string)
    requires Sound(b, owed) && b.actual < b.t.value && PaysInProportion(b, SplitAt(b, owed))
    ensures var s := SplitAt(b, owed);
            var before := Due(owed, id) + EarnedAll(b, id) - Sum(s.unpaid, NoScriptTo(id));
            var after := Received(b, s, id) + Due(AfterBlock(b, owed), id);
            && after <= before
            && (after < before <==> Sum(s.payees, AtStake(b, id)) > 0)
  {
    ClaimKept(b, owed, id);
    ScaledLoss(b, b.t.value, SplitAt(b, owed).payees, id);
  }

  // ---- a block that does it -----------------------------------------------------------

  // An empty window and one identity owed exactly the block's value.
  ghost predicate CarryOnly(b: Block, id: string, script: Script) {
    && b.ms == [] && b.t.totalWork == 0 && 0 < 2 * b.t.value <= U64_MAX
    && b.t.params.minPayout <= b.t.value && b.t.params.maxOutputs >= 1 && b.t.params.maxPayees == 0
    && OutputBytes(script) <= b.t.params.outputBudgetBytes
    && b.t.scriptFor(id) == Some(script)
  }

  lemma CarryOnlySplit(b: Block, id: string, script: Script)
    requires CarryOnly(b, id, script)
    ensures Sane(b.t, b.ms)
    ensures var s := SplitAt(b, map[id := b.t.value]);
            s.payees == [Payee(id, 0, b.t.value, script)] && s.unpaid == [] && s.value == b.t.value
  {
    var owed := map[id := b.t.value];
    OneKey(id);
    assert owed.Keys == {id};
    assert [id][..0] == [];
    var cs := BeforeCarry(b.t, b.ms);
    assert cs == CarryStage([], 0, b.t.value, []);
    assert CarryFold(b.t, cs, [id], owed) == CarryStep(b.t, CarryFold(b.t, cs, [], owed), id, b.t.value);
  }

  lemma OneKey(id: string)
    ensures SortedKeys({id}) == [id]
  {
    SortedKeysFaithful({id});
    var keys := SortedKeys({id});
    assert keys[0] in keys && keys[0] in {id};
  }

  lemma SumOfOne<T(!new)>(x: T, f: T -> nat)
    ensures Sum([x], f) == f(x)
  {
    assert [x] == [] + [x];
    SumSnoc([], x, f);
  }

  lemma WholeScaled(v: nat, actual: nat)
    requires v > 0
    ensures Scaled(v, actual, v) == actual
  {
    Distribute(v, actual, 1);
    DivUnique(v * actual, v, actual);
  }

  lemma CarryOnlySound(b: Block, id: string, script: Script)
    requires CarryOnly(b, id, script) && b.actual < b.t.value && (b.kind.FullSplit? || b.kind.PoolOnly?)
    ensures Sound(b, map[id := b.t.value])
  {
    var owed := map[id := b.t.value];
    CarryOnlySplit(b, id, script);
    var s := SplitAt(b, owed);
    RecordedAdds(b, s.value, s.payees);
    SumOfOne(s.payees[0], RecordedIn(b, s.value));
    WholeScaled(b.t.value, b.actual);
    assert Carriable([]) == [] && [] + RecordedPays(b, s.value, s.payees) == RecordedPays(b, s.value, s.payees);
    BalanceOfOne(id, b.t.value);
  }

  lemma BalanceOfOne(id: string, v: nat)
    ensures Balance(map[id := v]) == v
  {
    BalanceSplit(map[id := v], id);
    assert map[id := v] - {id} == map[];
  }

  // On a block worth less than its value, the identity is paid, or left owed, `actual`
  // instead of the whole: the rest of its claim is gone.
  lemma CarryIsLost(b: Block, id: string, script: Script)
    requires CarryOnly(b, id, script) && b.actual < b.t.value
    requires b.kind.FullSplit? || b.kind.PoolOnly?
    requires b.paid(Payee(id, 0, b.t.value, script)) == Scaled(b.t.value, b.actual, b.t.value)
    ensures var owed := map[id := b.t.value];
            Sound(b, owed) && Received(b, SplitAt(b, owed), id) + Due(AfterBlock(b, owed), id) == b.actual < Due(owed, id)
  {
    var owed := map[id := b.t.value];
    CarryOnlySplit(b, id, script);
    CarryOnlySound(b, id, script);
    ClaimKept(b, owed, id);
    var q := Payee(id, 0, b.t.value, script);
    SumOfOne(q, SatsTo(id));
    SumOfOne(q, PaidToIn(b, id));
    SumOfOne(q, RecordedToIn(b, b.t.value, id));
    WholeScaled(b.t.value, b.actual);
  }
}
