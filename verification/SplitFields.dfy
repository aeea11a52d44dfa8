// The split in terms of what it is given: the fields of a window row, the parameters, the
// decoded scripts and the carry.
module SplitFields {
  import opened Prelude
  import opened Ranking
  import opened Split
  import opened SplitLaws
  import opened CappedLaws

  // ---- rates --------------------------------------------------------------------------

  // Stratum work is charged the stratum rate and the rest the datum rate; a stratum rate of
  // zero means the datum rate, an override both, and stratum work beyond the whole counts
  // as the whole.
  lemma ChargedByPath(t: Terms, m: MinerStat)
    ensures m.identity in t.params.feeOverrides ==>
              t.FeeWeight(m) == m.work * t.params.feeOverrides[m.identity]
    ensures m.identity !in t.params.feeOverrides && t.params.stratumFeeBps == 0 ==>
              t.FeeWeight(m) == m.work * t.params.feeBps
    ensures m.identity !in t.params.feeOverrides && t.params.stratumFeeBps > 0 && m.stratumWork <= m.work ==>
              t.FeeWeight(m) == m.stratumWork * t.params.stratumFeeBps + (m.work - m.stratumWork) * t.params.feeBps
    ensures m.identity !in t.params.feeOverrides && t.params.stratumFeeBps > 0 && m.stratumWork > m.work ==>
              t.FeeWeight(m) == m.work * t.params.stratumFeeBps
    ensures t.KeepWeight(m) == 10_000 * m.work - t.FeeWeight(m)
  {
    WeightsAddUp(t, m);
    if m.identity in t.params.feeOverrides {
      SameRate(Min(m.stratumWork, m.work), m.work, t.params.feeOverrides[m.identity]);
    } else if t.params.stratumFeeBps == 0 {
      SameRate(Min(m.stratumWork, m.work), m.work, t.params.feeBps);
    }
  }

  lemma SameRate(part: nat, whole: nat, rate: nat)
    requires part <= whole
    ensures part * rate + (whole - part) * rate == whole * rate
  {
    Distribute(rate, part, whole - part);
  }

  // Moving work onto stratum raises the fee weight by the difference of the rates, and by
  // nothing where an override makes them one.
  lemma MovedOntoStratum(t: Terms, m: MinerStat, k: nat)
    requires m.stratumWork + k <= m.work
    ensures var moved := m.(stratumWork := m.stratumWork + k);
            t.FeeWeight(moved) - t.FeeWeight(m) ==
              if m.identity in t.params.feeOverrides || t.params.stratumFeeBps == 0 then 0
              else k * (t.params.stratumFeeBps - t.params.feeBps)
  {
    ChargedByPath(t, m);
    ChargedByPath(t, m.(stratumWork := m.stratumWork + k));
    RatesShift(m.stratumWork, m.work - m.stratumWork, k, t.params.stratumFeeBps, t.params.feeBps);
  }

  lemma RatesShift(a: nat, b: nat, k: nat, s: nat, d: nat)
    requires k <= b
    ensures ((a + k) * s + (b - k) * d) - (a * s + b * d) == k * (s - d)
  {
    Distribute(s, a, k);
    Distribute(d, b - k, k);
    var gap: int := s - d;
    Distribute(k, gap, d);
  }

  // Both amounts are floors: what is kept of a miner's part of the value, and what is
  // charged on it.
  lemma AmountsAreFloors(t: Terms, m: MinerStat)
    requires t.totalWork > 0
    ensures t.Earned(m) * (t.totalWork * 10_000) <= t.value * (10_000 * m.work - t.FeeWeight(m))
            < (t.Earned(m) + 1) * (t.totalWork * 10_000)
    ensures t.FeeOf(m) * (t.totalWork * 10_000) <= t.value * t.FeeWeight(m) < (t.FeeOf(m) + 1) * (t.totalWork * 10_000)
  {
    WeightsAddUp(t, m);
    DivDivBounds(t.value * t.KeepWeight(m), t.totalWork, 10_000);
    DivDivBounds(t.value * t.FeeWeight(m), t.totalWork, 10_000);
  }

  // Without work in the window nobody earns or is charged anything.
  lemma NothingWithoutWork(t: Terms, m: MinerStat)
    requires t.totalWork == 0
    ensures t.Earned(m) == 0 && t.FeeOf(m) == 0
  {
  }

  // ---- the window pass ----------------------------------------------------------------

  // A miner becomes the next payee, for what it earned, exactly when that is the minimum
  // or more, it has a script, and the script's output fits the count and the bytes that are
  // left; otherwise it is unpaid, for the first of these reasons that applies.
  lemma PlacedByFields(t: Terms, ms: seq<MinerStat>, i: nat)
    requires t.totalWork > 0 && i < |ms|
    ensures var m, before, after := ms[i], Base(t, ms[..i]), Base(t, ms[..i + 1]);
            var earned, script := t.Earned(m), t.scriptFor(m.identity);
            if earned >= t.params.minPayout && script.Some? && |before.payees| < t.params.maxOutputs
               && Sum(before.payees, OutputSize()) + 9 + |script.value| <= t.params.outputBudgetBytes
            then
              && after.payees == before.payees + [Payee(m.identity, m.work, earned, script.value)]
              && after.unpaid == before.unpaid
            else
              && after.payees == before.payees
              && after.unpaid == before.unpaid + [Unpaid(m.identity, earned,
                   if earned < t.params.minPayout then BelowMinimum else if script.None? then NoScript else OverBudget)]
  {
    assert ms[..i + 1][..i] == ms[..i];
    BytesAreOutputs(t, ms[..i]);
  }

  // An output is eight bytes of value, one of length, and its script.
  ghost function OutputSize(): Payee -> nat { (q: Payee) => 9 + |q.script| }

  lemma {:induction false} BytesAreOutputs(t: Terms, ms: seq<MinerStat>)
    ensures Base(t, ms).bytes == Sum(Base(t, ms).payees, OutputSize())
  {
    if t.totalWork != 0 && ms != [] {
      var init, m := ms[..|ms| - 1], ms[|ms| - 1];
      BytesAreOutputs(t, init);
      var st, st' := Base(t, init), Base(t, ms);
      assert st' == BaseStep(t, st, m);
      if |st'.payees| > |st.payees| {
        SumSnoc(st.payees, st'.payees[|st.payees|], OutputSize());
      }
    }
  }

  // ---- the order ----------------------------------------------------------------------

  // Names are compared at their first difference, a prefix before what it begins.
  lemma {:induction false} NamesCompared(a: string, b: string)
    ensures StrLess(a, b) <==>
              || (|a| < |b| && b[..|a|] == a)
              || exists k :: 0 <= k < |a| && k < |b| && a[..k] == b[..k] && a[k] < b[k]
  {
    if a != "" && b != "" {
      NamesCompared(a[1..], b[1..]);
      if a[0] == b[0] {
        SharedFirst(a, b);
      } else {
        assert a[..0] == b[..0];
        forall k | 0 < k < |a| && k < |b| ensures a[..k] != b[..k] {
          assert a[..k][0] != b[..k][0];
        }
        if |a| < |b| {
          assert b[..|a|][0] != a[0];
        }
      }
    }
  }

  ghost predicate DiffersAt(a: string, b: string, k: nat) {
    k < |a| && k < |b| && a[..k] == b[..k] && a[k] < b[k]
  }

  lemma SharedFirst(a: string, b: string)
    requires a != "" && b != "" && a[0] == b[0]
    ensures (|a| < |b| && b[..|a|] == a) <==> (|a[1..]| < |b[1..]| && b[1..][..|a[1..]|] == a[1..])
    ensures (exists k :: 0 <= k < |a| && k < |b| && a[..k] == b[..k] && a[k] < b[k]) <==>
            (exists k :: 0 <= k < |a[1..]| && k < |b[1..]| && a[1..][..k] == b[1..][..k] && a[1..][k] < b[1..][k])
  {
    assert a == [a[0]] + a[1..] && b == [b[0]] + b[1..];
    if |a| < |b| {
      assert b[..|a|] == [b[0]] + b[1..][..|a[1..]|];
    }
    if k :| 0 <= k < |a| && k < |b| && a[..k] == b[..k] && a[k] < b[k] {
      assert a[1..][..k - 1] == a[..k][1..] && b[1..][..k - 1] == b[..k][1..];
      assert DiffersAt(a[1..], b[1..], k - 1);
    }
    if k :| 0 <= k < |a[1..]| && k < |b[1..]| && a[1..][..k] == b[1..][..k] && a[1..][k] < b[1..][k] {
      assert a[..k + 1] == [a[0]] + a[1..][..k] && b[..k + 1] == [b[0]] + b[1..][..k];
      assert DiffersAt(a, b, k + 1);
    }
  }

  // The cut keeps the most work: anybody it drops has less than everybody it keeps, or as
  // much and a later name.
  lemma CutKeepsMostWork(t: Terms, ms: seq<MinerStat>, q: Payee, p: Payee)
    requires Sane(t, ms) && Cuts(t, Base(t, ms))
    requires q in Base(t, ms).payees && p in AfterCut(t, ms).payees
    requires forall k :: k in AfterCut(t, ms).payees ==> k.identity != q.identity
    ensures p.work > q.work || (p.work == q.work && StrLess(p.identity, q.identity))
    ensures |AfterCut(t, ms).payees| == if |Base(t, ms).payees| > t.params.maxPayees then t.params.maxPayees
                                        else |Base(t, ms).payees|
  {
    CutIsTop(t, ms);
  }

  // ---- carry --------------------------------------------------------------------------

  // An identity's turn: nothing if the block is used up or nothing is owed ...
  lemma CarryNothing(t: Terms, cs: CarryStage, id: string, owed: nat)
    requires owed == 0 || cs.room == 0
    ensures CarryStep(t, cs, id, owed) == cs
  {
  }

  // ... otherwise as much as is owed and left, on its own first output if it has one ...
  lemma CarryRaises(t: Terms, cs: CarryStage, id: string, owed: nat, i: nat)
    requires owed > 0 && cs.room > 0 && i < |cs.payees| && cs.payees[i].identity == id
    requires forall j :: 0 <= j < i ==> cs.payees[j].identity != id
    ensures var give := if owed <= cs.room then owed else cs.room;
            CarryStep(t, cs, id, owed) ==
            CarryStage(cs.payees[i := cs.payees[i].(sats := cs.payees[i].sats + give)], cs.bytes, cs.room - give,
                       cs.gives + [Paid(id, give)])
  {
    var hit := FindPayee(cs.payees, id);
    assert hit.Some? && hit.value == i;
  }

  // ... or on a new one, if the amount is the minimum or more and the output fits.
  lemma CarryOpens(t: Terms, cs: CarryStage, id: string, owed: nat)
    requires owed > 0 && cs.room > 0 && forall j :: 0 <= j < |cs.payees| ==> cs.payees[j].identity != id
    ensures var give, script := if owed <= cs.room then owed else cs.room, t.scriptFor(id);
            CarryStep(t, cs, id, owed) ==
            if give >= t.params.minPayout && script.Some? && |cs.payees| < t.params.maxOutputs
               && cs.bytes + 9 + |script.value| <= t.params.outputBudgetBytes
            then CarryStage(cs.payees + [Payee(id, 0, give, script.value)], cs.bytes + 9 + |script.value|,
                            cs.room - give, cs.gives + [Paid(id, give)])
            else cs
  {
    assert FindPayee(cs.payees, id).None?;
  }

  // ---- the house rate, for one ----------------------------------------------------------

  // A million sats, one miner, all of its work on stratum at 250 points: it earns 975000.
  lemma HouseRateCharged(t: Terms, m: MinerStat)
    requires t.value == 1_000_000 && t.totalWork == m.work == m.stratumWork == 100
    requires t.params.feeBps == 50 && t.params.stratumFeeBps == 250 && m.identity !in t.params.feeOverrides
    ensures t.Earned(m) == 975_000 && t.FeeOf(m) == 25_000
  {
    ChargedByPath(t, m);
    assert t.KeepWeight(m) == 975_000;
  }
}
