// What a verdict on a coinbase guarantees: no sat of a full split can be diverted past
// the pool, the issued scripts and the burnt outputs.
module CoinbasePolicyLaws {
  import opened Prelude
  import opened Outputs
  import opened CoinbasePolicy

  lemma {:induction false} MinerListed(issued: seq<Output>, pool: Script, k: nat) returns (j: nat)
    requires k < |issued| && IsMiner(issued[k], pool)
    ensures j < |Miners(issued, pool)| && Miners(issued, pool)[j] == issued[k]
  {
    if k == |issued| - 1 {
      j := |Miners(issued, pool)| - 1;
    } else {
      j := MinerListed(issued[..|issued| - 1], pool, k);
    }
  }

  lemma {:induction false} MinerWasIssued(issued: seq<Output>, pool: Script, j: nat) returns (k: nat)
    requires j < |Miners(issued, pool)|
    ensures k < |issued| && issued[k] == Miners(issued, pool)[j]
  {
    var init := issued[..|issued| - 1];
    if j < |Miners(init, pool)| {
      k := MinerWasIssued(init, pool, j);
    } else {
      k := |issued| - 1;
    }
  }

  // Selecting the miner outputs loses none of what a miner script was issued.
  lemma {:induction false} MinersKeepTotals(issued: seq<Output>, pool: Script, script: Script)
    requires script != pool && !OpReturn(script)
    ensures Sum(Miners(issued, pool), SatsTo(script)) == Sum(issued, SatsTo(script))
  {
    if issued != [] {
      var init, i := issued[..|issued| - 1], issued[|issued| - 1];
      MinersKeepTotals(init, pool, script);
      SumSnoc(Miners(init, pool), i, SatsTo(script));
    }
  }

  lemma {:induction false} AllPresent(outs: seq<TxOut>, miners: seq<Output>)
    ensures Sum(miners, PaidAt(outs)) <= |miners|
    ensures Sum(miners, PaidAt(outs)) == |miners| <==>
              forall k :: 0 <= k < |miners| ==> PaidTo(outs, miners[k].script) > 0
  {
    if miners != [] {
      AllPresent(outs, miners[..|miners| - 1]);
    }
  }

  // The verdict Split, without the order in which the program looks.
  lemma SplitIff(outs: seq<TxOut>, pool: Script, issued: seq<Output>, tolerance: u64)
    ensures Classify(outs, pool, Some(issued), tolerance) == Split <==>
              var miners, value := Miners(issued, pool), Sum(issued, SatsIn());
              && AllSanctioned(outs, pool, issued)
              && CommitsPresent(outs, issued)
              && !AnyOver(outs, miners, value, Slack(tolerance, issued))
              && !AnyShort(outs, miners, value, tolerance)
              && (forall k :: 0 <= k < |miners| ==> PaidTo(outs, miners[k].script) > 0)
              && (PoolPaid(outs, pool) || miners != [])
  {
    AllPresent(outs, Miners(issued, pool));
  }

  // ---- no diversion -------------------------------------------------------------------

  ghost function BurntValue(): TxOut -> nat { (o: TxOut) => if OpReturn(o.script) then o.value else 0 }
  ghost function ValueIn(scripts: set<Script>): TxOut -> nat { (o: TxOut) => if o.script in scripts then o.value else 0 }
  ghost function IssuedIn(scripts: set<Script>): Output -> nat { (i: Output) => if i.script in scripts then i.sats else 0 }

  ghost function MinerScripts(issued: seq<Output>, pool: Script): set<Script> {
    set k | 0 <= k < |issued| && IsMiner(issued[k], pool) :: issued[k].script
  }

  lemma {:induction false} ValueInAdds(outs: seq<TxOut>, scripts: set<Script>, s: Script)
    requires s in scripts
    ensures Sum(outs, ValueIn(scripts)) == Sum(outs, ValueIn(scripts - {s})) + Sum(outs, ValueTo(s))
  {
    if outs != [] {
      ValueInAdds(outs[..|outs| - 1], scripts, s);
    }
  }

  lemma {:induction false} IssuedInAdds(issued: seq<Output>, scripts: set<Script>, s: Script)
    requires s in scripts
    ensures Sum(issued, IssuedIn(scripts)) == Sum(issued, IssuedIn(scripts - {s})) + Sum(issued, SatsTo(s))
  {
    if issued != [] {
      IssuedInAdds(issued[..|issued| - 1], scripts, s);
    }
  }

  lemma CeilingAdds(a: nat, b: nat, actual: nat, issued: nat)
    ensures Ceiling(a, actual, issued) + Ceiling(b, actual, issued) <= Ceiling(a + b, actual, issued)
    ensures Ceiling(a, actual, issued) >= 0
  {
    if issued > 0 && actual > issued {
      DivAtLeast(a * actual, issued, 0);
      DivBounds(a * actual, issued);
      DivBounds(b * actual, issued);
      Distribute(actual, a, b);
      Distribute(issued, Ratio(a, actual, issued), Ratio(b, actual, issued));
      DivAtLeast((a + b) * actual, issued, Ratio(a, actual, issued) + Ratio(b, actual, issued));
    }
  }

  // Together the miner scripts get no more than their issued total, scaled once, and a
  // slack per script.
  lemma {:induction false} ScriptsWithinCeiling(outs: seq<TxOut>, issued: seq<Output>, scripts: set<Script>, actual: nat,
                                                value: nat, slack: nat)
    requires forall s :: s in scripts ==> Sum(outs, ValueTo(s)) <= Ceiling(Sum(issued, SatsTo(s)), actual, value) + slack
    ensures Sum(outs, ValueIn(scripts)) <= Ceiling(Sum(issued, IssuedIn(scripts)), actual, value) + |scripts| * slack
  {
    if scripts == {} {
      NothingIn(outs);
      CeilingAdds(Sum(issued, IssuedIn(scripts)), 0, actual, value);
    } else {
      var s :| s in scripts;
      var rest := scripts - {s};
      ScriptsWithinCeiling(outs, issued, rest, actual, value, slack);
      ValueInAdds(outs, scripts, s);
      IssuedInAdds(issued, scripts, s);
      CeilingAdds(Sum(issued, IssuedIn(rest)), Sum(issued, SatsTo(s)), actual, value);
      assert |scripts| == |rest| + 1;
      Distribute(slack, |rest|, 1);
    }
  }

  lemma {:induction false} NothingIn(outs: seq<TxOut>)
    ensures Sum(outs, ValueIn({})) == 0
  {
    if outs != [] {
      NothingIn(outs[..|outs| - 1]);
    }
  }

  lemma {:induction false} ValueSplitsUp(outs: seq<TxOut>, pool: Script, scripts: set<Script>)
    requires forall k :: 0 <= k < |outs| ==>
               OpReturn(outs[k].script) || outs[k].script == pool || outs[k].script in scripts
    ensures Sum(outs, ValueOf()) <= Sum(outs, ValueTo(pool)) + Sum(outs, BurntValue()) + Sum(outs, ValueIn(scripts))
  {
    if outs != [] {
      ValueSplitsUp(outs[..|outs| - 1], pool, scripts);
    }
  }

  lemma {:induction false} IssuedInBounded(issued: seq<Output>, pool: Script, scripts: set<Script>)
    requires forall s :: s in scripts ==> s != pool && !OpReturn(s)
    ensures Sum(issued, IssuedIn(scripts)) <= Sum(Miners(issued, pool), SatsIn())
  {
    if issued != [] {
      var init, i := issued[..|issued| - 1], issued[|issued| - 1];
      IssuedInBounded(init, pool, scripts);
      SumSnoc(Miners(init, pool), i, SatsIn());
    }
  }

  lemma CeilingMono(a: nat, b: nat, actual: nat, issued: nat)
    requires a <= b
    ensures Ceiling(a, actual, issued) <= Ceiling(b, actual, issued)
  {
    CeilingAdds(a, b - a, actual, issued);
    CeilingAdds(b - a, 0, actual, issued);
  }

  // The tolerance and a sat per issued output, for every miner script.
  ghost function Spread(issued: seq<Output>, pool: Script, tolerance: u64): nat {
    |MinerScripts(issued, pool)| * (tolerance + |issued|)
  }

  // Of a coinbase worth `actual`, what is not `elsewhere` is no more than what was issued to
  // the miners, scaled up if the coinbase is worth more than the list.
  ghost predicate LeavesOnly(actual: nat, value: nat, elsewhere: nat, toMiners: nat) {
    && (actual <= value || value == 0 ==> actual - elsewhere <= toMiners)
    && (actual > value > 0 ==> (actual - elsewhere) * value <= toMiners * actual)
  }

  // No sat leaves a full split: every commitment is there, nobody outside the list is
  // paid, every miner has its scaled amount, and what the pool gets is at least the value
  // less the burnt outputs and the miners' scaled total with the slack for each script.
  lemma NoDiversion(outs: seq<TxOut>, pool: Script, issued: seq<Output>, tolerance: u64)
    requires Classify(outs, pool, Some(issued), tolerance) == Split
    requires Sum(outs, ValueOf()) <= U64_MAX
    ensures forall k :: 0 <= k < |issued| && OpReturn(issued[k].script) ==> Pays(outs, issued[k].script)
    ensures forall k :: 0 <= k < |outs| ==>
              OpReturn(outs[k].script) || outs[k].script == pool || outs[k].script in MinerScripts(issued, pool)
    ensures forall k :: 0 <= k < |issued| && IsMiner(issued[k], pool) ==>
              Sum(outs, ValueTo(issued[k].script)) > 0 && WithinBounds(outs, issued, tolerance, issued[k])
    ensures LeavesOnly(Sum(outs, ValueOf()), Sum(issued, SatsIn()),
                       Sum(outs, BurntValue()) + Sum(outs, ValueTo(pool)) + Spread(issued, pool, tolerance),
                       Sum(Miners(issued, pool), SatsIn()))
  {
    SplitIff(outs, pool, issued, tolerance);
    forall k | 0 <= k < |issued| && IsMiner(issued[k], pool)
      ensures Sum(outs, ValueTo(issued[k].script)) > 0 && WithinBounds(outs, issued, tolerance, issued[k])
    {
      var j := MinerListed(issued, pool, k);
      assert PaidTo(outs, Miners(issued, pool)[j].script) > 0;
      MinerWithinBounds(outs, pool, issued, tolerance, k);
    }
    SanctionedMeans(outs, pool, issued);
    PoolKeepsRest(outs, pool, issued, tolerance);
  }

  // What is left for the pool once nobody is paid outside the list or over a ceiling.
  lemma PoolKeepsRest(outs: seq<TxOut>, pool: Script, issued: seq<Output>, tolerance: u64)
    requires forall k :: 0 <= k < |outs| ==>
               OpReturn(outs[k].script) || outs[k].script == pool || outs[k].script in MinerScripts(issued, pool)
    requires forall k :: 0 <= k < |issued| && IsMiner(issued[k], pool) ==> WithinBounds(outs, issued, tolerance, issued[k])
    ensures LeavesOnly(Sum(outs, ValueOf()), Sum(issued, SatsIn()),
                       Sum(outs, BurntValue()) + Sum(outs, ValueTo(pool)) + Spread(issued, pool, tolerance),
                       Sum(Miners(issued, pool), SatsIn()))
  {
    MinersTogether(outs, pool, issued, tolerance);
    ValueSplitsUp(outs, pool, MinerScripts(issued, pool));
    RestOfValue(Sum(outs, ValueOf()), Sum(issued, SatsIn()), Sum(outs, BurntValue()), Sum(outs, ValueTo(pool)),
                Sum(outs, ValueIn(MinerScripts(issued, pool))), Spread(issued, pool, tolerance),
                Sum(Miners(issued, pool), SatsIn()));
  }

  lemma MinersTogether(outs: seq<TxOut>, pool: Script, issued: seq<Output>, tolerance: u64)
    requires forall k :: 0 <= k < |issued| && IsMiner(issued[k], pool) ==> WithinBounds(outs, issued, tolerance, issued[k])
    ensures var scripts := MinerScripts(issued, pool);
            Sum(outs, ValueIn(scripts))
            <= Ceiling(Sum(Miners(issued, pool), SatsIn()), Sum(outs, ValueOf()), Sum(issued, SatsIn()))
               + Spread(issued, pool, tolerance)
  {
    var actual, value := Sum(outs, ValueOf()), Sum(issued, SatsIn());
    var scripts, slack := MinerScripts(issued, pool), tolerance + |issued|;
    forall s | s in scripts ensures Sum(outs, ValueTo(s)) <= Ceiling(Sum(issued, SatsTo(s)), actual, value) + slack {
      var k :| 0 <= k < |issued| && IsMiner(issued[k], pool) && issued[k].script == s;
      BoundsAreFloorAndCeiling(outs, issued, tolerance, issued[k]);
    }
    ScriptsWithinCeiling(outs, issued, scripts, actual, value, slack);
    IssuedInBounded(issued, pool, scripts);
    CeilingMono(Sum(issued, IssuedIn(scripts)), Sum(Miners(issued, pool), SatsIn()), actual, value);
  }

  lemma RestOfValue(actual: nat, value: nat, burnt: nat, toPool: nat, paid: nat, spread: nat, toMiners: nat)
    requires actual <= toPool + burnt + paid && paid <= Ceiling(toMiners, actual, value) + spread
    ensures LeavesOnly(actual, value, burnt + toPool + spread, toMiners)
  {
    CeilingKept(paid, spread, toMiners, actual, value);
    MulMono(actual - (burnt + toPool + spread), paid - spread, value);
  }

  lemma SanctionedMeans(outs: seq<TxOut>, pool: Script, issued: seq<Output>)
    requires AllSanctioned(outs, pool, issued)
    ensures forall k :: 0 <= k < |outs| ==>
              OpReturn(outs[k].script) || outs[k].script == pool || outs[k].script in MinerScripts(issued, pool)
  {
  }

  lemma {:induction false} PaidToExact(outs: seq<TxOut>, script: Script)
    ensures Sum(outs, ValueTo(script)) <= Sum(outs, ValueOf())
  {
    if outs != [] {
      PaidToExact(outs[..|outs| - 1], script);
    }
  }

  // A miner that is paid anything gets at least its issued amount, less the tolerance, from
  // a coinbase worth the list, and that amount scaled down and floored from one worth less;
  // its script gets at most what was issued to it, scaled up for a coinbase worth more,
  // with the tolerance and a sat per issued output on top.
  ghost predicate WithinBounds(outs: seq<TxOut>, issued: seq<Output>, tolerance: u64, i: Output) {
    var actual, value := Sum(outs, ValueOf()), Sum(issued, SatsIn());
    var paid, issuedTo := Sum(outs, ValueTo(i.script)), Sum(issued, SatsTo(i.script));
    && (actual >= value || value == 0 ==> paid + tolerance >= i.sats)
    && (actual < value ==> (paid + tolerance + 1) * value > i.sats * actual)
    && (actual <= value || value == 0 ==> paid <= issuedTo + tolerance + |issued|)
    && (actual > value > 0 ==> (paid - tolerance - |issued|) * value <= issuedTo * actual)
  }

  lemma OwedMet(paid: nat, sats: nat, actual: nat, value: nat)
    ensures paid >= Owed(sats, actual, value) <==>
              (actual >= value || value == 0 ==> paid >= sats) && (actual < value ==> (paid + 1) * value > sats * actual)
  {
    if actual < value {
      DivAtLeast(sats * actual, value, paid + 1);
    }
  }

  lemma CeilingKept(paid: nat, slack: nat, issuedTo: nat, actual: nat, value: nat)
    ensures paid <= Ceiling(issuedTo, actual, value) + slack <==>
              && (actual <= value || value == 0 ==> paid <= issuedTo + slack)
              && (actual > value > 0 ==> (paid - slack) * value <= issuedTo * actual)
  {
    if actual > value > 0 {
      CeilingAdds(issuedTo, 0, actual, value);
      if paid > slack {
        DivAtLeast(issuedTo * actual, value, paid - slack);
      } else {
        MulMono(paid - slack, 0, value);
      }
    }
  }

  lemma BoundsAreFloorAndCeiling(outs: seq<TxOut>, issued: seq<Output>, tolerance: u64, i: Output)
    ensures WithinBounds(outs, issued, tolerance, i) <==>
              var actual, value, paid := Sum(outs, ValueOf()), Sum(issued, SatsIn()), Sum(outs, ValueTo(i.script));
              && paid + tolerance >= Owed(i.sats, actual, value)
              && paid <= Ceiling(Sum(issued, SatsTo(i.script)), actual, value) + (tolerance + |issued|)
  {
    var actual, value, paid := Sum(outs, ValueOf()), Sum(issued, SatsIn()), Sum(outs, ValueTo(i.script));
    OwedMet(paid + tolerance, i.sats, actual, value);
    CeilingKept(paid, tolerance + |issued|, Sum(issued, SatsTo(i.script)), actual, value);
  }

  // A paid miner is neither short nor over exactly when it is within its bounds.
  lemma MinerJudged(outs: seq<TxOut>, pool: Script, issued: seq<Output>, tolerance: u64, i: Output)
    requires IsMiner(i, pool) && Sum(outs, ValueOf()) <= U64_MAX && Sum(outs, ValueTo(i.script)) > 0
    ensures PaidTo(outs, i.script) == Sum(outs, ValueTo(i.script))
    ensures var miners, value := Miners(issued, pool), Sum(issued, SatsIn());
            WithinBounds(outs, issued, tolerance, i) <==>
              !Short(outs, i, value, tolerance) && !Over(outs, i.script, miners, value, Slack(tolerance, issued))
  {
    PaidToExact(outs, i.script);
    MinersKeepTotals(issued, pool, i.script);
    BoundsAreFloorAndCeiling(outs, issued, tolerance, i);
    OwedBounded(i.sats, Sum(outs, ValueOf()), Sum(issued, SatsIn()));
    CeilingAdds(Sum(issued, SatsTo(i.script)), 0, Sum(outs, ValueOf()), Sum(issued, SatsIn()));
  }

  lemma MinerWithinBounds(outs: seq<TxOut>, pool: Script, issued: seq<Output>, tolerance: u64, k: nat)
    requires k < |issued| && IsMiner(issued[k], pool) && Sum(outs, ValueOf()) <= U64_MAX
    requires !AnyOver(outs, Miners(issued, pool), Sum(issued, SatsIn()), Slack(tolerance, issued))
    requires !AnyShort(outs, Miners(issued, pool), Sum(issued, SatsIn()), tolerance)
    ensures PaidTo(outs, issued[k].script) == Sum(outs, ValueTo(issued[k].script))
    ensures Sum(outs, ValueTo(issued[k].script)) > 0 ==> WithinBounds(outs, issued, tolerance, issued[k])
  {
    var i, miners, value := issued[k], Miners(issued, pool), Sum(issued, SatsIn());
    var j := MinerListed(issued, pool, k);
    PaidToExact(outs, i.script);
    assert !Short(outs, miners[j], value, tolerance);
    assert !Over(outs, miners[j].script, miners, value, Slack(tolerance, issued));
    if Sum(outs, ValueTo(i.script)) > 0 {
      MinerJudged(outs, pool, issued, tolerance, i);
    }
  }

  // The verdict over the outputs and the list alone: a full split is a coinbase that pays
  // only burnt outputs, the pool and issued scripts, holds every issued burnt output, pays
  // every other issued script but the pool's within its bounds, and pays anybody at all.
  lemma SplitExactly(outs: seq<TxOut>, pool: Script, issued: seq<Output>, tolerance: u64)
    requires Sum(outs, ValueOf()) <= U64_MAX
    ensures Classify(outs, pool, Some(issued), tolerance) == Split <==>
              && (forall k :: 0 <= k < |outs| ==>
                    || (outs[k].script != [] && outs[k].script[0] == 0x6A) || outs[k].script == pool
                    || exists j :: 0 <= j < |issued| && issued[j].script == outs[k].script)
              && (forall k :: 0 <= k < |issued| && issued[k].script != [] && issued[k].script[0] == 0x6A ==>
                    exists j :: 0 <= j < |outs| && outs[j].script == issued[k].script)
              && (forall k :: 0 <= k < |issued| && issued[k].script != pool
                              && (issued[k].script == [] || issued[k].script[0] != 0x6A) ==>
                    Sum(outs, ValueTo(issued[k].script)) > 0 && WithinBounds(outs, issued, tolerance, issued[k]))
              && ((exists k :: 0 <= k < |outs| && outs[k].script == pool
                               && (outs[k].script == [] || outs[k].script[0] != 0x6A))
                  || exists k :: 0 <= k < |issued| && issued[k].script != pool
                                 && (issued[k].script == [] || issued[k].script[0] != 0x6A))
  {
    SplitIff(outs, pool, issued, tolerance);
    MinersJudged(outs, pool, issued, tolerance);
    SomeMiner(issued, pool);
  }

  lemma SomeMiner(issued: seq<Output>, pool: Script)
    ensures Miners(issued, pool) != [] <==> exists k :: 0 <= k < |issued| && IsMiner(issued[k], pool)
  {
    if Miners(issued, pool) != [] {
      var k := MinerWasIssued(issued, pool, 0);
    }
    if k :| 0 <= k < |issued| && IsMiner(issued[k], pool) {
      var j := MinerListed(issued, pool, k);
    }
  }

  lemma MinersJudged(outs: seq<TxOut>, pool: Script, issued: seq<Output>, tolerance: u64)
    requires Sum(outs, ValueOf()) <= U64_MAX
    ensures var miners, value := Miners(issued, pool), Sum(issued, SatsIn());
            && !AnyOver(outs, miners, value, Slack(tolerance, issued))
            && !AnyShort(outs, miners, value, tolerance)
            && (forall j :: 0 <= j < |miners| ==> PaidTo(outs, miners[j].script) > 0)
            <==>
            forall k :: 0 <= k < |issued| && IsMiner(issued[k], pool) ==>
              Sum(outs, ValueTo(issued[k].script)) > 0 && WithinBounds(outs, issued, tolerance, issued[k])
  {
    var miners, value := Miners(issued, pool), Sum(issued, SatsIn());
    if forall k :: 0 <= k < |issued| && IsMiner(issued[k], pool) ==>
         Sum(outs, ValueTo(issued[k].script)) > 0 && WithinBounds(outs, issued, tolerance, issued[k])
    {
      forall j | 0 <= j < |miners|
        ensures PaidTo(outs, miners[j].script) > 0 && !Short(outs, miners[j], value, tolerance)
        ensures !Over(outs, miners[j].script, miners, value, Slack(tolerance, issued))
      {
        var k := MinerWasIssued(issued, pool, j);
        MinerJudged(outs, pool, issued, tolerance, miners[j]);
      }
    }
    if !AnyOver(outs, miners, value, Slack(tolerance, issued)) && !AnyShort(outs, miners, value, tolerance)
       && forall j :: 0 <= j < |miners| ==> PaidTo(outs, miners[j].script) > 0
    {
      forall k | 0 <= k < |issued| && IsMiner(issued[k], pool)
        ensures Sum(outs, ValueTo(issued[k].script)) > 0 && WithinBounds(outs, issued, tolerance, issued[k])
      {
        var j := MinerListed(issued, pool, k);
        assert PaidTo(outs, miners[j].script) > 0;
        MinerWithinBounds(outs, pool, issued, tolerance, k);
      }
    }
  }

  // In particular a miner that is paid, but short of its floor or over its ceiling, keeps a
  // coinbase from being a full split, and from being a partial one whose commitments are
  // all there.
  lemma OutOfBoundsRefused(outs: seq<TxOut>, pool: Script, issued: seq<Output>, tolerance: u64, k: nat)
    requires Sum(outs, ValueOf()) <= U64_MAX && k < |issued| && issued[k].script != pool
    requires issued[k].script == [] || issued[k].script[0] != 0x6A
    requires Sum(outs, ValueTo(issued[k].script)) > 0 && !WithinBounds(outs, issued, tolerance, issued[k])
    ensures Classify(outs, pool, Some(issued), tolerance) != Split
    ensures CommitsPresent(outs, issued) ==> Classify(outs, pool, Some(issued), tolerance) == Foreign
  {
    if AllSanctioned(outs, pool, issued) && CommitsPresent(outs, issued) {
      var j := MinerListed(issued, pool, k);
      MinerJudged(outs, pool, issued, tolerance, issued[k]);
      PaidSomewhere(outs, issued[k].script);
    }
    SplitExactly(outs, pool, issued, tolerance);
  }

  lemma {:induction false} PaidSomewhere(outs: seq<TxOut>, script: Script)
    requires Sum(outs, ValueTo(script)) > 0
    ensures Pays(outs, script)
  {
    if !Pays(outs, script) {
      UnpaidScript(outs, script);
    }
  }

  lemma OwedBounded(sats: u64, actual: nat, issued: nat)
    ensures Owed(sats, actual, issued) <= U64_MAX
  {
    if issued > 0 && actual < issued {
      MulMono(actual, issued, sats);
      DivBounds(sats * actual, issued);
      MulCancel(Ratio(sats, actual, issued), sats, issued);
    }
  }

  // ---- the lesser verdicts ------------------------------------------------------------

  // Whatever is not foreign pays only the pool, issued scripts and burnt outputs.
  lemma AcceptedIsSanctioned(outs: seq<TxOut>, pool: Script, issued: Option<seq<Output>>, tolerance: u64)
    requires Classify(outs, pool, issued, tolerance) != Foreign
    ensures forall k :: 0 <= k < |outs| ==>
              || OpReturn(outs[k].script) || outs[k].script == pool
              || (issued.Some? && outs[k].script in MinerScripts(issued.value, pool))
  {
    if issued.Some? {
      SanctionedMeans(outs, pool, issued.value);
    }
  }

  // A partial payment with every commitment present names at least one paid miner and
  // holds each paid one to its bounds. (With a commitment missing nothing is checked.)
  lemma PartialMeans(outs: seq<TxOut>, pool: Script, issued: seq<Output>, tolerance: u64, k: nat)
    requires Classify(outs, pool, Some(issued), tolerance).Partial? && CommitsPresent(outs, issued)
    requires Sum(outs, ValueOf()) <= U64_MAX && k < |issued| && IsMiner(issued[k], pool)
    ensures Sum(outs, ValueTo(issued[k].script)) > 0 ==> WithinBounds(outs, issued, tolerance, issued[k])
    ensures Sum(Miners(issued, pool), PaidAt(outs)) > 0
  {
    MinerWithinBounds(outs, pool, issued, tolerance, k);
  }

  lemma {:induction false} NobodyPaid(outs: seq<TxOut>, issued: seq<Output>, j: nat)
    requires Sum(issued, PaidNonCommit(outs)) == 0 && j < |issued| && !OpReturn(issued[j].script)
    ensures PaidTo(outs, issued[j].script) == 0
  {
    SumAtLeastMember(issued, j, PaidNonCommit(outs));
  }

  // A pool-only coinbase puts value nowhere but on the pool and burnt outputs, and it
  // does pay the pool whenever no issued commitment is missing.
  lemma PoolOnlyMeans(outs: seq<TxOut>, pool: Script, issued: Option<seq<Output>>, tolerance: u64)
    requires Classify(outs, pool, issued, tolerance) == PoolOnly
    ensures forall k :: 0 <= k < |outs| && outs[k].value > 0 ==> OpReturn(outs[k].script) || outs[k].script == pool
    ensures issued.None? || CommitsPresent(outs, issued.value) ==> PoolPaid(outs, pool)
  {
    if issued.Some? && !CommitsPresent(outs, issued.value) {
      forall k | 0 <= k < |outs| && !OpReturn(outs[k].script) && outs[k].script != pool ensures outs[k].value == 0 {
        assert !IsForeign(outs[k], pool, issued.value);
        var j :| 0 <= j < |issued.value| && issued.value[j].script == outs[k].script;
        NobodyPaid(outs, issued.value, j);
        SumAtLeastMember(outs, k, ValueTo(outs[k].script));
      }
    }
  }

  ghost predicate HoldsCommitment(issued: seq<Output>) {
    exists k :: 0 <= k < |issued| && OpReturn(issued[k].script)
  }

  // A coinbase that burns v to a script no issued commitment has.
  ghost function Burning(commit: Script, v: u64): seq<TxOut> {
    [TxOut(v, commit + [0])]
  }

  lemma {:induction false} BurningPaysNobody(issued: seq<Output>, commit: Script, v: u64)
    requires OpReturn(commit)
    ensures Sum(issued, PaidNonCommit(Burning(commit, v))) == 0
  {
    if issued != [] {
      var outs, i := Burning(commit, v), issued[|issued| - 1];
      BurningPaysNobody(issued[..|issued| - 1], commit, v);
      assert outs[..0] == [] && Sum(outs[..0], ValueTo(i.script)) == 0;
      assert OpReturn(outs[0].script);
    }
  }

  lemma BurningPassesAsPoolOnly(issued: seq<Output>, k: nat, v: u64, pool: Script, tolerance: u64)
    requires k < |issued| && OpReturn(issued[k].script)
    ensures var outs := Burning(issued[k].script, v);
            Classify(outs, pool, Some(issued), tolerance) == PoolOnly && !PoolPaid(outs, pool)
  {
    var commit := issued[k].script;
    BurningPaysNobody(issued, commit, v);
    assert OpReturn(commit + [0]);
    assert |commit + [0]| != |commit|;
    assert !Pays(Burning(commit, v), issued[k].script);
  }

  // Every pool-only coinbase pays the pool exactly when the issued list holds no
  // commitment: against any list that holds one, burning everything passes too.
  lemma PoolOnlyPaysIff(issued: seq<Output>, pool: Script, tolerance: u64)
    ensures (forall outs :: Classify(outs, pool, Some(issued), tolerance) == PoolOnly ==> PoolPaid(outs, pool))
            <==> !HoldsCommitment(issued)
  {
    if HoldsCommitment(issued) {
      var k :| 0 <= k < |issued| && OpReturn(issued[k].script);
      BurningPassesAsPoolOnly(issued, k, 0, pool, tolerance);
    } else {
      forall outs | Classify(outs, pool, Some(issued), tolerance) == PoolOnly ensures PoolPaid(outs, pool) {
        PoolOnlyMeans(outs, pool, Some(issued), tolerance);
      }
    }
  }

  ghost function NamesPool(pool: Script): Output -> nat { (i: Output) => if i.script == pool then 1 else 0 }

  lemma {:induction false} OnlyPoolCounts(outs: seq<TxOut>, issued: seq<Output>, pool: Script)
    requires OnlyPool(outs, pool) && !OpReturn(pool) && PaidTo(outs, pool) > 0
    ensures Sum(issued, PaidNonCommit(outs)) == Sum(issued, NamesPool(pool))
  {
    if issued != [] {
      var i := issued[|issued| - 1];
      OnlyPoolCounts(outs, issued[..|issued| - 1], pool);
      if !OpReturn(i.script) && i.script != pool {
        UnpaidScript(outs, i.script);
      }
    }
  }

  lemma {:induction false} UnpaidScript(outs: seq<TxOut>, script: Script)
    requires forall k :: 0 <= k < |outs| ==> outs[k].script != script
    ensures Sum(outs, ValueTo(script)) == 0
  {
    if outs != [] {
      UnpaidScript(outs[..|outs| - 1], script);
    }
  }

  // With a commitment missing, a coinbase that pays only the pool counts as a partial
  // payment of every entry of the list that has the pool's script.
  lemma PoolCountsAsPaid(outs: seq<TxOut>, pool: Script, issued: seq<Output>, tolerance: u64)
    requires OnlyPool(outs, pool) && !OpReturn(pool) && PaidTo(outs, pool) > 0 && !CommitsPresent(outs, issued)
    ensures var n := Sum(issued, NamesPool(pool));
            Classify(outs, pool, Some(issued), tolerance) == if n > 0 then Partial(n % 0x1_0000) else PoolOnly
  {
    OnlyPoolCounts(outs, issued, pool);
  }
}
