// Where a coinbase sends the block reward, judged against the list the pool issued.
module CoinbasePolicy {
  import opened Prelude
  import opened Outputs

  // Every issued output paid in full; some of them; only the pool; anything else.
  datatype Kind = Split | Partial(count: u16) | PoolOnly | Foreign

  ghost function ValueTo(script: Script): TxOut -> nat { (o: TxOut) => if o.script == script then o.value else 0 }
  ghost function ValueOf(): TxOut -> nat { (o: TxOut) => o.value }
  ghost function SatsIn(): Output -> nat { (i: Output) => i.sats }
  ghost function SatsTo(script: Script): Output -> nat { (i: Output) => if i.script == script then i.sats else 0 }

  // Both totals saturate: the bytes are the gateway's.
  ghost function PaidTo(outs: seq<TxOut>, script: Script): u64 { Min(Sum(outs, ValueTo(script)), U64_MAX) }
  ghost function TotalValue(outs: seq<TxOut>): u64 { Min(Sum(outs, ValueOf()), U64_MAX) }

  ghost predicate Pays(outs: seq<TxOut>, script: Script) {
    exists k :: 0 <= k < |outs| && outs[k].script == script
  }

  ghost predicate Issues(issued: seq<Output>, script: Script) {
    exists k :: 0 <= k < |issued| && issued[k].script == script
  }

  // ---- the policy ---------------------------------------------------------------------

  // One output is neither an OP_RETURN, nor the pool's, nor on the list.
  ghost predicate IsForeign(o: TxOut, pool: Script, issued: seq<Output>) {
    !OpReturn(o.script) && o.script != pool && !Issues(issued, o.script)
  }

  ghost predicate AllSanctioned(outs: seq<TxOut>, pool: Script, issued: seq<Output>) {
    forall k :: 0 <= k < |outs| ==> !IsForeign(outs[k], pool, issued)
  }

  ghost predicate CommitsPresent(outs: seq<TxOut>, issued: seq<Output>) {
    forall k :: 0 <= k < |issued| && OpReturn(issued[k].script) ==> Pays(outs, issued[k].script)
  }

  ghost predicate PoolPaid(outs: seq<TxOut>, pool: Script) {
    exists k :: 0 <= k < |outs| && !OpReturn(outs[k].script) && outs[k].script == pool
  }

  ghost predicate OnlyPool(outs: seq<TxOut>, pool: Script) {
    forall k :: 0 <= k < |outs| ==> OpReturn(outs[k].script) || outs[k].script == pool
  }

  predicate IsMiner(i: Output, pool: Script) {
    i.script != pool && !OpReturn(i.script)
  }

  function Miners(issued: seq<Output>, pool: Script): (r: seq<Output>)
    ensures forall k :: 0 <= k < |r| ==> IsMiner(r[k], pool)
    ensures |r| <= |issued|
  {
    if issued == [] then []
    else
      var init, i := Miners(issued[..|issued| - 1], pool), issued[|issued| - 1];
      if IsMiner(i, pool) then init + [i] else init
  }

  // x scaled by actual / issued.
  function Ratio(x: nat, actual: nat, issued: nat): nat {
    x * actual / Max(issued, 1)
  }

  // Scaled down for a block worth less than the list, never up.
  function Owed(sats: nat, actual: nat, issued: nat): nat {
    if issued == 0 || actual >= issued then sats else Ratio(sats, actual, issued)
  }

  // Scaled up for a block worth more than the list, never down.
  function Ceiling(sats: nat, actual: nat, issued: nat): nat {
    if issued == 0 || actual <= issued then sats else Ratio(sats, actual, issued)
  }

  ghost function Slack(tolerance: u64, issued: seq<Output>): u64 { Min(tolerance + |issued|, U64_MAX) }

  ghost predicate Short(outs: seq<TxOut>, i: Output, issuedValue: nat, tolerance: u64) {
    PaidTo(outs, i.script) > 0 && SatAdd(PaidTo(outs, i.script), tolerance) < Owed(i.sats, TotalValue(outs), issuedValue)
  }

  // More to one script than everything issued to it.
  ghost predicate Over(outs: seq<TxOut>, script: Script, miners: seq<Output>, issuedValue: nat, slack: u64) {
    PaidTo(outs, script)
      > Min(Ceiling(Sum(miners, SatsTo(script)), TotalValue(outs), issuedValue) + slack, U64_MAX)
  }

  ghost predicate AnyShort(outs: seq<TxOut>, miners: seq<Output>, issuedValue: nat, tolerance: u64) {
    exists k :: 0 <= k < |miners| && Short(outs, miners[k], issuedValue, tolerance)
  }

  ghost predicate AnyOver(outs: seq<TxOut>, miners: seq<Output>, issuedValue: nat, slack: u64) {
    exists k :: 0 <= k < |miners| && Over(outs, miners[k].script, miners, issuedValue, slack)
  }

  ghost function PaidAt(outs: seq<TxOut>): Output -> nat {
    (i: Output) => if PaidTo(outs, i.script) > 0 then 1 else 0
  }

  ghost function PaidNonCommit(outs: seq<TxOut>): Output -> nat {
    (i: Output) => if !OpReturn(i.script) && PaidTo(outs, i.script) > 0 then 1 else 0
  }

  ghost function Unsplit(outs: seq<TxOut>, pool: Script): Kind {
    if PoolPaid(outs, pool) && OnlyPool(outs, pool) then PoolOnly else Foreign
  }

  ghost function AgainstList(outs: seq<TxOut>, pool: Script, issued: seq<Output>, tolerance: u64): Kind {
    var miners, value := Miners(issued, pool), Sum(issued, SatsIn());
    var present := Sum(miners, PaidAt(outs));
    if !CommitsPresent(outs, issued) then
      var others := Sum(issued, PaidNonCommit(outs));
      if others > 0 then Partial(others % 0x1_0000) else PoolOnly
    else if AnyOver(outs, miners, value, Slack(tolerance, issued)) then Foreign
    else if AnyShort(outs, miners, value, tolerance) then Unsplit(outs, pool)
    else if present == |miners| && (PoolPaid(outs, pool) || miners != []) then Split
    else if present > 0 then Partial(present % 0x1_0000)
    else Unsplit(outs, pool)
  }

  ghost function Classify(outs: seq<TxOut>, pool: Script, issued: Option<seq<Output>>, tolerance: u64): Kind {
    if !AllSanctioned(outs, pool, if issued.Some? then issued.value else []) then Foreign
    else match issued
      case None => Unsplit(outs, pool)
      case Some(list) => AgainstList(outs, pool, list, tolerance)
  }

  // ---- the program --------------------------------------------------------------------

  method PaidToProgram(outs: seq<TxOut>, script: Script) returns (total: u64)
    ensures total == PaidTo(outs, script)
  {
    total := 0;
    for k := 0 to |outs|
      invariant total == PaidTo(outs[..k], script)
    {
      SumPrefix(outs, k, ValueTo(script));
      if outs[k].script == script {
        total := SatAdd(total, outs[k].value);
      }
    }
    assert outs[..|outs|] == outs;
  }

  method TotalOutputValue(outs: seq<TxOut>) returns (total: u64)
    ensures total == TotalValue(outs)
  {
    total := 0;
    for k := 0 to |outs|
      invariant total == TotalValue(outs[..k])
    {
      SumPrefix(outs, k, ValueOf());
      total := SatAdd(total, outs[k].value);
    }
    assert outs[..|outs|] == outs;
  }

  method Lists(issued: seq<Output>, script: Script) returns (found: bool)
    ensures found <==> Issues(issued, script)
  {
    for k := 0 to |issued|
      invariant forall j :: 0 <= j < k ==> issued[j].script != script
    {
      if issued[k].script == script {
        return true;
      }
    }
    return false;
  }

  // The first pass: is the pool paid, and is anybody paid who should not be?
  method Scan(outs: seq<TxOut>, pool: Script, issued: seq<Output>) returns (poolPaid: bool, foreign: nat)
    ensures poolPaid <==> PoolPaid(outs, pool)
    ensures foreign == 0 <==> AllSanctioned(outs, pool, issued)
  {
    poolPaid, foreign := false, 0;
    for k := 0 to |outs|
      invariant poolPaid <==> exists j :: 0 <= j < k && !OpReturn(outs[j].script) && outs[j].script == pool
      invariant foreign == 0 <==> forall j :: 0 <= j < k ==> !IsForeign(outs[j], pool, issued)
    {
      var script := outs[k].script;
      if OpReturn(script) {
        continue;
      }
      if script == pool {
        poolPaid := true;
        continue;
      }
      var sanctioned := Lists(issued, script);
      if !sanctioned {
        foreign := foreign + 1;
      }
    }
  }

  method HasOutput(outs: seq<TxOut>, script: Script) returns (found: bool)
    ensures found <==> Pays(outs, script)
  {
    for k := 0 to |outs|
      invariant forall j :: 0 <= j < k ==> outs[j].script != script
    {
      if outs[k].script == script {
        return true;
      }
    }
    return false;
  }

  method CommitMissing(outs: seq<TxOut>, issued: seq<Output>) returns (missing: bool)
    ensures missing <==> !CommitsPresent(outs, issued)
  {
    for k := 0 to |issued|
      invariant forall j :: 0 <= j < k && OpReturn(issued[j].script) ==> Pays(outs, issued[j].script)
    {
      if OpReturn(issued[k].script) {
        var found := HasOutput(outs, issued[k].script);
        if !found {
          return true;
        }
      }
    }
    return false;
  }

  method CountNonCommit(outs: seq<TxOut>, issued: seq<Output>) returns (present: nat)
    ensures present == Sum(issued, PaidNonCommit(outs))
  {
    present := 0;
    for k := 0 to |issued|
      invariant present == Sum(issued[..k], PaidNonCommit(outs))
    {
      SumPrefix(issued, k, PaidNonCommit(outs));
      var paid := PaidToProgram(outs, issued[k].script);
      if !OpReturn(issued[k].script) && paid > 0 {
        present := present + 1;
      }
    }
    assert issued[..|issued|] == issued;
  }

  method MinersOf(issued: seq<Output>, pool: Script) returns (miners: seq<Output>)
    ensures miners == Miners(issued, pool)
  {
    miners := [];
    for k := 0 to |issued|
      invariant miners == Miners(issued[..k], pool)
    {
      assert issued[..k + 1][..k] == issued[..k];
      if IsMiner(issued[k], pool) {
        miners := miners + [issued[k]];
      }
    }
    assert issued[..|issued|] == issued;
  }

  method IssuedValue(issued: seq<Output>) returns (total: u64)
    requires Sum(issued, SatsIn()) <= U64_MAX
    ensures total == Sum(issued, SatsIn())
  {
    total := 0;
    for k := 0 to |issued|
      invariant total == Sum(issued[..k], SatsIn())
    {
      SumPrefix(issued, k, SatsIn());
      SumMonotone(issued, k + 1, SatsIn());
      total := total + issued[k].sats;
    }
    assert issued[..|issued|] == issued;
  }

  // What the map from script to issued total holds after the first rows of the list.
  ghost predicate IssuedToMatches(issuedTo: map<Script, u64>, miners: seq<Output>) {
    && (forall k :: 0 <= k < |miners| ==> miners[k].script in issuedTo)
    && forall script :: script in issuedTo ==> issuedTo[script] == Sum(miners, SatsTo(script))
  }

  lemma IssuedToStep(issuedTo: map<Script, u64>, init: seq<Output>, i: Output, total: u64)
    requires IssuedToMatches(issuedTo, init)
    requires total == i.sats + if i.script in issuedTo then issuedTo[i.script] else 0
    ensures IssuedToMatches(issuedTo[i.script := total], init + [i])
  {
    var next := issuedTo[i.script := total];
    forall script | script in next ensures next[script] == Sum(init + [i], SatsTo(script)) {
      SumSnoc(init, i, SatsTo(script));
      if script !in issuedTo {
        NoneIssuedTo(init, script);
      }
    }
  }

  lemma {:induction false} NoneIssuedTo(outs: seq<Output>, script: Script)
    requires forall k :: 0 <= k < |outs| ==> outs[k].script != script
    ensures Sum(outs, SatsTo(script)) == 0
  {
    if outs != [] {
      NoneIssuedTo(outs[..|outs| - 1], script);
    }
  }

  lemma {:induction false} IssuedToBounded(outs: seq<Output>, script: Script)
    ensures Sum(outs, SatsTo(script)) <= Sum(outs, SatsIn())
  {
    if outs != [] {
      IssuedToBounded(outs[..|outs| - 1], script);
    }
  }

  method IssuedTotals(miners: seq<Output>) returns (issuedTo: map<Script, u64>)
    requires Sum(miners, SatsIn()) <= U64_MAX
    ensures IssuedToMatches(issuedTo, miners)
  {
    issuedTo := map[];
    for k := 0 to |miners|
      invariant IssuedToMatches(issuedTo, miners[..k])
    {
      var script := miners[k].script;
      var before := if script in issuedTo then issuedTo[script] else 0;
      FitsAfter(issuedTo, miners, k);
      var total := SatAdd(before, miners[k].sats);
      IssuedToStep(issuedTo, miners[..k], miners[k], total);
      assert miners[..k + 1] == miners[..k] + [miners[k]];
      issuedTo := issuedTo[script := total];
    }
    assert miners[..|miners|] == miners;
  }

  lemma FitsAfter(issuedTo: map<Script, u64>, miners: seq<Output>, k: nat)
    requires k < |miners| && IssuedToMatches(issuedTo, miners[..k]) && Sum(miners, SatsIn()) <= U64_MAX
    ensures var s := miners[k].script;
            miners[k].sats + (if s in issuedTo then issuedTo[s] else 0) <= U64_MAX
  {
    SumPrefix(miners, k, SatsIn());
    SumMonotone(miners, k + 1, SatsIn());
    IssuedToBounded(miners[..k], miners[k].script);
  }

  lemma {:induction false} MinersBounded(issued: seq<Output>, pool: Script)
    ensures Sum(Miners(issued, pool), SatsIn()) <= Sum(issued, SatsIn())
  {
    if issued != [] {
      var init, i := issued[..|issued| - 1], issued[|issued| - 1];
      MinersBounded(init, pool);
      SumSnoc(Miners(init, pool), i, SatsIn());
    }
  }

  // The rescaled amounts stay inside 64 bits.
  lemma RescaleFits(sats: nat, actual: u64, issued: u64)
    requires sats <= issued
    ensures 0 <= Owed(sats, actual, issued) <= sats
    ensures 0 <= Ceiling(sats, actual, issued) <= Max(sats, actual)
  {
    if issued > 0 {
      MulMono(sats, issued, actual);
      DivAtLeast(sats * actual, issued, 0);
      DivBounds(sats * actual, issued);
      MulCancel(Ratio(sats, actual, issued), actual, issued);
      if actual < issued {
        MulMono(actual, issued, sats);
        MulCancel(Ratio(sats, actual, issued), sats, issued);
      }
    }
  }

  datatype Audit = Audit(present: u16, shorted: bool, over: bool)

  // One miner output against its amounts.
  method CheckMiner(outs: seq<TxOut>, i: Output, issuedToScript: u64, actual: u64, issuedValue: u64,
                    tolerance: u64, slack: u64, ghost miners: seq<Output>)
    returns (paid: u64, short: bool, over: bool)
    requires actual == TotalValue(outs) && i.sats <= issuedValue
    requires issuedToScript == Sum(miners, SatsTo(i.script)) <= issuedValue
    ensures paid == PaidTo(outs, i.script)
    ensures short <==> Short(outs, i, issuedValue, tolerance)
    ensures over <==> Over(outs, i.script, miners, issuedValue, slack)
  {
    RescaleFits(i.sats, actual, issuedValue);
    RescaleFits(issuedToScript, actual, issuedValue);
    paid := PaidToProgram(outs, i.script);
    short, over := false, false;
    if paid > 0 {
      short := SatAdd(paid, tolerance) < Owed(i.sats, actual, issuedValue);
      var ceiling := Ceiling(issuedToScript, actual, issuedValue);
      over := paid > SatAdd(ceiling, slack);
    }
  }

  lemma MinerFits(miners: seq<Output>, k: nat)
    requires k < |miners|
    ensures miners[k].sats <= Sum(miners, SatsIn())
    ensures Sum(miners, SatsTo(miners[k].script)) <= Sum(miners, SatsIn())
  {
    SumAtLeastMember(miners, k, SatsIn());
    IssuedToBounded(miners, miners[k].script);
  }

  ghost predicate ShortUpTo(outs: seq<TxOut>, miners: seq<Output>, k: nat, issuedValue: nat, tolerance: u64)
    requires k <= |miners|
  {
    exists j :: 0 <= j < k && Short(outs, miners[j], issuedValue, tolerance)
  }

  ghost predicate OverUpTo(outs: seq<TxOut>, miners: seq<Output>, k: nat, issuedValue: nat, slack: u64)
    requires k <= |miners|
  {
    exists j :: 0 <= j < k && Over(outs, miners[j].script, miners, issuedValue, slack)
  }

  lemma UpToNext(outs: seq<TxOut>, miners: seq<Output>, k: nat, issuedValue: nat, tolerance: u64, slack: u64)
    requires k < |miners|
    ensures ShortUpTo(outs, miners, k + 1, issuedValue, tolerance)
            <==> ShortUpTo(outs, miners, k, issuedValue, tolerance) || Short(outs, miners[k], issuedValue, tolerance)
    ensures OverUpTo(outs, miners, k + 1, issuedValue, slack)
            <==> OverUpTo(outs, miners, k, issuedValue, slack) || Over(outs, miners[k].script, miners, issuedValue, slack)
    ensures OverUpTo(outs, miners, k + 1, issuedValue, slack) ==> AnyOver(outs, miners, issuedValue, slack)
  {
  }

  // Hold each miner output to its amounts, stopping at the first script paid too much.
  method CheckMiners(outs: seq<TxOut>, miners: seq<Output>, issuedValue: u64, tolerance: u64, slack: u64)
    returns (a: Audit)
    requires |miners| <= U16_MAX && Sum(miners, SatsIn()) <= issuedValue
    ensures a.over <==> AnyOver(outs, miners, issuedValue, slack)
    ensures !a.over ==> (a.shorted <==> AnyShort(outs, miners, issuedValue, tolerance))
    ensures !a.over ==> a.present == Sum(miners, PaidAt(outs))
  {
    var actual := TotalOutputValue(outs);
    var issuedTo := IssuedTotals(miners);
    var present, shorted := 0, false;
    for k := 0 to |miners|
      invariant present == Sum(miners[..k], PaidAt(outs)) <= k
      invariant shorted <==> ShortUpTo(outs, miners, k, issuedValue, tolerance)
      invariant !OverUpTo(outs, miners, k, issuedValue, slack)
    {
      SumPrefix(miners, k, PaidAt(outs));
      MinerFits(miners, k);
      UpToNext(outs, miners, k, issuedValue, tolerance, slack);
      var total := issuedTo[miners[k].script];
      var paid, short, over := CheckMiner(outs, miners[k], total, actual, issuedValue, tolerance, slack, miners);
      present := if paid > 0 then present + 1 else present;
      shorted := shorted || short;
      if over {
        return Audit(present, shorted, true);
      }
    }
    assert miners[..|miners|] == miners;
    return Audit(present, shorted, false);
  }

  method OnlyPays(outs: seq<TxOut>, pool: Script) returns (only: bool)
    ensures only <==> OnlyPool(outs, pool)
  {
    for k := 0 to |outs|
      invariant forall j :: 0 <= j < k ==> OpReturn(outs[j].script) || outs[j].script == pool
    {
      if !OpReturn(outs[k].script) && outs[k].script != pool {
        return false;
      }
    }
    return true;
  }

  method JudgeAgainstList(outs: seq<TxOut>, pool: Script, list: seq<Output>, tolerance: u64, poolPaid: bool)
    returns (kind: Option<Kind>)
    requires |list| <= U16_MAX && Sum(list, SatsIn()) <= U64_MAX && poolPaid == PoolPaid(outs, pool)
    ensures AgainstList(outs, pool, list, tolerance) == if kind.Some? then kind.value else Unsplit(outs, pool)
  {
    var missing := CommitMissing(outs, list);
    if missing {
      var others := CountNonCommit(outs, list);
      return Some(if others > 0 then Partial(others % 0x1_0000) else PoolOnly);
    }
    var miners := MinersOf(list, pool);
    MinersBounded(list, pool);
    var issuedValue := IssuedValue(list);
    var a := CheckMiners(outs, miners, issuedValue, tolerance, SatAdd(tolerance, |list|));
    if a.over {
      return Some(Foreign);
    }
    if !a.shorted {
      if a.present == |miners| && (poolPaid || miners != []) {
        return Some(Split);
      }
      if a.present > 0 {
        return Some(Partial(a.present));
      }
    }
    return None;
  }

  method ClassifyCoinbase(outs: seq<TxOut>, pool: Script, issued: Option<seq<Output>>, tolerance: u64)
    returns (kind: Kind)
    requires issued.Some? ==> |issued.value| <= U16_MAX && Sum(issued.value, SatsIn()) <= U64_MAX
    ensures kind == Classify(outs, pool, issued, tolerance)
  {
    var poolPaid, foreign := Scan(outs, pool, if issued.Some? then issued.value else []);
    if foreign > 0 {
      return Foreign;
    }
    if issued.Some? {
      var judged := JudgeAgainstList(outs, pool, issued.value, tolerance, poolPaid);
      if judged.Some? {
        return judged.value;
      }
    }
    var only := OnlyPays(outs, pool);
    if poolPaid && only {
      return PoolOnly;
    }
    return Foreign;
  }
}
