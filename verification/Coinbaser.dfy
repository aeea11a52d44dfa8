// The issued list on the wire: at most 512 outputs, each a value and a short script.
module Coinbaser {
  import opened Prelude
  import opened Ranking
  import opened LittleEndian
  import opened Outputs
  import opened Wire
  import S = Split
  import H = HonestGateway
  import L = SplitLaws
  import P = CoinbasePolicy

  const MAX_OUTPUTS := 512
  const MAX_SCRIPT := 64
  const MIN_SCRIPT := 2

  function WriteIssued(o: Output): seq<byte> {
    ToLe(o.sats, 8) + ([|o.script| % 0x100] + o.script)
  }

  function ReadIssued(b: seq<byte>): (r: Reading<Output>)
    ensures r.Ok? ==> |r.value.rest| < |b|
  {
    var sats :- U64(b);
    var len :- U8(sats.rest);
    if !(MIN_SCRIPT <= len.value <= MAX_SCRIPT) then Err(Malformed("coinbaser script length"))
    else
      var script :- Take(len.rest, len.value);
      Ok(Read(Output(sats.value, script.value), script.rest))
  }

  // Outputs until the bytes run out; one too many is an error, even if it is the last.
  function ReadList(b: seq<byte>, have: seq<Output>): Result<seq<Output>, Error>
    decreases |b|
  {
    if b == [] then Ok(have)
    else
      var o :- ReadIssued(b);
      if |have| + 1 > MAX_OUTPUTS then Err(Malformed("coinbaser output count"))
      else ReadList(o.rest, have + [o.value])
  }

  function FirstOutputs(outs: seq<Output>): seq<Output> {
    outs[..Min(|outs|, 512)]
  }

  datatype Coinbaser = Coinbaser(id: byte, outputs: seq<Output>)

  function Encode(id: byte, outs: seq<Output>): seq<byte> {
    [id] + Flatten(FirstOutputs(outs), WriteIssued)
  }

  function Decode(bytes: seq<byte>): Result<Coinbaser, Error> {
    var id :- U8(bytes);
    var outs :- ReadList(id.rest, []);
    Ok(Coinbaser(id.value, outs))
  }

  predicate ShortScript(o: Output) {
    2 <= |o.script| <= 64
  }

  lemma IssuedWritten(o: Output, rest: seq<byte>)
    requires ShortScript(o)
    ensures ReadIssued(WriteIssued(o) + rest) == Ok(Read(o, rest))
  {
    var t2 := o.script + rest;
    var t1 := [|o.script|] + t2;
    assert WriteIssued(o) + rest == ToLe(o.sats, 8) + t1;
    U64Written(o.sats, t1);
    U8Written(|o.script|, t2);
    TakeWritten(o.script, rest);
  }

  lemma {:induction false} ListWritten(outs: seq<Output>, have: seq<Output>)
    requires |have| + |outs| <= MAX_OUTPUTS && forall k :: 0 <= k < |outs| ==> ShortScript(outs[k])
    ensures ReadList(Flatten(outs, WriteIssued), have) == Ok(have + outs)
  {
    if outs == [] {
      assert have + outs == have;
    } else {
      var first, tail := outs[0], outs[1..];
      ListWritten(tail, have + [first]);
      FirstMoved(have, outs);
      FlattenCons(outs, WriteIssued);
      ListStep(first, Flatten(tail, WriteIssued), have);
    }
  }

  lemma ListStep(o: Output, rest: seq<byte>, have: seq<Output>)
    requires ShortScript(o) && |have| < MAX_OUTPUTS
    ensures ReadList(WriteIssued(o) + rest, have) == ReadList(rest, have + [o])
  {
    IssuedWritten(o, rest);
  }

  // What is decoded is the list that was encoded, up to the limit of the format.
  lemma DecodeEncode(id: byte, outs: seq<Output>)
    requires forall k :: 0 <= k < |outs| ==> ShortScript(outs[k])
    ensures Decode(Encode(id, outs)) == Ok(Coinbaser(id, FirstOutputs(outs)))
  {
    U8Written(id, Flatten(FirstOutputs(outs), WriteIssued));
    ListWritten(FirstOutputs(outs), []);
    assert [] + FirstOutputs(outs) == FirstOutputs(outs);
  }

  // So a list is read back whole exactly when it is within the limit.
  lemma DecodeEncodeWhole(id: byte, outs: seq<Output>)
    requires forall k :: 0 <= k < |outs| ==> ShortScript(outs[k])
    ensures Decode(Encode(id, outs)) == Ok(Coinbaser(id, outs)) <==> |outs| <= 512
  {
    DecodeEncode(id, outs);
    if |outs| > MAX_OUTPUTS {
      assert |FirstOutputs(outs)| < |outs|;
    } else {
      assert FirstOutputs(outs) == outs;
    }
  }

  // Any list of scripts whose length fits its byte is read back exactly when all that are
  // written have from 2 to 64 bytes.
  lemma DecodeEncodeIff(id: byte, outs: seq<Output>)
    requires forall k :: 0 <= k < |outs| ==> |outs[k].script| <= 0xFF
    ensures var written := outs[..Min(|outs|, 512)];
            Decode(Encode(id, outs)) ==
            if forall k :: 0 <= k < |written| ==> 2 <= |written[k].script| <= 64 then Ok(Coinbaser(id, written))
            else Err(Malformed("coinbaser script length"))
  {
    var written := FirstOutputs(outs);
    U8Written(id, Flatten(written, WriteIssued));
    if forall k :: 0 <= k < |written| ==> ShortScript(written[k]) {
      ListWritten(written, []);
      assert [] + written == written;
    } else {
      ListRefused(written, []);
    }
  }

  lemma {:induction false} ListRefused(outs: seq<Output>, have: seq<Output>)
    requires |have| + |outs| <= MAX_OUTPUTS && forall k :: 0 <= k < |outs| ==> |outs[k].script| <= 0xFF
    requires exists k :: 0 <= k < |outs| && !ShortScript(outs[k])
    ensures ReadList(Flatten(outs, WriteIssued), have) == Err(Malformed("coinbaser script length"))
  {
    var first, tail := outs[0], outs[1..];
    FlattenCons(outs, WriteIssued);
    if ShortScript(first) {
      var k :| 0 <= k < |outs| && !ShortScript(outs[k]);
      assert tail[k - 1] == outs[k];
      ListRefused(tail, have + [first]);
      ListStep(first, Flatten(tail, WriteIssued), have);
    } else {
      IssuedRefused(first, Flatten(tail, WriteIssued));
    }
  }

  lemma IssuedRefused(o: Output, rest: seq<byte>)
    requires |o.script| <= 0xFF && !ShortScript(o)
    ensures ReadIssued(WriteIssued(o) + rest) == Err(Malformed("coinbaser script length"))
  {
    var t1 := [|o.script|] + (o.script + rest);
    assert WriteIssued(o) + rest == ToLe(o.sats, 8) + t1;
    U64Written(o.sats, t1);
    U8Written(|o.script|, o.script + rest);
  }

  // More entries than the format has are refused, not cut: a printer has to stop at 512.
  lemma TooManyRefused(id: byte, outs: seq<Output>)
    requires |outs| > 512 && forall k :: 0 <= k < |outs| ==> ShortScript(outs[k])
    ensures Decode([id] + Flatten(outs, WriteIssued)) == Err(Malformed("coinbaser output count"))
  {
    U8Written(id, Flatten(outs, WriteIssued));
    ListTooLong(outs, []);
  }

  lemma {:induction false} ListTooLong(outs: seq<Output>, have: seq<Output>)
    requires |have| <= 512 < |have| + |outs| && forall k :: 0 <= k < |outs| ==> ShortScript(outs[k])
    ensures ReadList(Flatten(outs, WriteIssued), have) == Err(Malformed("coinbaser output count"))
  {
    var first, tail := outs[0], outs[1..];
    FlattenCons(outs, WriteIssued);
    IssuedWritten(first, Flatten(tail, WriteIssued));
    if |have| < 512 {
      ListTooLong(tail, have + [first]);
      ListStep(first, Flatten(tail, WriteIssued), have);
    }
  }

  method EncodeProgram(id: byte, outs: seq<Output>) returns (v: seq<byte>)
    ensures v == Encode(id, outs)
  {
    var body := WriteEach(outs[..Min(|outs|, MAX_OUTPUTS)], WriteIssued);
    v := [id] + body;
  }

  method ReadIssuedProgram(c: Cursor) returns (r: Result<Output, Error>)
    requires c.Valid()
    modifies c
    ensures c.Got(r, ReadIssued(old(c.Rest())))
  {
    var sats :- c.TakeU64();
    var n :- c.TakeU8();
    if !(MIN_SCRIPT <= n <= MAX_SCRIPT) {
      return Err(Malformed("coinbaser script length"));
    }
    var script :- c.TakeBytes(n);
    return Ok(Output(sats, script));
  }

  method DecodeProgram(bytes: seq<byte>) returns (r: Result<Coinbaser, Error>)
    ensures r == Decode(bytes)
  {
    var c := new Cursor(bytes);
    var id :- c.TakeU8();
    var outs: seq<Output> := [];
    while c.Remaining() > 0
      invariant c.Valid() && U8(bytes).Ok? && U8(bytes).value.value == id
      invariant ReadList(c.Rest(), outs) == ReadList(U8(bytes).value.rest, [])
      decreases |c.Rest()|
    {
      var o :- ReadIssuedProgram(c);
      outs := outs + [o];
      if |outs| > MAX_OUTPUTS {
        return Err(Malformed("coinbaser output count"));
      }
    }
    return Ok(Coinbaser(id, outs));
  }

  // ---- the issued list always fits ----------------------------------------------------

  ghost function PayeeBytes(): S.Payee -> nat { (q: S.Payee) => S.OutputBytes(q.script) }

  // Every payee takes one place and its bytes of the budget.
  ghost predicate InBudget(t: S.Terms, payees: seq<S.Payee>, bytes: nat) {
    && |payees| <= t.params.maxOutputs
    && Sum(payees, PayeeBytes()) <= bytes
    && (payees != [] ==> bytes <= t.params.outputBudgetBytes)
  }

  lemma {:induction false} BaseInBudget(t: S.Terms, ms: seq<S.MinerStat>)
    ensures InBudget(t, S.Base(t, ms).payees, S.Base(t, ms).bytes)
  {
    if t.totalWork != 0 && ms != [] {
      var init, m := ms[..|ms| - 1], ms[|ms| - 1];
      BaseInBudget(t, init);
      var st, st' := S.Base(t, init), S.Base(t, ms);
      assert st' == S.BaseStep(t, st, m);
      if |st'.payees| > |st.payees| {
        SumSnoc(st.payees, st'.payees[|st.payees|], PayeeBytes());
      }
    }
  }

  lemma CutInBudget(t: S.Terms, ms: seq<S.MinerStat>)
    ensures InBudget(t, S.AfterCut(t, ms).payees, S.AfterCut(t, ms).bytes)
  {
    var st := S.Base(t, ms);
    BaseInBudget(t, ms);
    if S.Cuts(t, st) {
      var sorted, kept := Sort(st.payees, S.PayeeRank), S.Kept(t, st);
      SortSum(st.payees, S.PayeeRank, PayeeBytes());
      SortMultiset(st.payees, S.PayeeRank);
      SumMonotone(sorted, |kept|, PayeeBytes());
      assert kept == sorted[..|kept|];
      SumAgrees(S.AfterCut(t, ms).payees, kept, PayeeBytes(), PayeeBytes());
    }
  }

  lemma CarryStepInBudget(t: S.Terms, cs: S.CarryStage, id: string, owed: nat)
    requires InBudget(t, cs.payees, cs.bytes)
    ensures var c := S.CarryStep(t, cs, id, owed); InBudget(t, c.payees, c.bytes)
  {
    var c, give := S.CarryStep(t, cs, id, owed), Min(owed, cs.room);
    if |c.payees| > |cs.payees| {
      SumSnoc(cs.payees, c.payees[|cs.payees|], PayeeBytes());
    } else {
      SumAgrees(c.payees, cs.payees, PayeeBytes(), PayeeBytes());
    }
  }

  lemma {:induction false} CarryInBudget(t: S.Terms, cs: S.CarryStage, keys: seq<string>, owed: map<string, nat>)
    requires InBudget(t, cs.payees, cs.bytes)
    ensures var c := S.CarryFold(t, cs, keys, owed); InBudget(t, c.payees, c.bytes)
  {
    if keys != [] {
      var k := keys[|keys| - 1];
      CarryInBudget(t, cs, keys[..|keys| - 1], owed);
      CarryStepInBudget(t, S.CarryFold(t, cs, keys[..|keys| - 1], owed), k, S.Due(owed, k));
    }
  }

  lemma {:induction false} BytesPerPayee(payees: seq<S.Payee>, shortest: nat)
    requires forall k :: 0 <= k < |payees| ==> |payees[k].script| >= shortest
    ensures |payees| * (9 + shortest) <= Sum(payees, PayeeBytes())
  {
    if payees != [] {
      BytesPerPayee(payees[..|payees| - 1], shortest);
      Distribute(9 + shortest, |payees| - 1, 1);
    }
  }

  // The limits the pool is started with.
  const PRIME_MAX_OUTPUTS := 511
  const PRIME_BUDGET := 14_000 - 9 - 64

  // A commitment, every payee and the pool could be 513 entries, one more than the format
  // carries. The byte budget rules that out for scripts of 19 bytes or more, so the whole
  // list reaches the gateway.
  lemma IssuedListFits(t: S.Terms, ms: seq<S.MinerStat>, owed: map<string, nat>)
    requires t.params.maxOutputs == PRIME_MAX_OUTPUTS && t.params.outputBudgetBytes == PRIME_BUDGET
    requires forall k :: 0 <= k < |S.SplitOf(t, ms, owed).payees| ==> |S.SplitOf(t, ms, owed).payees[k].script| >= 19
    ensures |S.SplitOf(t, ms, owed).payees| + 2 <= MAX_OUTPUTS
  {
    var payees := S.SplitOf(t, ms, owed).payees;
    CutInBudget(t, ms);
    CarryInBudget(t, S.BeforeCarry(t, ms), SortedKeys(owed.Keys), owed);
    LongScriptsFit(t, payees, S.CarryFold(t, S.BeforeCarry(t, ms), SortedKeys(owed.Keys), owed).bytes);
  }

  lemma LongScriptsFit(t: S.Terms, payees: seq<S.Payee>, bytes: nat)
    requires InBudget(t, payees, bytes) && t.params.outputBudgetBytes == PRIME_BUDGET
    requires forall k :: 0 <= k < |payees| ==> |payees[k].script| >= 19
    ensures |payees| + 2 <= MAX_OUTPUTS
  {
    BytesPerPayee(payees, 19);
  }

  predicate ShortPayees(payees: seq<S.Payee>) {
    forall k :: 0 <= k < |payees| ==> MIN_SCRIPT <= |payees[k].script| <= MAX_SCRIPT
  }

  predicate ShortTerms(commit: Option<Script>, pool: Script) {
    MIN_SCRIPT <= |pool| <= MAX_SCRIPT && (commit.Some? ==> MIN_SCRIPT <= |commit.value| <= MAX_SCRIPT)
  }

  lemma ListEntries(commit: Option<Script>, payees: seq<S.Payee>, poolSats: u64, pool: Script)
    requires H.PayeesFit(payees) && ShortPayees(payees) && ShortTerms(commit, pool)
    ensures var list := H.IssuedList(commit, payees, poolSats, pool);
            && |list| == |payees| + (if commit.Some? then 1 else 0)
                         + (if poolSats > 0 || (commit.None? && payees == []) then 1 else 0)
            && forall k :: 0 <= k < |list| ==> ShortScript(list[k])
  {
  }

  // The list a session issues reaches the gateway whole exactly when commitment, payees
  // and the pool's entry are no more than the format carries.
  lemma ListReachesGateway(t: S.Terms, ms: seq<S.MinerStat>, owed: map<string, nat>, commit: Option<Script>,
                           pool: Script, id: byte)
    requires S.Sane(t, ms) && ShortPayees(S.SplitOf(t, ms, owed).payees) && ShortTerms(commit, pool)
    ensures var s, list := S.SplitOf(t, ms, owed), H.ListFor(t, ms, owed, commit, pool);
            Decode(Encode(id, list)) == Ok(Coinbaser(id, list))
            <==> |s.payees| + (if commit.Some? then 1 else 0) + (if s.poolSats > 0 then 1 else 0) <= MAX_OUTPUTS
  {
    var s, list := S.SplitOf(t, ms, owed), H.ListFor(t, ms, owed, commit, pool);
    H.SplitFitsIn64(t, ms, owed);
    ListEntries(commit, s.payees, s.poolSats, pool);
    DecodeEncodeWhole(id, list);
  }

  // With the pool's limits, scripts of 19 bytes or more always satisfy that.
  lemma LongScriptsReachGateway(t: S.Terms, ms: seq<S.MinerStat>, owed: map<string, nat>, commit: Option<Script>,
                                pool: Script, id: byte)
    requires S.Sane(t, ms) && ShortPayees(S.SplitOf(t, ms, owed).payees) && ShortTerms(commit, pool)
    requires t.params.maxOutputs == 511 && t.params.outputBudgetBytes == 13_927
    requires forall k :: 0 <= k < |S.SplitOf(t, ms, owed).payees| ==> |S.SplitOf(t, ms, owed).payees[k].script| >= 19
    ensures Decode(Encode(id, H.ListFor(t, ms, owed, commit, pool)))
            == Ok(Coinbaser(id, H.ListFor(t, ms, owed, commit, pool)))
  {
    IssuedListFits(t, ms, owed);
    ListReachesGateway(t, ms, owed, commit, pool, id);
  }

  // Every list a session issues is one the coinbase policy can judge: within its 16-bit
  // counter and worth no more than 64 bits.
  lemma ListIsJudgeable(t: S.Terms, ms: seq<S.MinerStat>, owed: map<string, nat>, commit: Option<Script>, pool: Script)
    requires S.Sane(t, ms) && t.params.maxOutputs <= U16_MAX - 2
    ensures var list := H.ListFor(t, ms, owed, commit, pool);
            |list| <= U16_MAX && Sum(list, P.SatsIn()) <= U64_MAX
  {
    var s := S.SplitOf(t, ms, owed);
    CutInBudget(t, ms);
    CarryInBudget(t, S.BeforeCarry(t, ms), SortedKeys(owed.Keys), owed);
    H.SplitFitsIn64(t, ms, owed);
    L.SplitConserves(t, ms, owed);
    H.ListSum(commit, s.payees, s.poolSats, pool);
    H.NoPayeesNoSats(s.payees);
  }

  // One entry too many is the pool's, the last: what the gateway reads is short of the
  // block value by exactly what the pool was to get.
  lemma PoolCutOff(t: S.Terms, ms: seq<S.MinerStat>, owed: map<string, nat>, commit: Script, pool: Script, id: byte)
    requires S.Sane(t, ms) && ShortPayees(S.SplitOf(t, ms, owed).payees) && ShortTerms(Some(commit), pool)
    requires |S.SplitOf(t, ms, owed).payees| == PRIME_MAX_OUTPUTS && S.SplitOf(t, ms, owed).poolSats > 0
    ensures var list := H.ListFor(t, ms, owed, Some(commit), pool);
            && list != [] && list[|list| - 1] == Output(S.SplitOf(t, ms, owed).poolSats, pool)
            && Decode(Encode(id, list)) == Ok(Coinbaser(id, list[..|list| - 1]))
            && Sum(list[..|list| - 1], P.SatsIn()) == t.value - S.SplitOf(t, ms, owed).poolSats
  {
    var s, list := S.SplitOf(t, ms, owed), H.ListFor(t, ms, owed, Some(commit), pool);
    H.SplitFitsIn64(t, ms, owed);
    ListEntries(Some(commit), s.payees, s.poolSats, pool);
    DecodeEncode(id, list);
    H.ListSumsToValue(t, ms, owed, Some(commit), pool);
  }

  // ---- a window that is cut off -------------------------------------------------------

  // Miners with names of growing length, one unit of work each.
  function Crowd(n: nat): (r: seq<S.MinerStat>)
    ensures |r| == n
  {
    seq(n, i requires 0 <= i < n => S.MinerStat(seq(i, _ => 'a'), 1, 0))
  }

  // Half the value goes to 511 miners, one sat each, and half to the pool.
  ghost predicate Crowded(t: S.Terms, script: Script) {
    && t.params == S.SplitParams(5_000, 0, 1, 511, 13_927, 0, map[])
    && t.value == 2 * PRIME_MAX_OUTPUTS && t.totalWork == PRIME_MAX_OUTPUTS
    && (forall id :: t.scriptFor(id) == Some(script))
    && MIN_SCRIPT <= |script| <= 18
  }

  lemma {:induction false} CrowdWork(n: nat)
    ensures Sum(Crowd(n), S.WorkOf()) == n
  {
    if n > 0 {
      CrowdWork(n - 1);
      assert Crowd(n)[..n - 1] == Crowd(n - 1);
    }
  }

  lemma CrowdSane(t: S.Terms, script: Script)
    requires Crowded(t, script)
    ensures S.Sane(t, Crowd(PRIME_MAX_OUTPUTS))
  {
    var ms := Crowd(PRIME_MAX_OUTPUTS);
    CrowdWork(PRIME_MAX_OUTPUTS);
    forall i, j | 0 <= i < j < |ms| ensures ms[i].identity != ms[j].identity {
      assert |ms[i].identity| == i && |ms[j].identity| == j;
    }
  }

  lemma CrowdEarns(t: S.Terms, script: Script, m: S.MinerStat)
    requires Crowded(t, script) && m.work == 1 && m.stratumWork == 0
    ensures t.Earned(m) == 1
  {
    assert t.KeepWeight(m) == 5_000;
  }

  lemma {:induction false} CrowdPlaced(t: S.Terms, script: Script, n: nat)
    requires Crowded(t, script) && n <= PRIME_MAX_OUTPUTS
    ensures Filled(S.Base(t, Crowd(n)), script, n)
  {
    CrowdGrows(t, n);
    if n > 0 {
      CrowdPlaced(t, script, n - 1);
      CrowdStep(t, script, S.Base(t, Crowd(n - 1)), Crowd(n)[n - 1], n - 1);
    }
  }

  lemma CrowdGrows(t: S.Terms, n: nat)
    requires t.totalWork > 0
    ensures S.Base(t, Crowd(n)) ==
              if n == 0 then S.Stage([], [], 0) else S.BaseStep(t, S.Base(t, Crowd(n - 1)), Crowd(n)[n - 1])
  {
    if n > 0 {
      assert Crowd(n)[..n - 1] == Crowd(n - 1);
    }
  }

  ghost predicate Filled(st: S.Stage, script: Script, n: nat) {
    && |st.payees| == n && st.bytes == n * (9 + |script|)
    && forall k :: 0 <= k < n ==> st.payees[k].sats == 1 && st.payees[k].script == script
  }

  lemma CrowdStep(t: S.Terms, script: Script, st: S.Stage, m: S.MinerStat, n: nat)
    requires Crowded(t, script) && n < PRIME_MAX_OUTPUTS && m.work == 1 && m.stratumWork == 0
    requires Filled(st, script, n)
    ensures Filled(S.BaseStep(t, st, m), script, n + 1)
  {
    CrowdEarns(t, script, m);
    MulMono(n + 1, PRIME_MAX_OUTPUTS, 9 + |script|);
    Distribute(9 + |script|, n, 1);
  }

  lemma {:induction false} OneSatEach(payees: seq<S.Payee>)
    requires forall k :: 0 <= k < |payees| ==> payees[k].sats == 1
    ensures Sum(payees, S.SatsOf()) == |payees|
  {
    if payees != [] {
      OneSatEach(payees[..|payees| - 1]);
    }
  }

  // Short witness programs decode to scripts of under 19 bytes, and then it happens: 511
  // payees, the commitment and the pool are 513 entries, and the gateway never sees the
  // pool's half of the value.
  lemma CrowdIsCutOff(t: S.Terms, script: Script, commit: Script, pool: Script, id: byte)
    requires Crowded(t, script) && ShortTerms(Some(commit), pool)
    ensures var ms := Crowd(PRIME_MAX_OUTPUTS);
            && S.Sane(t, ms)
            && var list := H.ListFor(t, ms, map[], Some(commit), pool);
               && |list| == MAX_OUTPUTS + 1
               && list[MAX_OUTPUTS] == Output(PRIME_MAX_OUTPUTS, pool)
               && Decode(Encode(id, list)) == Ok(Coinbaser(id, list[..MAX_OUTPUTS]))
  {
    CrowdSplit(t, script);
    PoolCutOff(t, Crowd(PRIME_MAX_OUTPUTS), map[], commit, pool, id);
    CrowdList(t, script, commit, pool);
  }

  lemma CrowdList(t: S.Terms, script: Script, commit: Script, pool: Script)
    requires Crowded(t, script) && ShortTerms(Some(commit), pool) && S.Sane(t, Crowd(PRIME_MAX_OUTPUTS))
    ensures |H.ListFor(t, Crowd(PRIME_MAX_OUTPUTS), map[], Some(commit), pool)| == MAX_OUTPUTS + 1
  {
    CrowdSplit(t, script);
    var s := S.SplitOf(t, Crowd(PRIME_MAX_OUTPUTS), map[]);
    H.SplitFitsIn64(t, Crowd(PRIME_MAX_OUTPUTS), map[]);
    ListEntries(Some(commit), s.payees, s.poolSats, pool);
  }

  lemma CrowdSplit(t: S.Terms, script: Script)
    requires Crowded(t, script)
    ensures S.Sane(t, Crowd(PRIME_MAX_OUTPUTS))
    ensures var s := S.SplitOf(t, Crowd(PRIME_MAX_OUTPUTS), map[]);
            |s.payees| == PRIME_MAX_OUTPUTS && s.poolSats == PRIME_MAX_OUTPUTS && ShortPayees(s.payees)
  {
    var ms := Crowd(PRIME_MAX_OUTPUTS);
    CrowdSane(t, script);
    CrowdPlaced(t, script, PRIME_MAX_OUTPUTS);
    var none: map<string, nat> := map[];
    assert SortedKeys(none.Keys) == [];
    var s := S.SplitOf(t, ms, none);
    assert s.payees == S.Base(t, ms).payees;
    OneSatEach(s.payees);
    L.SplitConserves(t, ms, none);
  }
}
