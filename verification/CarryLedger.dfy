// The carry ledger: sats the pool holds for identities that a coinbase could not pay,
// and its once-per-block update when a block settles.
module CarryLedger {
  import opened Prelude
  import opened Split

  // What the entries add up to.
  ghost function Balance(m: map<string, nat>): nat {
    if m == map[] then 0
    else
      var k :| k in m;
      m[k] + Balance(m - {k})
  }

  lemma {:induction false} BalanceSplit(m: map<string, nat>, k: string)
    requires k in m
    ensures Balance(m) == m[k] + Balance(m - {k})
    decreases |m|
  {
    var j :| j in m && Balance(m) == m[j] + Balance(m - {j});
    if j != k {
      assert |m - {j}| < |m| && |m - {k}| < |m|;
      BalanceSplit(m - {j}, k);
      BalanceSplit(m - {k}, j);
      assert (m - {j}) - {k} == (m - {k}) - {j};
    }
  }

  lemma BalanceSet(m: map<string, nat>, k: string, v: nat)
    ensures Balance(m[k := v]) == Balance(m - {k}) + v
  {
    BalanceSplit(m[k := v], k);
    assert m[k := v] - {k} == m - {k};
  }

  lemma BalanceDue(m: map<string, nat>, k: string)
    ensures Balance(m) == Balance(m - {k}) + Due(m, k)
  {
    if k in m {
      BalanceSplit(m, k);
    } else {
      assert m - {k} == m;
    }
  }

  // Owe `sats` more; nothing is recorded for nothing.
  function Added(m: map<string, nat>, id: string, sats: nat): map<string, nat> {
    if sats == 0 then m else m[id := Min(Due(m, id) + sats, U64_MAX)]
  }

  // `sats` of what was owed have been paid; an emptied entry disappears.
  function Settled(m: map<string, nat>, id: string, sats: nat): map<string, nat> {
    if id !in m then m
    else if SatSub(m[id], sats) == 0 then m - {id}
    else m[id := SatSub(m[id], sats)]
  }

  function AddedAll(m: map<string, nat>, ps: seq<Paid>): map<string, nat> {
    if ps == [] then m
    else Added(AddedAll(m, ps[..|ps| - 1]), ps[|ps| - 1].identity, ps[|ps| - 1].sats)
  }

  function SettledAll(m: map<string, nat>, ps: seq<Paid>): map<string, nat> {
    if ps == [] then m
    else Settled(SettledAll(m, ps[..|ps| - 1]), ps[|ps| - 1].identity, ps[|ps| - 1].sats)
  }

  lemma AddedBalance(m: map<string, nat>, id: string, sats: nat)
    requires Balance(m) + sats <= U64_MAX
    ensures Balance(Added(m, id, sats)) == Balance(m) + sats
  {
    BalanceDue(m, id);
    BalanceSet(m, id, Due(m, id) + sats);
  }

  lemma SettledBalance(m: map<string, nat>, id: string, sats: nat)
    requires sats <= Due(m, id)
    ensures Balance(Settled(m, id, sats)) == Balance(m) - sats
    ensures Due(Settled(m, id, sats), id) == Due(m, id) - sats
    ensures forall j :: j != id ==> Due(Settled(m, id, sats), j) == Due(m, j)
  {
    BalanceDue(m, id);
    if id in m {
      BalanceSet(m, id, m[id] - sats);
    }
  }

  lemma {:induction false} AddedAllBalance(m: map<string, nat>, ps: seq<Paid>)
    requires Balance(m) + Sum(ps, PaidSats()) <= U64_MAX
    ensures Balance(AddedAll(m, ps)) == Balance(m) + Sum(ps, PaidSats())
  {
    if ps != [] {
      AddedAllBalance(m, ps[..|ps| - 1]);
      AddedBalance(AddedAll(m, ps[..|ps| - 1]), ps[|ps| - 1].identity, ps[|ps| - 1].sats);
    }
  }

  // Payments that never ask for more than is owed, one per identity.
  ghost predicate Covered(m: map<string, nat>, ps: seq<Paid>) {
    && (forall i :: 0 <= i < |ps| ==> ps[i].sats <= Due(m, ps[i].identity))
    && (forall i, j :: 0 <= i < j < |ps| ==> ps[i].identity != ps[j].identity)
  }

  // Settling covered payments never saturates: each is taken off in full.
  lemma {:induction false} SettledAllBalance(m: map<string, nat>, ps: seq<Paid>)
    requires Covered(m, ps)
    ensures Balance(SettledAll(m, ps)) + Sum(ps, PaidSats()) == Balance(m)
    ensures forall i :: 0 <= i < |ps| ==> Due(SettledAll(m, ps), ps[i].identity) == Due(m, ps[i].identity) - ps[i].sats
    ensures forall id :: (forall i :: 0 <= i < |ps| ==> ps[i].identity != id) ==> Due(SettledAll(m, ps), id) == Due(m, id)
  {
    if ps != [] {
      var init, p := ps[..|ps| - 1], ps[|ps| - 1];
      SettledAllBalance(m, init);
      SettledBalance(SettledAll(m, init), p.identity, p.sats);
    }
  }

  // The ledger object.
  class Carry {
    var owed: map<string, nat>

    constructor ()
      ensures owed == map[]
    {
      owed := map[];
    }

    method Add(id: string, sats: nat)
      modifies this
      ensures owed == Added(old(owed), id, sats)
    {
      if sats == 0 {
        return;
      }
      var e := if id in owed then owed[id] else 0;
      owed := owed[id := Min(e + sats, U64_MAX)];
    }

    method Settle(id: string, sats: nat)
      modifies this
      ensures owed == Settled(old(owed), id, sats)
    {
      if id in owed {
        owed := owed[id := SatSub(owed[id], sats)];
        if owed[id] == 0 {
          owed := owed - {id};
          assert owed == old(owed) - {id};
        }
      }
    }
  }

  datatype BlockRecord = BlockRecord(
    hash: string, settled: bool, carried: bool, unpaid: seq<Paid>, carryPaid: seq<Paid>)

  // The part of the shared state that turns settled blocks into carry.
  class Shared {
    const carryForward: bool
    const carry: Carry
    var blocks: seq<BlockRecord>

    constructor (carryForward: bool, blocks: seq<BlockRecord>)
      ensures this.carryForward == carryForward && this.blocks == blocks
      ensures fresh(carry) && carry.owed == map[]
    {
      this.carryForward := carryForward;
      this.blocks := blocks;
      this.carry := new Carry();
    }

    // The latest settled record of a block whose carry is still to be applied.
    function Pending(hash: string): (r: Option<nat>)
      reads this`blocks
      ensures r.Some? ==> r.value < |blocks| && blocks[r.value].hash == hash
                          && blocks[r.value].settled && !blocks[r.value].carried
                          && forall j :: r.value < j < |blocks| ==>
                               !(blocks[j].hash == hash && blocks[j].settled && !blocks[j].carried)
      ensures r.None? ==> forall i :: 0 <= i < |blocks| ==>
                !(blocks[i].hash == hash && blocks[i].settled && !blocks[i].carried)
    {
      LastPending(blocks, hash)
    }

    method ApplyCarryForSettled(hash: string)
      modifies this`blocks, carry
      ensures old(Pending(hash)).None? || !carryForward ==> carry.owed == old(carry.owed) && blocks == old(blocks)
      ensures old(Pending(hash)).Some? && carryForward ==>
                var r := old(blocks[Pending(hash).value]);
                && carry.owed == AddedAll(SettledAll(old(carry.owed), r.carryPaid), r.unpaid)
                && blocks == Marked(old(blocks), hash)
    {
      if !carryForward {
        return;
      }
      var at := Pending(hash);
      if at.None? {
        return;
      }
      var r := blocks[at.value];
      for i := 0 to |r.carryPaid|
        invariant blocks == old(blocks)
        invariant carry.owed == SettledAll(old(carry.owed), r.carryPaid[..i])
      {
        assert r.carryPaid[..i + 1][..i] == r.carryPaid[..i];
        carry.Settle(r.carryPaid[i].identity, r.carryPaid[i].sats);
      }
      assert r.carryPaid[..|r.carryPaid|] == r.carryPaid;
      ghost var settled := carry.owed;
      for i := 0 to |r.unpaid|
        invariant blocks == old(blocks)
        invariant carry.owed == AddedAll(settled, r.unpaid[..i])
      {
        assert r.unpaid[..i + 1][..i] == r.unpaid[..i];
        carry.Add(r.unpaid[i].identity, r.unpaid[i].sats);
      }
      assert r.unpaid[..|r.unpaid|] == r.unpaid;
      UpdateCarried(hash);
    }

    // `update_block`: the latest record with this hash is changed in place.
    method UpdateCarried(hash: string)
      modifies this`blocks
      ensures blocks == Marked(old(blocks), hash)
    {
      var i := |blocks|;
      while i > 0
        invariant 0 <= i <= |blocks| && blocks == old(blocks)
        invariant forall j :: i <= j < |blocks| ==> blocks[j].hash != hash
      {
        i := i - 1;
        if blocks[i].hash == hash {
          MarkedAt(blocks, hash, i);
          blocks := blocks[i := blocks[i].(carried := true)];
          return;
        }
      }
      MarkedNone(blocks, hash);
    }
  }

  function LastPending(blocks: seq<BlockRecord>, hash: string): (r: Option<nat>)
    ensures r.Some? ==> r.value < |blocks| && blocks[r.value].hash == hash
                        && blocks[r.value].settled && !blocks[r.value].carried
                        && forall j :: r.value < j < |blocks| ==>
                             !(blocks[j].hash == hash && blocks[j].settled && !blocks[j].carried)
    ensures r.None? ==> forall i :: 0 <= i < |blocks| ==>
              !(blocks[i].hash == hash && blocks[i].settled && !blocks[i].carried)
  {
    if blocks == [] then None
    else
      var b := blocks[|blocks| - 1];
      if b.hash == hash && b.settled && !b.carried then Some(|blocks| - 1)
      else LastPending(blocks[..|blocks| - 1], hash)
  }

  function Marked(blocks: seq<BlockRecord>, hash: string): (r: seq<BlockRecord>)
    ensures |r| == |blocks|
  {
    if blocks == [] then []
    else if blocks[|blocks| - 1].hash == hash then
      blocks[..|blocks| - 1] + [blocks[|blocks| - 1].(carried := true)]
    else Marked(blocks[..|blocks| - 1], hash) + [blocks[|blocks| - 1]]
  }

  lemma {:induction false} MarkedAt(blocks: seq<BlockRecord>, hash: string, i: nat)
    requires i < |blocks| && blocks[i].hash == hash
    requires forall j :: i < j < |blocks| ==> blocks[j].hash != hash
    ensures Marked(blocks, hash) == blocks[i := blocks[i].(carried := true)]
  {
    if i < |blocks| - 1 {
      MarkedAt(blocks[..|blocks| - 1], hash, i);
    }
  }

  lemma {:induction false} MarkedNone(blocks: seq<BlockRecord>, hash: string)
    requires forall j :: 0 <= j < |blocks| ==> blocks[j].hash != hash
    ensures Marked(blocks, hash) == blocks
  {
    if blocks != [] {
      MarkedNone(blocks[..|blocks| - 1], hash);
    }
  }

  predicate Open(b: BlockRecord, hash: string) {
    b.hash == hash && b.settled && !b.carried
  }

  // No open record of a block is followed by another record of the same block.
  ghost predicate OpenIsNewest(blocks: seq<BlockRecord>, hash: string) {
    forall i, j :: 0 <= i < j < |blocks| && Open(blocks[i], hash) ==> blocks[j].hash != hash
  }

  ghost predicate NoneOpen(blocks: seq<BlockRecord>, hash: string) {
    forall i :: 0 <= i < |blocks| ==> !Open(blocks[i], hash)
  }

  lemma {:induction false} PendingIffOpen(blocks: seq<BlockRecord>, hash: string)
    ensures LastPending(blocks, hash) == None <==> NoneOpen(blocks, hash)
  {
    var at := LastPending(blocks, hash);
    assert at.Some? ==> Open(blocks[at.value], hash);
  }

  // Marking reaches the newest record of the block and no other.
  lemma {:induction false} MarkedEntries(blocks: seq<BlockRecord>, hash: string, i: nat)
    requires i < |blocks|
    ensures Marked(blocks, hash)[i] ==
              if blocks[i].hash == hash && forall j :: i < j < |blocks| ==> blocks[j].hash != hash
              then blocks[i].(carried := true) else blocks[i]
  {
    var n := |blocks| - 1;
    if i < n && blocks[n].hash != hash {
      MarkedEntries(blocks[..n], hash, i);
      assert Marked(blocks, hash)[i] == Marked(blocks[..n], hash)[i];
    }
  }

  // Applying a block's carry leaves nothing pending for it exactly when none of its open
  // records has a newer record of the same block behind it. Records are not deduplicated,
  // so it is the caller who has to see to that. Other blocks keep what is pending.
  lemma {:induction false} AppliedOnce(blocks: seq<BlockRecord>, hash: string)
    ensures LastPending(Marked(blocks, hash), hash) == None <==> OpenIsNewest(blocks, hash)
    ensures forall other :: other != hash ==> LastPending(Marked(blocks, hash), other) == LastPending(blocks, other)
  {
    MarkedCloses(blocks, hash);
    forall other | other != hash ensures LastPending(Marked(blocks, hash), other) == LastPending(blocks, other) {
      OthersPending(blocks, hash, other);
    }
  }

  lemma {:induction false} MarkedCloses(blocks: seq<BlockRecord>, hash: string)
    ensures LastPending(Marked(blocks, hash), hash) == None <==> OpenIsNewest(blocks, hash)
  {
    PendingIffOpen(Marked(blocks, hash), hash);
    if OpenIsNewest(blocks, hash) {
      NewestCloses(blocks, hash);
    } else {
      var i, j :| 0 <= i < j < |blocks| && Open(blocks[i], hash) && blocks[j].hash == hash;
      OlderStaysOpen(blocks, hash, i, j);
    }
  }

  lemma {:induction false} NewestCloses(blocks: seq<BlockRecord>, hash: string)
    requires OpenIsNewest(blocks, hash)
    ensures NoneOpen(Marked(blocks, hash), hash)
  {
    forall i | 0 <= i < |blocks| ensures !Open(Marked(blocks, hash)[i], hash) {
      MarkedEntries(blocks, hash, i);
    }
  }

  lemma {:induction false} OlderStaysOpen(blocks: seq<BlockRecord>, hash: string, i: nat, j: nat)
    requires i < j < |blocks| && Open(blocks[i], hash) && blocks[j].hash == hash
    ensures !NoneOpen(Marked(blocks, hash), hash)
  {
    MarkedEntries(blocks, hash, i);
    assert Open(Marked(blocks, hash)[i], hash);
  }

  lemma {:induction false} OthersPending(blocks: seq<BlockRecord>, hash: string, other: string)
    requires other != hash
    ensures LastPending(Marked(blocks, hash), other) == LastPending(blocks, other)
  {
    if blocks != [] {
      var init := blocks[..|blocks| - 1];
      OthersPending(init, hash, other);
      assert Marked(blocks, hash)[..|blocks| - 1] ==
             if blocks[|blocks| - 1].hash == hash then init else Marked(init, hash);
    }
  }

  lemma {:induction false} MarkedTwice(blocks: seq<BlockRecord>, hash: string)
    ensures Marked(Marked(blocks, hash), hash) == Marked(blocks, hash)
  {
    if blocks != [] {
      var n := |blocks| - 1;
      MarkedTwice(blocks[..n], hash);
      assert Marked(blocks, hash)[..n] == if blocks[n].hash == hash then blocks[..n] else Marked(blocks[..n], hash);
    }
  }

  // A settled record with a newer, unsettled one of the same block stays pending however
  // often its carry is applied: every call applies it again.
  lemma AppliedAgain(older: BlockRecord, newer: BlockRecord)
    requires Open(older, newer.hash) && !newer.settled
    ensures LastPending([older, newer], newer.hash) == Some(0)
    ensures var once := Marked([older, newer], newer.hash);
            && LastPending(once, newer.hash) == Some(0) && once[0] == older
            && Marked(once, newer.hash) == once
  {
    var blocks := [older, newer];
    assert blocks[..1] == [older];
    MarkedTwice(blocks, newer.hash);
    assert Marked(blocks, newer.hash)[..1] == [older];
    assert LastPending([older], newer.hash) == Some(0);
  }
}
