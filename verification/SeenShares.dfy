// Every share hash the pool has credited, by block height: recorded once, forgotten only
// below what the stale check can still let through.
module SeenShares {
  import opened Prelude

  const MAX_PER_HEIGHT := 1_000_000
  const MAX_TOTAL := 2_500_000

  datatype Seen = Fresh | Duplicate | Full

  type Heights = map<u32, set<Hash>>

  datatype Record = Record(byHeight: Heights, total: nat)

  // ---- counting -----------------------------------------------------------------------

  function At(m: Heights, h: u32): set<Hash> { if h in m then m[h] else {} }

  ghost function CountBelow(m: Heights, n: nat): nat
    requires n <= U32_MAX + 1
  {
    if n == 0 then 0 else CountBelow(m, n - 1) + |At(m, n - 1)|
  }

  lemma {:induction false} CountUpdate(m: Heights, h: u32, s: set<Hash>, n: nat)
    requires n <= U32_MAX + 1
    ensures CountBelow(m[h := s], n) + (if h < n then |At(m, h)| else 0)
            == CountBelow(m, n) + if h < n then |s| else 0
  {
    if n > 0 {
      CountUpdate(m, h, s, n - 1);
    }
  }

  lemma {:induction false} CountRemove(m: Heights, h: u32, n: nat)
    requires n <= U32_MAX + 1
    ensures CountBelow(m, n) == CountBelow(m - {h}, n) + if h < n then |At(m, h)| else 0
  {
    if n > 0 {
      CountRemove(m, h, n - 1);
    }
  }

  lemma {:induction false} CountNothing(n: nat)
    requires n <= U32_MAX + 1
    ensures CountBelow(map[], n) == 0
  {
    if n > 0 {
      CountNothing(n - 1);
    }
  }

  // The total is exact and both caps hold.
  ghost predicate Sound(r: Record) {
    && r.total == CountBelow(r.byHeight, U32_MAX + 1)
    && r.total <= MAX_TOTAL
    && forall h :: h in r.byHeight ==> |r.byHeight[h]| <= MAX_PER_HEIGHT
  }

  // ---- what the two operations do -----------------------------------------------------

  // A height gets its set even when the share is not recorded.
  function Insert(r: Record, h: u32, x: Hash): (Record, Seen) {
    var s := At(r.byHeight, h);
    if x in s then (r.(byHeight := r.byHeight[h := s]), Duplicate)
    else if |s| >= MAX_PER_HEIGHT || r.total >= MAX_TOTAL then (r.(byHeight := r.byHeight[h := s]), Full)
    else (Record(r.byHeight[h := s + {x}], r.total + 1), Fresh)
  }

  ghost function Above(m: Heights, min: nat): Heights { map h | h in m && h >= min :: m[h] }

  ghost function Prune(r: Record, min: nat): Record {
    var kept := Above(r.byHeight, min);
    Record(kept, CountBelow(kept, U32_MAX + 1))
  }

  lemma InsertSound(r: Record, h: u32, x: Hash)
    requires Sound(r)
    ensures Sound(Insert(r, h, x).0)
  {
    var s, n := At(r.byHeight, h), U32_MAX + 1;
    SetSound(r, h, s);
    if Insert(r, h, x).1 == Fresh {
      assert |s + {x}| == |s| + 1;
      SetSound(r, h, s + {x});
    }
  }

  lemma SetSound(r: Record, h: u32, s: set<Hash>)
    requires Sound(r) && |At(r.byHeight, h)| <= |s| <= MAX_PER_HEIGHT
    requires r.total + |s| - |At(r.byHeight, h)| <= MAX_TOTAL
    ensures Sound(Record(r.byHeight[h := s], r.total + |s| - |At(r.byHeight, h)|))
  {
    CountUpdate(r.byHeight, h, s, U32_MAX + 1);
  }

  // A share is fresh only the first time, and recorded unless the set is full; nothing
  // recorded is lost.
  lemma InsertRecords(r: Record, h: u32, x: Hash)
    ensures Insert(r, h, x).1 == Duplicate <==> x in At(r.byHeight, h)
    ensures Insert(r, h, x).1 != Full <==> x in At(Insert(r, h, x).0.byHeight, h)
    ensures forall k: u32 :: At(r.byHeight, k) <= At(Insert(r, h, x).0.byHeight, k)
  {
  }

  // The caps are a million a height and two and a half million in all; a recorded share is
  // the only thing that changes.
  lemma InsertByFields(r: Record, h: u32, x: Hash)
    ensures var known := h in r.byHeight && x in r.byHeight[h];
            var crowd := if h in r.byHeight then |r.byHeight[h]| else 0;
            var (after, verdict) := Insert(r, h, x);
            && verdict == (if known then Duplicate
                           else if crowd >= 1_000_000 || r.total >= 2_500_000 then Full else Fresh)
            && after.total == (if verdict == Fresh then r.total + 1 else r.total)
            && after.byHeight.Keys == r.byHeight.Keys + {h}
            && (forall k :: k in r.byHeight && k != h ==> after.byHeight[k] == r.byHeight[k])
            && after.byHeight[h] == (if h in r.byHeight then r.byHeight[h] else {})
                                    + if verdict == Fresh then {x} else {}
  {
  }

  lemma {:induction false} PruneCounts(m: Heights, min: nat, n: nat)
    requires n <= U32_MAX + 1
    ensures CountBelow(Above(m, min), n) <= CountBelow(m, n)
  {
    if n > 0 {
      PruneCounts(m, min, n - 1);
    }
  }

  lemma PruneSound(r: Record, min: nat)
    requires Sound(r)
    ensures Sound(Prune(r, min)) && Prune(r, min).total <= r.total
    ensures forall h: u32 :: h >= min ==> At(Prune(r, min).byHeight, h) == At(r.byHeight, h)
  {
    PruneCounts(r.byHeight, min, U32_MAX + 1);
  }

  // ---- the object ---------------------------------------------------------------------

  lemma Least(keys: set<u32>) returns (least: u32)
    requires keys != {}
    ensures least in keys && forall k :: k in keys ==> least <= k
  {
    var h :| h in keys;
    var rest := keys - {h};
    assert keys == rest + {h};
    least := h;
    if rest != {} {
      var l := Least(rest);
      least := if l < h then l else h;
    }
  }

  class Shares {
    var byHeight: Heights
    var total: nat

    ghost function Value(): Record
      reads this
    {
      Record(byHeight, total)
    }

    constructor ()
      ensures Value() == Record(map[], 0) && Sound(Value())
    {
      byHeight, total := map[], 0;
      CountNothing(U32_MAX + 1);
    }

    method InsertShare(height: u32, hash: Hash) returns (seen: Seen)
      requires Sound(Value())
      modifies this
      ensures (Value(), seen) == Insert(old(Value()), height, hash) && Sound(Value())
    {
      InsertSound(Value(), height, hash);
      if height !in byHeight {
        byHeight := byHeight[height := {}];
      }
      var kept := byHeight[height];
      assert byHeight == old(byHeight)[height := kept];
      if hash in kept {
        return Duplicate;
      }
      if |kept| >= MAX_PER_HEIGHT || total >= MAX_TOTAL {
        return Full;
      }
      assert byHeight[height := kept + {hash}] == old(byHeight)[height := kept + {hash}];
      byHeight := byHeight[height := kept + {hash}];
      total := total + 1;
      return Fresh;
    }

    // Forget every height below `min`, smallest first; the count never underflows.
    method PruneBelow(min: u32)
      requires Sound(Value())
      modifies this
      ensures Value() == Prune(old(Value()), min) && Sound(Value())
    {
      PruneSound(Value(), min);
      while byHeight != map[]
        invariant total == CountBelow(byHeight, U32_MAX + 1)
        invariant byHeight.Keys <= old(byHeight).Keys
        invariant forall h :: h in byHeight ==> byHeight[h] == old(byHeight)[h]
        invariant forall h :: h in old(byHeight) && h >= min ==> h in byHeight
        decreases |byHeight.Keys|
      {
        ghost var least := Least(byHeight.Keys);
        var h :| h in byHeight.Keys && forall k :: k in byHeight.Keys ==> h <= k;
        if h >= min {
          break;
        }
        CountRemove(byHeight, h, U32_MAX + 1);
        total := total - |byHeight[h]|;
        byHeight := byHeight - {h};
      }
      assert byHeight == Above(old(byHeight), min);
    }
  }

  // ---- whole runs ---------------------------------------------------------------------

  // Without a tip there is no staleness check. With one, work is taken for the next two
  // heights, and for the tip's own within the grace period.
  predicate Acceptable(tip: Option<u32>, height: u32, inGrace: bool) {
    tip.Some? ==>
      var expected := tip.value + 1;
      && height <= expected + 1
      && (height >= expected || (height + 1 == expected && inGrace))
  }

  lemma AcceptedHeights(tip: u32, height: u32, inGrace: bool)
    ensures Acceptable(None, height, inGrace)
    ensures Acceptable(Some(tip), height, inGrace) <==>
              height == tip + 1 || height == tip + 2 || (height == tip && inGrace)
  {
  }

  datatype Pool = Pool(tip: Option<u32>, seen: Record)

  datatype Event =
    | Submit(height: u32, hash: Hash, inGrace: bool)
    | MoveTip(height: u32)
    | Housekeeping
    | Restart

  datatype Outcome = Credited(height: u32, hash: Hash) | NotCredited

  // The pruning height of housekeeping: two below the tip.
  function PruneHeight(tip: u32): u32 { SatSub(tip, 2) }

  const EMPTY_POOL := Pool(None, Record(map[], 0))

  // A restart loses the set and the tip; what has been credited stays in the ledger.
  ghost function Step(p: Pool, e: Event): (Pool, Outcome) {
    match e
    case Submit(h, x, inGrace) =>
      if !Acceptable(p.tip, h, inGrace) then (p, NotCredited)
      else
        var (seen, verdict) := Insert(p.seen, h, x);
        (p.(seen := seen), if verdict == Fresh then Credited(h, x) else NotCredited)
    case MoveTip(h) => (p.(tip := Some(h)), NotCredited)
    case Housekeeping =>
      if p.tip.None? then (p, NotCredited) else (p.(seen := Prune(p.seen, PruneHeight(p.tip.value))), NotCredited)
    case Restart => (EMPTY_POOL, NotCredited)
  }

  // Housekeeping forgets every height more than two below the tip, and no other.
  lemma HousekeepingKeeps(p: Pool, tip: u32, h: u32)
    requires p.tip == Some(tip)
    ensures var kept := Step(p, Housekeeping).0;
            && kept.tip == p.tip
            && (h in kept.seen.byHeight <==> h in p.seen.byHeight && tip <= h + 2)
            && (h in kept.seen.byHeight ==> kept.seen.byHeight[h] == p.seen.byHeight[h])
  {
  }

  ghost function Run(p: Pool, events: seq<Event>): seq<Outcome>
    ensures |Run(p, events)| == |events|
    decreases |events|
  {
    if events == [] then [] else [Step(p, events[0]).1] + Run(Step(p, events[0]).0, events[1..])
  }

  // The process keeps running, and the heights pruned so far never rise above a tip that
  // shares are later judged by: the tip never falls more than two below a height at which
  // housekeeping ran.
  ghost predicate TipHolds(p: Pool, floor: nat, events: seq<Event>)
    decreases |events|
  {
    events == [] ||
    var e := events[0];
    && !e.Restart?
    && (e.Submit? ==> floor <= if p.tip.Some? then p.tip.value else 0)
    && TipHolds(Step(p, e).0, FloorAfter(p, floor, e), events[1..])
  }

  ghost function FloorAfter(p: Pool, floor: nat, e: Event): nat {
    if e.Housekeeping? && p.tip.Some? then Max(floor, PruneHeight(p.tip.value)) else floor
  }

  // Everything credited at or above the floor is still remembered.
  ghost predicate Remembers(p: Pool, floor: nat, h: u32, x: Hash) {
    Sound(p.seen) && (h >= floor ==> x in At(p.seen.byHeight, h))
  }

  lemma StepRemembers(p: Pool, floor: nat, e: Event, h: u32, x: Hash)
    requires Remembers(p, floor, h, x) && !e.Restart?
    ensures Remembers(Step(p, e).0, FloorAfter(p, floor, e), h, x)
  {
    match e {
      case Submit(k, y, inGrace) =>
        InsertSound(p.seen, k, y);
        InsertRecords(p.seen, k, y);
      case MoveTip(k) =>
      case Housekeeping =>
        if p.tip.Some? {
          PruneSound(p.seen, PruneHeight(p.tip.value));
        }
    }
  }

  lemma StepSound(p: Pool, e: Event)
    requires Sound(p.seen)
    ensures Sound(Step(p, e).0.seen)
  {
    match e {
      case Submit(k, y, inGrace) =>
        InsertSound(p.seen, k, y);
        InsertRecords(p.seen, k, y);
      case MoveTip(k) =>
      case Housekeeping =>
        if p.tip.Some? {
          PruneSound(p.seen, PruneHeight(p.tip.value));
        }
      case Restart => CountNothing(U32_MAX + 1);
    }
  }

  // A share that is remembered is not credited again.
  lemma {:induction false} NeverAgain(p: Pool, floor: nat, events: seq<Event>, h: u32, x: Hash, j: nat)
    requires Remembers(p, floor, h, x) && TipHolds(p, floor, events) && j < |events|
    ensures Run(p, events)[j] != Credited(h, x)
    decreases j
  {
    var e := events[0];
    if j == 0 {
      if e.Submit? && e.height == h && e.hash == x {
        InsertRecords(p.seen, h, x);
      }
    } else {
      StepRemembers(p, floor, e, h, x);
      NeverAgain(Step(p, e).0, FloorAfter(p, floor, e), events[1..], h, x, j - 1);
    }
  }

  // Over any run of submissions, tip moves and housekeeping no share is credited twice.
  lemma {:induction false} CreditedOnce(p: Pool, floor: nat, events: seq<Event>, i: nat, j: nat)
    requires Sound(p.seen) && TipHolds(p, floor, events) && i < j < |events|
    requires Run(p, events)[i].Credited?
    ensures Run(p, events)[j] != Run(p, events)[i]
    decreases i
  {
    var e := events[0];
    StepSound(p, e);
    var p', floor' := Step(p, e).0, FloorAfter(p, floor, e);
    if i == 0 {
      InsertRecords(p.seen, e.height, e.hash);
      NeverAgain(p', floor', events[1..], e.height, e.hash, j - 1);
    } else {
      CreditedOnce(p', floor', events[1..], i - 1, j - 1);
    }
  }

  // In every reachable state the total is exact and the caps hold.
  ghost function After(p: Pool, events: seq<Event>): Pool
    decreases |events|
  {
    if events == [] then p else After(Step(p, events[0]).0, events[1..])
  }

  lemma {:induction false} AlwaysSound(p: Pool, events: seq<Event>)
    requires Sound(p.seen)
    ensures Sound(After(p, events).seen)
    decreases |events|
  {
    if events != [] {
      StepSound(p, events[0]);
      AlwaysSound(Step(p, events[0]).0, events[1..]);
    }
  }

  // ---- exactly when a share is credited again -----------------------------------------

  // An event that makes the pool forget what it credited at a height.
  predicate Forgets(p: Pool, e: Event, h: u32) {
    e.Restart? || (e.Housekeeping? && p.tip.Some? && h < PruneHeight(p.tip.value))
  }

  ghost predicate ForgetsDuring(p: Pool, events: seq<Event>, h: u32)
    decreases |events|
  {
    events != [] && (Forgets(p, events[0], h) || ForgetsDuring(Step(p, events[0]).0, events[1..], h))
  }

  lemma StepForgets(p: Pool, e: Event, h: u32, x: Hash)
    requires Step(p, e).1 != Credited(h, x)
    ensures x in At(Step(p, e).0.seen.byHeight, h) <==> x in At(p.seen.byHeight, h) && !Forgets(p, e, h)
  {
    match e {
      case Submit(k, y, inGrace) => InsertRecords(p.seen, k, y);
      case MoveTip(k) =>
      case Housekeeping =>
      case Restart =>
    }
  }

  // While it is not credited, a share is remembered exactly as long as no event forgets it.
  lemma {:induction false} RememberedUnlessForgotten(p: Pool, events: seq<Event>, h: u32, x: Hash)
    requires forall j :: 0 <= j < |events| ==> Run(p, events)[j] != Credited(h, x)
    ensures x in At(After(p, events).seen.byHeight, h) <==>
              x in At(p.seen.byHeight, h) && !ForgetsDuring(p, events, h)
    decreases |events|
  {
    if events != [] {
      var e, rest := events[0], events[1..];
      assert Run(p, events)[0] == Step(p, e).1;
      StepForgets(p, e, h, x);
      forall j | 0 <= j < |rest| ensures Run(Step(p, e).0, rest)[j] != Credited(h, x) {
        assert Run(p, events)[j + 1] == Run(Step(p, e).0, rest)[j];
      }
      RememberedUnlessForgotten(Step(p, e).0, rest, h, x);
    }
  }

  // A credited share, sent again after any events, is credited again exactly when one of
  // them made the pool forget its height and the stale check lets it through.
  lemma CreditedAgainIff(p: Pool, events: seq<Event>, h: u32, x: Hash, inGrace: bool)
    requires x in At(p.seen.byHeight, h)
    requires forall j :: 0 <= j < |events| ==> Run(p, events)[j] != Credited(h, x)
    requires var q := After(p, events); q.seen.total < MAX_TOTAL && |At(q.seen.byHeight, h)| < MAX_PER_HEIGHT
    ensures var q := After(p, events);
            Step(q, Submit(h, x, inGrace)).1 == Credited(h, x)
            <==> Acceptable(q.tip, h, inGrace) && ForgetsDuring(p, events, h)
  {
    RememberedUnlessForgotten(p, events, h, x);
    InsertRecords(After(p, events).seen, h, x);
  }

  // Two is the most the tip may fall: housekeeping at one tip, then a tip three or more
  // lower, and every share credited at a height that tip accepts and the pruning reached
  // is credited a second time.
  lemma DeeperFallForgets(p: Pool, tip: u32, lower: u32, h: u32, x: Hash, inGrace: bool)
    requires Sound(p.seen) && p.tip == Some(tip) && lower + 2 < tip
    requires x in At(p.seen.byHeight, h) && p.seen.total < MAX_TOTAL
    requires h + 2 < tip && Acceptable(Some(lower), h, inGrace)
    ensures var q := Step(Step(p, Housekeeping).0, MoveTip(lower)).0;
            Step(q, Submit(h, x, inGrace)).1 == Credited(h, x)
  {
    PruneSound(p.seen, PruneHeight(tip));
    var q := Step(Step(p, Housekeeping).0, MoveTip(lower)).0;
    assert At(q.seen.byHeight, h) == {};
  }

  // After a restart every share still within the stale window is credited a second time.
  lemma RestartForgets(p: Pool, tip: u32, h: u32, x: Hash, inGrace: bool)
    requires Acceptable(Some(tip), h, inGrace)
    ensures Step(Step(p, Restart).0, Submit(h, x, inGrace)).1 == Credited(h, x)
    ensures Step(Step(Step(p, Restart).0, MoveTip(tip)).0, Submit(h, x, inGrace)).1 == Credited(h, x)
  {
  }
}
