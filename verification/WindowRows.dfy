// The sliding share window: the most recent rows whose work reaches a target, a
// redundant per-identity totals map kept incrementally, and the ranked listing that
// every split is computed from.
module WindowRows {
  import opened Prelude
  import opened Ranking
  import opened Split

  const SOURCE_STRATUM: byte := 1

  datatype Credit = Credit(ts: u32, ident: u32, work: u64, height: u32, source: byte)

  ghost function RowWork(): Credit -> nat { (c: Credit) => c.work }
  ghost function WorkBy(i: u32): Credit -> nat { (c: Credit) => if c.ident == i then c.work else 0 }
  ghost function RowBy(i: u32): Credit -> nat { (c: Credit) => if c.ident == i then 1 else 0 }
  ghost function StratumBy(i: u32): Credit -> nat {
    (c: Credit) => if c.ident == i && c.source == 1 then c.work else 0
  }

  // ---- trimming ---------------------------------------------------------------------

  // Drop the oldest rows while the rest still reaches the target; no target, no trimming.
  ghost function Trim(rows: seq<Credit>, target: nat): seq<Credit> {
    if target == 0 || rows == [] || Sum(rows[1..], RowWork()) < target then rows
    else Trim(rows[1..], target)
  }

  lemma {:induction false} TrimIsSuffix(rows: seq<Credit>, target: nat)
    ensures |Trim(rows, target)| <= |rows|
    ensures Trim(rows, target) == rows[|rows| - |Trim(rows, target)|..]
  {
    if !(target == 0 || rows == [] || Sum(rows[1..], RowWork()) < target) {
      TrimIsSuffix(rows[1..], target);
    }
  }

  // The shortest suffix of `rows` that reaches the target, or everything if none does.
  ghost predicate IsShortestReaching(w: seq<Credit>, rows: seq<Credit>, target: nat) {
    && |w| <= |rows| && w == rows[|rows| - |w|..]
    && (Sum(rows, RowWork()) < target ==> w == rows)
    && (Sum(rows, RowWork()) >= target ==>
          Sum(w, RowWork()) >= target
          && forall k :: |rows| - |w| < k <= |rows| ==> Sum(rows[k..], RowWork()) < target)
  }

  lemma SumTail(rows: seq<Credit>)
    requires rows != []
    ensures Sum(rows, RowWork()) == rows[0].work + Sum(rows[1..], RowWork())
  {
    SumCons(rows[0], rows[1..], RowWork());
    assert rows == [rows[0]] + rows[1..];
  }

  lemma {:induction false} SuffixSumsShrink(rows: seq<Credit>, k: nat)
    requires k <= |rows|
    ensures Sum(rows[k..], RowWork()) <= Sum(rows, RowWork())
  {
    SumConcat(rows[..k], rows[k..], RowWork());
    assert rows[..k] + rows[k..] == rows;
  }

  lemma {:induction false} TrimIsShortest(rows: seq<Credit>, target: nat)
    requires target > 0
    ensures IsShortestReaching(Trim(rows, target), rows, target)
  {
    if rows == [] {
    } else if Sum(rows[1..], RowWork()) < target {
      forall k | 0 < k <= |rows| ensures Sum(rows[k..], RowWork()) < target {
        SuffixSumsShrink(rows[1..], k - 1);
        assert rows[1..][k - 1..] == rows[k..];
      }
    } else {
      var tail, w := rows[1..], Trim(rows, target);
      TrimIsShortest(tail, target);
      SumTail(rows);
      forall k | |rows| - |w| < k <= |rows| ensures Sum(rows[k..], RowWork()) < target {
        assert rows[k..] == tail[k - 1..];
      }
    }
  }

  // Trimming before a push is absorbed by trimming after it.
  lemma {:induction false} TrimPushTrim(rows: seq<Credit>, c: Credit, target: nat)
    ensures Trim(Trim(rows, target) + [c], target) == Trim(rows + [c], target)
  {
    if !(target == 0 || rows == [] || Sum(rows[1..], RowWork()) < target) {
      TrimPushTrim(rows[1..], c, target);
      PushedTail(rows, c, target);
    }
  }

  lemma PushedTail(rows: seq<Credit>, c: Credit, target: nat)
    requires target > 0 && rows != [] && Sum(rows[1..], RowWork()) >= target
    ensures Trim(rows + [c], target) == Trim(rows[1..] + [c], target)
  {
    assert (rows + [c])[1..] == rows[1..] + [c];
    SumSnoc(rows[1..], c, RowWork());
  }

  // A lower target absorbs a higher one; no target at all is the highest.
  lemma {:induction false} TrimAbsorbs(rows: seq<Credit>, high: nat, low: nat)
    requires high == 0 || 0 < low <= high
    ensures Trim(Trim(rows, high), low) == Trim(rows, low)
  {
    if !(high == 0 || rows == [] || Sum(rows[1..], RowWork()) < high) {
      TrimAbsorbs(rows[1..], high, low);
    }
  }

  lemma SuffixAtMost(rows: seq<Credit>, target: nat)
    ensures Sum(Trim(rows, target), RowWork()) <= Sum(rows, RowWork())
    ensures |Trim(rows, target)| == |rows| ==> Trim(rows, target) == rows
  {
    TrimIsSuffix(rows, target);
    SuffixSumsShrink(rows, |rows| - |Trim(rows, target)|);
  }

  // A higher target leaves what a lower one left exactly when that was everything, or
  // already reaches the higher target.
  lemma {:induction false} TrimAtHigher(rows: seq<Credit>, low: nat, high: nat)
    requires 0 < low && (high == 0 || low < high)
    ensures var w := Trim(rows, low);
            Trim(rows, high) == w <==> |rows| == |w| || (high > 0 && Sum(w, RowWork()) >= high)
  {
    SuffixAtMost(rows, low);
    if high > 0 && rows != [] && Sum(rows[1..], RowWork()) >= low {
      var tail, w := rows[1..], Trim(rows, low);
      assert w == Trim(tail, low);
      TrimAtHigher(tail, low, high);
      SuffixAtMost(tail, low);
      TrimIsSuffix(tail, low);
      assert |w| < |rows|;
      if Sum(tail, RowWork()) < high {
        assert Trim(rows, high) == rows;
      } else {
        assert Trim(rows, high) == Trim(tail, high);
        assert |tail| == |w| ==> tail == w;
      }
    }
  }

  // ---- coalescing -------------------------------------------------------------------

  predicate Merges(tail: Credit, c: Credit) {
    tail.ident == c.ident && tail.ts == c.ts && tail.height == c.height && tail.source == c.source
  }

  // Append, or add to the newest row when it is for the same miner, second, height and
  // source.
  function Coalesce(rows: seq<Credit>, c: Credit): (r: seq<Credit>)
    ensures r != []
  {
    if rows != [] && Merges(rows[|rows| - 1], c) then
      rows[..|rows| - 1] + [rows[|rows| - 1].(work := SatAdd(rows[|rows| - 1].work, c.work))]
    else rows + [c]
  }

  lemma CoalesceByFields(rows: seq<Credit>, c: Credit)
    ensures Coalesce([], c) == [c]
    ensures rows != [] ==>
              var n := |rows| - 1;
              var last := rows[n];
              Coalesce(rows, c) ==
              if last.ident == c.ident && last.ts == c.ts && last.height == c.height && last.source == c.source then
                var work := last.work + c.work;
                rows[..n] + [Credit(c.ts, c.ident, if work <= U64_MAX then work else U64_MAX, c.height, c.source)]
              else rows + [c]
  {
    assert [] + [c] == [c];
  }

  lemma CoalesceWork(rows: seq<Credit>, c: Credit)
    requires Sum(rows, RowWork()) + c.work <= U64_MAX
    ensures Sum(Coalesce(rows, c), RowWork()) == Sum(rows, RowWork()) + c.work
  {
    if rows != [] && Merges(rows[|rows| - 1], c) {
      SumAtLeastMember(rows, |rows| - 1, RowWork());
      SumSnoc(rows[..|rows| - 1], rows[|rows| - 1].(work := SatAdd(rows[|rows| - 1].work, c.work)), RowWork());
    } else {
      SumSnoc(rows, c, RowWork());
    }
  }

  lemma {:induction false} TrimCoalesceTrim(rows: seq<Credit>, c: Credit, target: nat)
    requires target > 0 && Sum(rows, RowWork()) + c.work <= U64_MAX
    ensures Trim(Coalesce(Trim(rows, target), c), target) == Trim(Coalesce(rows, c), target)
  {
    if rows != [] && Sum(rows[1..], RowWork()) >= target {
      var tail := rows[1..];
      SumTail(rows);
      assert tail != [];
      TrimCoalesceTrim(tail, c, target);
      CoalesceWork(tail, c);
      assert rows[|rows| - 1] == tail[|tail| - 1];
      assert Coalesce(rows, c)[1..] == Coalesce(tail, c);
    }
  }

  // ---- runs under a fixed target ----------------------------------------------------

  datatype Arrival = Row(c: Credit) | Merge(c: Credit)

  // The log of everything credited, never trimmed.
  function Log(arrivals: seq<Arrival>): seq<Credit> {
    if arrivals == [] then []
    else match arrivals[|arrivals| - 1]
      case Row(c) => Log(arrivals[..|arrivals| - 1]) + [c]
      case Merge(c) => Coalesce(Log(arrivals[..|arrivals| - 1]), c)
  }

  // The window kept along the way, trimmed after every arrival.
  ghost function Kept(arrivals: seq<Arrival>, target: nat): seq<Credit> {
    if arrivals == [] then []
    else
      var w := Kept(arrivals[..|arrivals| - 1], target);
      match arrivals[|arrivals| - 1]
      case Row(c) => Trim(w + [c], target)
      case Merge(c) => Trim(Coalesce(w, c), target)
  }

  ghost function Arrived(): Arrival -> nat { (a: Arrival) => a.c.work }

  lemma {:induction false} LogWork(arrivals: seq<Arrival>)
    requires Sum(arrivals, Arrived()) <= U64_MAX
    ensures Sum(Log(arrivals), RowWork()) == Sum(arrivals, Arrived())
  {
    if arrivals != [] {
      var init := arrivals[..|arrivals| - 1];
      LogWork(init);
      match arrivals[|arrivals| - 1]
      case Row(c) => SumSnoc(Log(init), c, RowWork());
      case Merge(c) => CoalesceWork(Log(init), c);
    }
  }

  // However rows arrive, with or without coalescing, the incrementally trimmed window is
  // the shortest suffix of the whole log that reaches the target.
  lemma {:induction false} WindowIsShortestSuffix(arrivals: seq<Arrival>, target: nat)
    requires target > 0 && Sum(arrivals, Arrived()) <= U64_MAX
    ensures Kept(arrivals, target) == Trim(Log(arrivals), target)
    ensures IsShortestReaching(Kept(arrivals, target), Log(arrivals), target)
  {
    if arrivals != [] {
      var init := arrivals[..|arrivals| - 1];
      WindowIsShortestSuffix(init, target);
      LogWork(init);
      match arrivals[|arrivals| - 1]
      case Row(c) => TrimPushTrim(Log(init), c, target);
      case Merge(c) => TrimCoalesceTrim(Log(init), c, target);
    }
    TrimIsShortest(Log(arrivals), target);
  }
}
