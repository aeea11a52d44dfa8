// The auditor as it runs: dictionaries filled by loops, a list grown and edited in
// place, sums taken on the way.
module AuditorProgram {
  import opened Prelude
  import opened Ranking
  import opened Split
  import opened Auditor
  import SplitLaws

  method SumWork(ids: seq<MinerStat>) returns (total: nat)
    ensures total == Sum(ids, WorkOf())
  {
    total := 0;
    for i := 0 to |ids|
      invariant total == Sum(ids[..i], WorkOf())
    {
      SumPrefix(ids, i, WorkOf());
      total := total + ids[i].work;
    }
    assert ids[..|ids|] == ids;
  }

  method ScriptsOf(lines: seq<Line>) returns (scripts: map<string, Script>)
    ensures scripts == ScriptMap(lines)
  {
    scripts := map[];
    for i := 0 to |lines|
      invariant scripts == ScriptMap(lines[..i])
    {
      assert lines[..i + 1][..i] == lines[..i];
      scripts := scripts[lines[i].identity := lines[i].script];
    }
    assert lines[..|lines|] == lines;
  }

  method WorksOf(ids: seq<MinerStat>) returns (works: map<string, nat>)
    ensures works == WorkMap(ids)
  {
    works := map[];
    for i := 0 to |ids|
      invariant works == WorkMap(ids[..i])
    {
      assert ids[..i + 1][..i] == ids[..i];
      works := works[ids[i].identity := ids[i].work];
    }
    assert ids[..|ids|] == ids;
  }

  // The loop over the miners, largest first.
  method WalkWindow(snap: Snapshot, scripts: map<string, Script>, total: nat, ms: seq<MinerStat>)
    returns (lines: seq<Line>, paid: nat, feeNum: nat)
    requires total > 0
    ensures lines == AuditBase(snap, scripts, total, ms)
    ensures paid == Sum(lines, LineSats())
    ensures feeNum == Sum(ms, FeeNumIn(snap))
  {
    lines, paid, feeNum := [], 0, 0;
    for i := 0 to |ms|
      invariant lines == AuditBase(snap, scripts, total, ms[..i])
      invariant paid == Sum(lines, LineSats())
      invariant feeNum == Sum(ms[..i], FeeNumIn(snap))
    {
      var m := ms[i];
      assert ms[..i + 1][..i] == ms[..i];
      SumPrefix(ms, i, FeeNumIn(snap));
      feeNum := feeNum + FeeNumOf(snap, m);
      var sats := SatsFor(snap, total, m);
      if sats == 0 {
        continue;
      }
      if sats < snap.minPayout {
        continue;
      }
      if m.identity !in scripts {
        continue;
      }
      var l := Line(m.identity, sats, scripts[m.identity]);
      SumSnoc(lines, l, LineSats());
      lines, paid := lines + [l], paid + sats;
    }
    assert ms[..|ms|] == ms;
  }

  method SumWorks(works: map<string, nat>, lines: seq<Line>) returns (w: nat)
    ensures w == Sum(lines, WorkIn(works))
  {
    w := 0;
    for i := 0 to |lines|
      invariant w == Sum(lines[..i], WorkIn(works))
    {
      SumPrefix(lines, i, WorkIn(works));
      w := w + Lookup(works, lines[i].identity);
    }
    assert lines[..|lines|] == lines;
  }

  ghost function ScaledIn(d: nat, w: nat, works: map<string, nat>): Line -> nat {
    (l: Line) => d * Lookup(works, l.identity) / Max(w, 1)
  }

  lemma ScaledFits(d: nat, works: map<string, nat>, kept: seq<Line>)
    ensures Sum(ScaleAll(d, Sum(kept, WorkIn(works)), works, kept), LineSats()) <= d
  {
    var w := Sum(kept, WorkIn(works));
    var scaled := ScaleAll(d, w, works, kept);
    FlooredSharesFit(kept, WorkIn(works), ScaledIn(d, w, works), d, Max(w, 1));
    SumAgrees(scaled, kept, LineSats(), ScaledIn(d, w, works));
    MulMono(w, Max(w, 1), d);
    MulCancel(Sum(scaled, LineSats()), d, Max(w, 1));
  }

  // Rewrite every kept amount in place and add them up.
  method Rescale(works: map<string, nat>, kept: seq<Line>, d: nat, w: nat) returns (lines: seq<Line>, tot: nat)
    ensures lines == ScaleAll(d, w, works, kept)
    ensures tot == Sum(lines, LineSats())
  {
    ghost var scaled := ScaleAll(d, w, works, kept);
    lines, tot := kept, 0;
    for i := 0 to |kept|
      invariant |lines| == |kept|
      invariant forall j :: 0 <= j < i ==> lines[j] == scaled[j]
      invariant forall j :: i <= j < |kept| ==> lines[j] == kept[j]
      invariant tot == Sum(scaled[..i], LineSats())
    {
      SumPrefix(scaled, i, LineSats());
      var l := Scale(d, w, works, lines[i]);
      lines, tot := lines[i := l], tot + l.sats;
    }
    assert scaled[..|kept|] == scaled;
    assert lines == scaled;
  }

  // Share d over the kept lines; the first largest gets the dust.
  method Share(works: map<string, nat>, kept: seq<Line>, d: nat) returns (lines: seq<Line>)
    requires kept != []
    ensures lines == ShareLines(d, works, kept)
  {
    var w := SumWorks(works, kept);
    var tot: nat;
    lines, tot := Rescale(works, kept, d, w);
    ScaledFits(d, works, kept);
    var top := FirstLargest(lines);
    lines := Raise(lines, top, d - tot);
  }

  method FirstLargest(lines: seq<Line>) returns (top: nat)
    requires lines != []
    ensures top == FirstMax(lines)
  {
    top := 0;
    for i := 1 to |lines|
      invariant top < i && top == FirstMax(lines[..i])
    {
      assert lines[..i + 1][..i] == lines[..i];
      if lines[i].sats > lines[top].sats {
        top := i;
      }
    }
    assert lines[..|lines|] == lines;
  }

  method PayCarry(snap: Snapshot, scripts: map<string, Script>, start: Tally, carry: seq<Paid>) returns (y: Tally)
    ensures y == AuditCarry(snap, scripts, start, carry)
  {
    y := start;
    for i := 0 to |carry|
      invariant y == AuditCarry(snap, scripts, start, carry[..i])
    {
      if y.room <= 0 {
        RoomSpent(snap, scripts, start, carry[..i], carry[i..]);
        assert carry[..i] + carry[i..] == carry;
        return;
      }
      assert carry[..i + 1][..i] == carry[..i];
      var c := carry[i];
      if c.sats == 0 {
        continue;
      }
      var give := Min(c.sats, y.room);
      var hit := FindLine(y.lines, c.identity);
      if hit.Some? {
        y := Tally(Raise(y.lines, hit.value, give), y.room - give);
      } else {
        if give < snap.minPayout || c.identity !in scripts {
          continue;
        }
        y := Tally(y.lines + [Line(c.identity, give, scripts[c.identity])], y.room - give);
      }
    }
    assert carry[..|carry|] == carry;
  }

  lemma {:induction false} RoomSpent(snap: Snapshot, scripts: map<string, Script>, y: Tally, a: seq<Paid>, b: seq<Paid>)
    requires AuditCarry(snap, scripts, y, a).room <= 0
    ensures AuditCarry(snap, scripts, y, a + b) == AuditCarry(snap, scripts, y, a)
    decreases |b|
  {
    if b == [] {
      assert a + b == a;
    } else {
      assert (a + b)[..|a + b| - 1] == a + b[..|b| - 1];
      RoomSpent(snap, scripts, y, a, b[..|b| - 1]);
    }
  }

  lemma OneFeeNumBounded(snap: Snapshot, m: MinerStat)
    ensures FeeNumOf(snap, m) <= 10_000 * m.work
  {
    var (s, d) := BpsOf(snap, m.identity);
    MulMono(s, 10_000, m.OnStratum());
    MulMono(d, 10_000, m.work - m.OnStratum());
  }

  lemma {:induction false} FeeNumBounded(snap: Snapshot, ms: seq<MinerStat>)
    ensures Sum(ms, FeeNumIn(snap)) <= 10_000 * Sum(ms, WorkOf())
  {
    if ms != [] {
      FeeNumBounded(snap, ms[..|ms| - 1]);
      OneFeeNumBounded(snap, ms[|ms| - 1]);
    }
  }

  // The exact fee never exceeds the block value.
  method Fee(snap: Snapshot, ms: seq<MinerStat>, feeNum: nat, total: nat) returns (fee: nat)
    requires total == TotalOf(snap) > 0 && ms == Sort(snap.identities, MinerRank)
    requires feeNum == Sum(ms, FeeNumIn(snap))
    ensures fee == ExactFeeOf(snap, ms) <= snap.value
  {
    SortSum(snap.identities, MinerRank, WorkOf());
    FeeNumBounded(snap, ms);
    SplitLaws.FractionBounded(snap.value, feeNum, total);
    fee := FeeFraction(snap.value, feeNum, total);
  }

  method Cut(snap: Snapshot, ghost ms: seq<MinerStat>, lines: seq<Line>, fee: nat) returns (y: Tally)
    requires fee == ExactFeeOf(snap, ms) <= snap.value && snap.maxPayees > 0 && lines != []
    ensures y == CutLines(snap, ms, lines)
  {
    var works := WorksOf(snap.identities);
    var d := snap.value - fee;
    var kept := Share(works, TopLines(snap, works, lines), d);
    y := Tally(kept, snap.value - d);
  }

  // Everything before carry: window, cut, and what is paid so far.
  method Start(snap: Snapshot, scripts: map<string, Script>, total: nat) returns (y: Tally)
    requires scripts == ScriptMap(snap.payees) && total == TotalOf(snap)
    ensures y == AuditStart(snap)
  {
    var ms := Sort(snap.identities, MinerRank);
    var lines, paid, feeNum := [], 0, 0;
    if total > 0 {
      lines, paid, feeNum := WalkWindow(snap, scripts, total, ms);
    }
    y := Tally(lines, snap.value - paid);
    if snap.maxPayees > 0 && lines != [] {
      var fee := Fee(snap, ms, feeNum, total);
      y := Cut(snap, ms, lines, fee);
    }
  }

  method Judge(snap: Snapshot, total: nat, y: Tally) returns (r: Report)
    ensures r == Verdict(snap, total, y)
  {
    var problems: seq<Problem> := [];
    if total != snap.totalWork {
      problems := problems + [TotalWorkDiffers];
    }
    if !SameAmounts(y.lines, snap.payees) {
      problems := problems + [SplitDiffers];
    }
    if y.room != snap.poolSats {
      problems := problems + [PoolDiffers];
    }
    r := Report(problems, y.lines, y.room);
  }

  method Recompute(snap: Snapshot) returns (r: Report)
    ensures r == AuditOf(snap)
  {
    var total := SumWork(snap.identities);
    var scripts := ScriptsOf(snap.payees);
    var y := Start(snap, scripts, total);
    y := PayCarry(snap, scripts, y, Sort(snap.carry, PaidRank));
    r := Judge(snap, total, y);
  }
}
