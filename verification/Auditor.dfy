// The public auditor: a second program that recomputes a split from a published
// snapshot. It knows the window, the carry and the parameters, but of the payout
// scripts only those of the identities the snapshot says were paid.
module Auditor {
  import opened Prelude
  import opened Ranking
  import opened Split

  // One line of the recomputed list, `[identity, sats, script]`.
  datatype Line = Line(identity: string, sats: nat, script: Script)

  datatype Snapshot = Snapshot(
    feeBps: Bps, stratumFeeBps: Bps, minPayout: nat, maxPayees: nat, feeOverrides: map<string, Bps>,
    value: nat, totalWork: nat, identities: seq<MinerStat>, carry: seq<Paid>,
    payees: seq<Line>, poolSats: int)

  datatype Problem = TotalWorkDiffers | SplitDiffers | PoolDiffers

  datatype Report = Report(problems: seq<Problem>, lines: seq<Line>, poolSats: int)

  // What Prime publishes: window by name, carry by name, the payees it computed.
  function NameRank(m: MinerStat): Rank { Rank(0, m.identity) }

  function LineOf(q: Payee): Line { Line(q.identity, q.sats, q.script) }

  function LinesOf(qs: seq<Payee>): (r: seq<Line>)
    ensures |r| == |qs|
  {
    seq(|qs|, i requires 0 <= i < |qs| => LineOf(qs[i]))
  }

  function CarryEntries(keys: seq<string>, owed: map<string, nat>): (r: seq<Paid>)
    ensures |r| == |keys|
  {
    seq(|keys|, i requires 0 <= i < |keys| => Paid(keys[i], Due(owed, keys[i])))
  }

  ghost function Publish(t: Terms, ms: seq<MinerStat>, owed: map<string, nat>, s: Split): Snapshot {
    Snapshot(t.params.feeBps, t.params.stratumFeeBps, t.params.minPayout, t.params.maxPayees,
             t.params.feeOverrides, t.value, t.totalWork, Sort(ms, NameRank),
             CarryEntries(SortedKeys(owed.Keys), owed), LinesOf(s.payees), s.poolSats)
  }

  // ---- the auditor's own formulas ---------------------------------------------------

  function BpsOf(snap: Snapshot, identity: string): (Bps, Bps) {
    var stratum := if snap.stratumFeeBps != 0 then snap.stratumFeeBps else snap.feeBps;
    if identity in snap.feeOverrides then (snap.feeOverrides[identity], snap.feeOverrides[identity])
    else (stratum, snap.feeBps)
  }

  function FeeNumOf(snap: Snapshot, m: MinerStat): nat {
    var (s, d) := BpsOf(snap, m.identity);
    Weighted(m.OnStratum(), s, m.work - m.OnStratum(), d)
  }

  function KeepNumOf(snap: Snapshot, m: MinerStat): nat {
    var (s, d) := BpsOf(snap, m.identity);
    Weighted(m.OnStratum(), 10_000 - s, m.work - m.OnStratum(), 10_000 - d)
  }

  function SatsFor(snap: Snapshot, total: nat, m: MinerStat): nat
    requires total > 0
  {
    snap.value * KeepNumOf(snap, m) / total / 10_000
  }

  function ScriptMap(lines: seq<Line>): map<string, Script> {
    if lines == [] then map[]
    else ScriptMap(lines[..|lines| - 1])[lines[|lines| - 1].identity := lines[|lines| - 1].script]
  }

  function WorkMap(ids: seq<MinerStat>): map<string, nat> {
    if ids == [] then map[]
    else WorkMap(ids[..|ids| - 1])[ids[|ids| - 1].identity := ids[|ids| - 1].work]
  }

  function Lookup(m: map<string, nat>, k: string): nat {
    if k in m then m[k] else 0
  }

  ghost function LineSats(): Line -> nat { (l: Line) => l.sats }
  ghost function WorkIn(works: map<string, nat>): Line -> nat { (l: Line) => Lookup(works, l.identity) }
  ghost function FeeNumIn(snap: Snapshot): MinerStat -> nat { (m: MinerStat) => FeeNumOf(snap, m) }

  function LineRank(works: map<string, nat>): Line -> Rank {
    (l: Line) => Rank(Lookup(works, l.identity), l.identity)
  }

  function AuditBase(snap: Snapshot, scripts: map<string, Script>, total: nat, ms: seq<MinerStat>): seq<Line> {
    if total == 0 || ms == [] then []
    else
      var m := ms[|ms| - 1];
      var sats := SatsFor(snap, total, m);
      AuditBase(snap, scripts, total, ms[..|ms| - 1])
      + if sats == 0 || sats < snap.minPayout || m.identity !in scripts then []
        else [Line(m.identity, sats, scripts[m.identity])]
  }

  // `max(payees, key=sats)`: among equal maxima the first one wins.
  function FirstMax(ls: seq<Line>): (i: nat)
    requires ls != []
    ensures i < |ls|
    ensures forall j :: 0 <= j < |ls| ==> ls[j].sats <= ls[i].sats
    ensures forall j :: 0 <= j < i ==> ls[j].sats < ls[i].sats
  {
    var n := |ls| - 1;
    if n == 0 then 0
    else
      var r := FirstMax(ls[..n]);
      if ls[n].sats > ls[r].sats then n else r
  }

  function Scale(d: nat, keptWork: nat, works: map<string, nat>, l: Line): Line {
    l.(sats := d * Lookup(works, l.identity) / Max(keptWork, 1))
  }

  function ScaleAll(d: nat, keptWork: nat, works: map<string, nat>, ls: seq<Line>): (r: seq<Line>)
    ensures |r| == |ls|
  {
    seq(|ls|, i requires 0 <= i < |ls| => Scale(d, keptWork, works, ls[i]))
  }

  function Raise(ls: seq<Line>, i: nat, extra: nat): (r: seq<Line>)
    requires i < |ls|
    ensures |r| == |ls|
  {
    ls[i := ls[i].(sats := ls[i].sats + extra)]
  }

  function TopLines(snap: Snapshot, works: map<string, nat>, ls: seq<Line>): (r: seq<Line>)
    ensures snap.maxPayees > 0 && ls != [] ==> r != []
  {
    SortMultiset(ls, LineRank(works));
    var sorted := Sort(ls, LineRank(works));
    if |sorted| > snap.maxPayees then sorted[..snap.maxPayees] else sorted
  }

  datatype Tally = Tally(lines: seq<Line>, room: int)

  function FindLine(ls: seq<Line>, identity: string): (r: Option<nat>)
    ensures r.Some? ==> r.value < |ls| && ls[r.value].identity == identity
                        && forall j :: 0 <= j < r.value ==> ls[j].identity != identity
    ensures r.None? ==> forall j :: 0 <= j < |ls| ==> ls[j].identity != identity
  {
    if ls == [] then None
    else match FindLine(ls[..|ls| - 1], identity)
      case Some(i) => Some(i)
      case None => if ls[|ls| - 1].identity == identity then Some(|ls| - 1) else None
  }

  function AuditCarryStep(snap: Snapshot, scripts: map<string, Script>, y: Tally, c: Paid): Tally {
    if y.room <= 0 || c.sats == 0 then y
    else
      var give := Min(c.sats, y.room);
      match FindLine(y.lines, c.identity)
      case Some(i) => Tally(Raise(y.lines, i, give), y.room - give)
      case None =>
        if give < snap.minPayout || c.identity !in scripts then y
        else Tally(y.lines + [Line(c.identity, give, scripts[c.identity])], y.room - give)
  }

  function AuditCarry(snap: Snapshot, scripts: map<string, Script>, y: Tally, cs: seq<Paid>): Tally {
    if cs == [] then y
    else AuditCarryStep(snap, scripts, AuditCarry(snap, scripts, y, cs[..|cs| - 1]), cs[|cs| - 1])
  }

  ghost function TotalOf(snap: Snapshot): nat {
    Sum(snap.identities, WorkOf())
  }

  ghost function ExactFeeOf(snap: Snapshot, ms: seq<MinerStat>): nat {
    FeeFraction(snap.value, Sum(ms, FeeNumIn(snap)), TotalOf(snap))
  }

  ghost function ShareLines(d: nat, works: map<string, nat>, kept: seq<Line>): seq<Line>
    requires kept != []
  {
    var scaled := ScaleAll(d, Sum(kept, WorkIn(works)), works, kept);
    Raise(scaled, FirstMax(scaled), SatSub(d, Sum(scaled, LineSats())))
  }

  ghost function CutLines(snap: Snapshot, ms: seq<MinerStat>, lines: seq<Line>): Tally
    requires snap.maxPayees > 0 && lines != []
  {
    var d, works := SatSub(snap.value, ExactFeeOf(snap, ms)), WorkMap(snap.identities);
    Tally(ShareLines(d, works, TopLines(snap, works, lines)), snap.value - d)
  }

  // Lines and room once the window pass and the cut are done.
  ghost function AuditStart(snap: Snapshot): Tally {
    var ms := Sort(snap.identities, MinerRank);
    var lines := AuditBase(snap, ScriptMap(snap.payees), TotalOf(snap), ms);
    if snap.maxPayees > 0 && lines != [] then CutLines(snap, ms, lines)
    else Tally(lines, snap.value - Sum(lines, LineSats()))
  }

  function PaidRank(c: Paid): Rank { Rank(0, c.identity) }

  function Verdict(snap: Snapshot, total: nat, y: Tally): Report {
    Report(
      (if total != snap.totalWork then [TotalWorkDiffers] else [])
      + (if !SameAmounts(y.lines, snap.payees) then [SplitDiffers] else [])
      + (if y.room != snap.poolSats then [PoolDiffers] else []),
      y.lines, y.room)
  }

  ghost function AuditOf(snap: Snapshot): Report {
    Verdict(snap, TotalOf(snap),
            AuditCarry(snap, ScriptMap(snap.payees), AuditStart(snap), Sort(snap.carry, PaidRank)))
  }

  predicate SameAmounts(a: seq<Line>, b: seq<Line>) {
    |a| == |b| && forall i :: 0 <= i < |a| ==> a[i].identity == b[i].identity && a[i].sats == b[i].sats
  }
}
