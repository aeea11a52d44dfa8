// `miners()`: the window as a ranked list. It discharges what every split assumes of its
// input: unique names, rank order, and a total that is the sum of the rows.
module WindowListing {
  import opened Prelude
  import opened Ranking
  import opened Split
  import opened WindowRows
  import opened ShareWindow

  // m is the listing of identity number i.
  ghost predicate Entry(m: MinerStat, idents: seq<string>, rows: seq<Credit>, i: u32) {
    && i < |idents| && m.identity == idents[i]
    && Sum(rows, RowBy(i)) > 0
    && m.work == Sum(rows, WorkBy(i))
    && m.stratumWork == Sum(rows, StratumBy(i)) <= m.work
  }

  // Exactly the identities with at least one row are listed.
  ghost predicate Lists(v: seq<MinerStat>, idents: seq<string>, rows: seq<Credit>) {
    && (forall m :: m in v ==> exists i: u32 :: Entry(m, idents, rows, i))
    && (forall i: u32 :: Sum(rows, RowBy(i)) > 0 ==> exists m :: m in v && Entry(m, idents, rows, i))
  }

  lemma {:induction false} StratumWithinWork(rows: seq<Credit>, i: u32)
    ensures Sum(rows, StratumBy(i)) <= Sum(rows, WorkBy(i))
  {
    if rows != [] {
      StratumWithinWork(rows[..|rows| - 1], i);
    }
  }

  // ---- sums over a set of identities ------------------------------------------------

  ghost function WorkAmong(ids: set<u32>): Credit -> nat {
    (c: Credit) => if c.ident in ids then c.work else 0
  }

  lemma {:induction false} WorkAmongAdds(rows: seq<Credit>, ids: set<u32>, i: u32)
    requires i !in ids
    ensures Sum(rows, WorkAmong(ids + {i})) == Sum(rows, WorkAmong(ids)) + Sum(rows, WorkBy(i))
  {
    if rows != [] {
      WorkAmongAdds(rows[..|rows| - 1], ids, i);
    }
  }

  lemma {:induction false} WorkAmongNone(rows: seq<Credit>)
    ensures Sum(rows, WorkAmong({})) == 0
  {
    if rows != [] {
      WorkAmongNone(rows[..|rows| - 1]);
    }
  }

  lemma WorkAmongAll(rows: seq<Credit>, ids: set<u32>)
    requires forall i: u32 :: Sum(rows, RowBy(i)) > 0 ==> i in ids
    ensures Sum(rows, WorkAmong(ids)) == Sum(rows, RowWork())
  {
    forall k | 0 <= k < |rows| ensures WorkAmong(ids)(rows[k]) == RowWork()(rows[k]) {
      SumAtLeastMember(rows, k, RowBy(rows[k].ident));
    }
    SumAgrees(rows, rows, WorkAmong(ids), RowWork());
  }

  // ---- names are unique however the list is sorted ----------------------------------

  ghost function NameIs(id: string): MinerStat -> nat {
    (m: MinerStat) => if m.identity == id then 1 else 0
  }

  lemma {:induction false} UniqueCounts(ms: seq<MinerStat>, id: string)
    requires UniqueMiners(ms)
    ensures Sum(ms, NameIs(id)) <= 1
    ensures Sum(ms, NameIs(id)) > 0 ==> exists k :: 0 <= k < |ms| && ms[k].identity == id
  {
    if ms != [] {
      UniqueCounts(ms[..|ms| - 1], id);
      if Sum(ms[..|ms| - 1], NameIs(id)) > 0 {
        var k :| 0 <= k < |ms| - 1 && ms[k].identity == id;
      }
    }
  }

  lemma CountsUnique(ms: seq<MinerStat>, i: nat, j: nat)
    requires i < j < |ms| && ms[i].identity == ms[j].identity
    ensures Sum(ms, NameIs(ms[i].identity)) >= 2
  {
    var f := NameIs(ms[i].identity);
    SumMonotone(ms, j + 1, f);
    SumPrefix(ms, j, f);
    SumAtLeastMember(ms[..j], i, f);
  }

  lemma SortKeepsUnique(ms: seq<MinerStat>)
    requires UniqueMiners(ms)
    ensures UniqueMiners(Sort(ms, MinerRank)) && Ranked(Sort(ms, MinerRank), MinerRank)
  {
    SortRanked(ms, MinerRank);
    var v := Sort(ms, MinerRank);
    forall i, j | 0 <= i < j < |v| ensures v[i].identity != v[j].identity {
      if v[i].identity == v[j].identity {
        CountsUnique(v, i, j);
        UniqueCounts(ms, v[i].identity);
        SortSum(ms, MinerRank, NameIs(v[i].identity));
      }
    }
  }

  lemma SortKeepsListing(v: seq<MinerStat>, idents: seq<string>, rows: seq<Credit>)
    requires Lists(v, idents, rows)
    ensures Lists(Sort(v, MinerRank), idents, rows)
  {
    SortMultiset(v, MinerRank);
    forall m ensures m in Sort(v, MinerRank) <==> m in v {
      assert m in multiset(Sort(v, MinerRank)) <==> m in multiset(v);
    }
  }

  // ---- the listing ------------------------------------------------------------------

  function Held(m: map<u32, nat>, i: u32): nat {
    if i in m then m[i] else 0
  }

  method StratumWork(rows: seq<Credit>) returns (stratum: map<u32, nat>)
    ensures forall i: u32 :: Held(stratum, i) == Sum(rows, StratumBy(i))
  {
    stratum := map[];
    for k := 0 to |rows|
      invariant forall i: u32 :: Held(stratum, i) == Sum(rows[..k], StratumBy(i))
    {
      forall i: u32 ensures Sum(rows[..k + 1], StratumBy(i)) == Sum(rows[..k], StratumBy(i)) + StratumBy(i)(rows[k]) {
        SumPrefix(rows, k, StratumBy(i));
      }
      if rows[k].source == SOURCE_STRATUM {
        stratum := stratum[rows[k].ident := Held(stratum, rows[k].ident) + rows[k].work];
      }
    }
    assert rows[..|rows|] == rows;
  }

  // v lists the identities `order`, one entry each, in that order.
  ghost predicate Gathered(v: seq<MinerStat>, idents: seq<string>, rows: seq<Credit>, order: seq<u32>) {
    && |v| == |order|
    && (forall k :: 0 <= k < |v| ==> Entry(v[k], idents, rows, order[k]))
    && (forall j, k :: 0 <= j < k < |order| ==> order[j] != order[k])
  }

  ghost predicate DistinctNames(idents: seq<string>) {
    forall i, j :: 0 <= i < j < |idents| ==> idents[i] != idents[j]
  }

  lemma {:induction false} GatheredLists(v: seq<MinerStat>, idents: seq<string>, rows: seq<Credit>, order: seq<u32>)
    requires DistinctNames(idents) && Gathered(v, idents, rows, order)
    requires forall i: u32 :: Sum(rows, RowBy(i)) > 0 ==> i in order
    ensures Lists(v, idents, rows) && UniqueMiners(v)
  {
    forall m | m in v ensures exists i: u32 :: Entry(m, idents, rows, i) {
      var k :| 0 <= k < |v| && v[k] == m;
      assert Entry(m, idents, rows, order[k]);
    }
    forall i: u32 | Sum(rows, RowBy(i)) > 0 ensures exists m :: m in v && Entry(m, idents, rows, i) {
      var k :| 0 <= k < |order| && order[k] == i;
      assert v[k] in v && Entry(v[k], idents, rows, i);
    }
    forall j, k | 0 <= j < k < |v| ensures v[j].identity != v[k].identity {
      assert Entry(v[j], idents, rows, order[j]) && Entry(v[k], idents, rows, order[k]);
    }
  }

  lemma {:induction false} RowOfIdent(rows: seq<Credit>, i: u32) returns (k: nat)
    requires Sum(rows, RowBy(i)) > 0
    ensures k < |rows| && rows[k].ident == i
  {
    if rows[|rows| - 1].ident == i {
      k := |rows| - 1;
    } else {
      k := RowOfIdent(rows[..|rows| - 1], i);
    }
  }

  method Stat(w: Window, stratum: map<u32, nat>, i: u32) returns (m: MinerStat)
    requires w.Consistent() && i in w.totals
    requires Held(stratum, i) == Sum(w.credits, StratumBy(i))
    ensures Entry(m, w.idents, w.credits, i)
  {
    ghost var k := RowOfIdent(w.credits, i);
    StratumWithinWork(w.credits, i);
    m := MinerStat(w.idents[i], w.totals[i].work, Min(Held(stratum, i), w.totals[i].work));
  }

  lemma GatherSum(v: seq<MinerStat>, m: MinerStat, idents: seq<string>, rows: seq<Credit>,
                  keys: set<u32>, rest: set<u32>, i: u32)
    requires i in rest && rest <= keys && Entry(m, idents, rows, i)
    requires Sum(v, WorkOf()) == Sum(rows, WorkAmong(keys - rest))
    ensures Sum(v + [m], WorkOf()) == Sum(rows, WorkAmong(keys - (rest - {i})))
  {
    SumSnoc(v, m, WorkOf());
    WorkAmongAdds(rows, keys - rest, i);
    assert (keys - rest) + {i} == keys - (rest - {i});
  }

  // Some of the keys have been listed, in `order`; the rest have not.
  ghost predicate Gathering(v: seq<MinerStat>, idents: seq<string>, rows: seq<Credit>, order: seq<u32>,
                            keys: set<u32>, rest: set<u32>) {
    && rest <= keys
    && (forall i :: i in keys ==> i in rest || i in order)
    && (forall k :: 0 <= k < |order| ==> order[k] !in rest)
    && Gathered(v, idents, rows, order)
    && Sum(v, WorkOf()) == Sum(rows, WorkAmong(keys - rest))
  }

  lemma GatherStep(v: seq<MinerStat>, m: MinerStat, idents: seq<string>, rows: seq<Credit>, order: seq<u32>,
                   keys: set<u32>, rest: set<u32>, i: u32)
    requires Gathering(v, idents, rows, order, keys, rest) && i in rest && Entry(m, idents, rows, i)
    ensures Gathering(v + [m], idents, rows, order + [i], keys, rest - {i})
  {
    GatherSum(v, m, idents, rows, keys, rest, i);
    GatherOrder(order, keys, rest, i);
  }

  lemma GatherOrder(order: seq<u32>, keys: set<u32>, rest: set<u32>, i: u32)
    requires i in rest && forall j :: j in keys ==> j in rest || j in order
    ensures forall j :: j in keys ==> j in rest - {i} || j in order + [i]
  {
    forall j | j in keys ensures j in rest - {i} || j in order + [i] {
      if j == i {
        assert (order + [i])[|order|] == i;
      } else if j in order {
        var k :| 0 <= k < |order| && order[k] == j;
        assert (order + [i])[k] == j;
      }
    }
  }

  // The map is walked in whatever order it comes.
  method Gather(w: Window, stratum: map<u32, nat>) returns (v: seq<MinerStat>, ghost order: seq<u32>)
    requires w.Consistent()
    requires forall i: u32 :: Held(stratum, i) == Sum(w.credits, StratumBy(i))
    ensures Gathering(v, w.idents, w.credits, order, w.totals.Keys, {})
  {
    v, order := [], [];
    var rest := w.totals.Keys;
    WorkAmongNone(w.credits);
    assert w.totals.Keys - rest == {};
    while rest != {}
      invariant Gathering(v, w.idents, w.credits, order, w.totals.Keys, rest)
      decreases rest
    {
      var i :| i in rest;
      var m := Stat(w, stratum, i);
      GatherStep(v, m, w.idents, w.credits, order, w.totals.Keys, rest, i);
      v, order, rest := v + [m], order + [i], rest - {i};
    }
  }

  // Per-identity totals, largest first.
  method Miners(w: Window) returns (v: seq<MinerStat>)
    requires w.Valid()
    ensures Ranked(v, MinerRank) && UniqueMiners(v)
    ensures forall i, j :: 0 <= i < j < |v| ==>
              v[i].work > v[j].work || (v[i].work == v[j].work && StrLess(v[i].identity, v[j].identity))
    ensures Lists(v, w.idents, w.credits)
    ensures Sum(v, WorkOf()) == w.totalWork == Sum(w.credits, RowWork())
  {
    var stratum := StratumWork(w.credits);
    ghost var order;
    v, order := Gather(w, stratum);
    assert w.totals.Keys - {} == w.totals.Keys;
    GatheredLists(v, w.idents, w.credits, order);
    WorkAmongAll(w.credits, w.totals.Keys);
    SortKeepsUnique(v);
    SortKeepsListing(v, w.idents, w.credits);
    SortSum(v, MinerRank, WorkOf());
    v := Sort(v, MinerRank);
  }
}
