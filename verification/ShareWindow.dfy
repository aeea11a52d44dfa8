// The window object: identities interned once, rows appended and trimmed in place, the
// totals map edited entry by entry.
module ShareWindow {
  import opened Prelude
  import opened Ranking
  import opened Split
  import opened WindowRows

  // Per identity: work, rows, and the last time seen.
  datatype Total = Total(work: u64, rows: nat, lastTs: u32)

  // The totals map says of every identity exactly what its rows say.
  ghost predicate TotalsMatch(totals: map<u32, Total>, rows: seq<Credit>) {
    forall i: u32 ::
      && (i in totals <==> Sum(rows, RowBy(i)) > 0)
      && (i in totals ==> totals[i].work == Sum(rows, WorkBy(i)) && totals[i].rows == Sum(rows, RowBy(i)))
  }

  lemma {:induction false} RowlessWorkless(rows: seq<Credit>, i: u32)
    ensures Sum(rows, RowBy(i)) == 0 ==> Sum(rows, WorkBy(i)) == 0
    ensures Sum(rows, WorkBy(i)) <= Sum(rows, RowWork())
  {
    if rows != [] {
      RowlessWorkless(rows[..|rows| - 1], i);
    }
  }

  function EntryOr(totals: map<u32, Total>, i: u32): Total {
    if i in totals then totals[i] else Total(0, 0, 0)
  }

  lemma TotalsPush(totals: map<u32, Total>, rows: seq<Credit>, c: Credit, t: Total)
    requires TotalsMatch(totals, rows)
    requires t.work == EntryOr(totals, c.ident).work + c.work && t.rows == EntryOr(totals, c.ident).rows + 1
    ensures TotalsMatch(totals[c.ident := t], rows + [c])
  {
    forall i: u32
      ensures Sum(rows + [c], RowBy(i)) == Sum(rows, RowBy(i)) + RowBy(i)(c)
      ensures Sum(rows + [c], WorkBy(i)) == Sum(rows, WorkBy(i)) + WorkBy(i)(c)
      ensures Sum(rows, RowBy(i)) == 0 ==> Sum(rows, WorkBy(i)) == 0
    {
      SumSnoc(rows, c, RowBy(i));
      SumSnoc(rows, c, WorkBy(i));
      RowlessWorkless(rows, i);
    }
  }

  // Adding work to the newest row changes its identity's work and nobody's row count.
  lemma TotalsRaise(totals: map<u32, Total>, rows: seq<Credit>, work: u64, t: Total)
    requires TotalsMatch(totals, rows) && rows != []
    requires rows[|rows| - 1].work + work <= U64_MAX
    requires var i := rows[|rows| - 1].ident;
             t.work == EntryOr(totals, i).work + work && t.rows == EntryOr(totals, i).rows
    ensures var tail := rows[|rows| - 1];
            TotalsMatch(totals[tail.ident := t], rows[..|rows| - 1] + [tail.(work := tail.work + work)])
  {
    var init, tail := rows[..|rows| - 1], rows[|rows| - 1];
    var tail' := tail.(work := tail.work + work);
    forall i: u32
      ensures Sum(init + [tail'], RowBy(i)) == Sum(rows, RowBy(i))
      ensures Sum(init + [tail'], WorkBy(i)) == Sum(rows, WorkBy(i)) + if i == tail.ident then work else 0
    {
      SumSnoc(init, tail', RowBy(i));
      SumSnoc(init, tail', WorkBy(i));
    }
  }

  // Dropping the oldest row: the entry is reduced, or goes with its last row.
  lemma TotalsPop(totals: map<u32, Total>, rows: seq<Credit>, totals': map<u32, Total>)
    requires TotalsMatch(totals, rows) && rows != []
    requires var c := rows[0];
             && c.ident in totals && c.work <= totals[c.ident].work && totals[c.ident].rows >= 1
             && var t := totals[c.ident];
                totals' == if t.rows == 1 then totals - {c.ident}
                           else totals[c.ident := Total(t.work - c.work, t.rows - 1, t.lastTs)]
    ensures TotalsMatch(totals', rows[1..])
  {
    var c := rows[0];
    forall i: u32
      ensures Sum(rows, RowBy(i)) == RowBy(i)(c) + Sum(rows[1..], RowBy(i))
      ensures Sum(rows, WorkBy(i)) == WorkBy(i)(c) + Sum(rows[1..], WorkBy(i))
    {
      assert rows == [c] + rows[1..];
      SumCons(c, rows[1..], RowBy(i));
      SumCons(c, rows[1..], WorkBy(i));
    }
  }

  lemma FrontIsTotalled(totals: map<u32, Total>, rows: seq<Credit>)
    requires TotalsMatch(totals, rows) && rows != []
    ensures rows[0].ident in totals && rows[0].work <= totals[rows[0].ident].work
    ensures totals[rows[0].ident].rows >= 1
    ensures rows[0].work <= Sum(rows, RowWork())
    ensures Sum(rows[1..], RowWork()) == Sum(rows, RowWork()) - rows[0].work
  {
    var i := rows[0].ident;
    SumAtLeastMember(rows, 0, RowBy(i));
    SumAtLeastMember(rows, 0, WorkBy(i));
    SumTail(rows);
  }

  ghost predicate Interned(idents: seq<string>, index: map<string, u32>) {
    && |idents| <= U32_MAX + 1
    && (forall i :: 0 <= i < |idents| ==> idents[i] in index && index[idents[i]] == i)
    && (forall id :: id in index ==> index[id] < |idents| && idents[index[id]] == id)
  }

  ghost predicate KnownRows(idents: seq<string>, rows: seq<Credit>) {
    forall k :: 0 <= k < |rows| ==> rows[k].ident < |idents|
  }

  class Window {
    var idents: seq<string>
    var identIndex: map<string, u32>
    var credits: seq<Credit>
    var totals: map<u32, Total>
    var totalWork: u64
    var targetWork: u64
    var lifetimeShares: nat
    var lifetimeWork: u64

    // Everything but being trimmed, which push_raw leaves for later.
    ghost predicate Consistent()
      reads this
    {
      && Interned(idents, identIndex)
      && KnownRows(idents, credits)
      && totalWork == Sum(credits, RowWork())
      && TotalsMatch(totals, credits)
    }

    ghost predicate Valid()
      reads this
    {
      Consistent() && Trim(credits, targetWork) == credits
    }

    constructor ()
      ensures Valid()
      ensures idents == [] && credits == [] && targetWork == 0 && lifetimeShares == 0 && lifetimeWork == 0
    {
      idents, identIndex, credits, totals := [], map[], [], map[];
      totalWork, targetWork, lifetimeShares, lifetimeWork := 0, 0, 0, 0;
    }

    method Intern(id: string) returns (i: u32)
      requires Consistent()
      requires |idents| <= U32_MAX
      modifies this`idents, this`identIndex
      ensures Consistent()
      ensures idents == if id in old(idents) then old(idents) else old(idents) + [id]
      ensures i < |idents| && idents[i] == id
    {
      if id in identIndex {
        return identIndex[id];
      }
      i := |idents|;
      idents := idents + [id];
      identIndex := identIndex[id := i];
    }

    // Drop the oldest rows while the window still holds at least the target.
    method TrimRows()
      requires Consistent()
      modifies this`credits, this`totals, this`totalWork
      ensures Valid()
      ensures credits == Trim(old(credits), targetWork)
    {
      if targetWork == 0 {
        return;
      }
      while credits != []
        invariant Consistent()
        invariant Trim(credits, targetWork) == Trim(old(credits), targetWork)
        decreases |credits|
      {
        FrontIsTotalled(totals, credits);
        if totalWork - credits[0].work < targetWork {
          break;
        }
        PopFront();
      }
      TrimIdle(credits, targetWork);
    }

    method PopFront()
      requires Consistent() && credits != []
      modifies this`credits, this`totals, this`totalWork
      ensures Consistent()
      ensures credits == old(credits)[1..]
    {
      FrontIsTotalled(totals, credits);
      ghost var before, rows := totals, credits;
      var front := credits[0];
      credits := credits[1..];
      totalWork := totalWork - front.work;
      var t := totals[front.ident];
      if t.rows == 1 {
        totals := totals - {front.ident};
      } else {
        totals := totals[front.ident := Total(t.work - front.work, t.rows - 1, t.lastTs)];
      }
      TotalsPop(before, rows, totals);
    }

    method SetTarget(target: u64)
      requires Consistent()
      modifies this`targetWork, this`credits, this`totals, this`totalWork
      ensures Valid()
      ensures targetWork == target && credits == Trim(old(credits), target)
    {
      targetWork := target;
      TrimRows();
    }

    // Intern the identity and count the share for the lifetime figures.
    method Account(id: string, work: u64) returns (i: u32)
      requires Consistent()
      requires |idents| <= U32_MAX
      modifies this`idents, this`identIndex, this`lifetimeShares, this`lifetimeWork
      ensures Consistent()
      ensures idents == if id in old(idents) then old(idents) else old(idents) + [id]
      ensures i < |idents| && idents[i] == id
      ensures lifetimeShares == old(lifetimeShares) + 1 && lifetimeWork == SatAdd(old(lifetimeWork), work)
    {
      i := Intern(id);
      lifetimeShares := lifetimeShares + 1;
      lifetimeWork := SatAdd(lifetimeWork, work);
    }

    // Add work, merging into the newest row when it is for the same miner, second, height
    // and source. Returns the row as stored and whether it is a new one.
    method CreditShare(id: string, work: u64, height: u32, ts: u32, source: byte)
      returns (stored: Credit, appended: bool)
      requires Valid()
      requires |idents| <= U32_MAX && totalWork + work <= U64_MAX
      modifies this
      ensures Valid() && targetWork == old(targetWork)
      ensures idents == if id in old(idents) then old(idents) else old(idents) + [id]
      ensures stored.ident < |idents| && idents[stored.ident] == id
      ensures var c, rows := Credit(ts, stored.ident, work, height, source), old(credits);
              && credits == Trim(Coalesce(rows, c), targetWork)
              && stored == Coalesce(rows, c)[|Coalesce(rows, c)| - 1]
              && (appended <==> rows == [] || !Merges(rows[|rows| - 1], c))
      ensures lifetimeShares == old(lifetimeShares) + 1 && lifetimeWork == SatAdd(old(lifetimeWork), work)
    {
      var i := Account(id, work);
      stored, appended := AddTrimmed(Credit(ts, i, work, height, source));
    }

    method AddTrimmed(c: Credit) returns (stored: Credit, appended: bool)
      requires Consistent()
      requires c.ident < |idents| && totalWork + c.work <= U64_MAX
      modifies this`credits, this`totals, this`totalWork
      ensures Valid() && stored.ident == c.ident
      ensures var rows := old(credits);
              && credits == Trim(Coalesce(rows, c), targetWork)
              && stored == Coalesce(rows, c)[|Coalesce(rows, c)| - 1]
              && (appended <==> rows == [] || !Merges(rows[|rows| - 1], c))
    {
      stored, appended := AddMerging(c);
      TrimRows();
    }

    method AddMerging(c: Credit) returns (stored: Credit, appended: bool)
      requires Consistent()
      requires c.ident < |idents| && totalWork + c.work <= U64_MAX
      modifies this`credits, this`totals, this`totalWork
      ensures Consistent()
      ensures credits == Coalesce(old(credits), c) && stored == credits[|credits| - 1] && stored.ident == c.ident
      ensures appended <==> old(credits) == [] || !Merges(old(credits)[|old(credits)| - 1], c)
    {
      if credits != [] && Merges(credits[|credits| - 1], c) {
        MergeTail(c.work, c.ts);
        appended := false;
      } else {
        Append(c, c.ts);
        appended := true;
      }
      stored := credits[|credits| - 1];
    }

    // Add work as its own row.
    method CreditRow(id: string, work: u64, height: u32, ts: u32, source: byte) returns (c: Credit)
      requires Valid()
      requires |idents| <= U32_MAX && totalWork + work <= U64_MAX
      modifies this
      ensures Valid() && targetWork == old(targetWork)
      ensures idents == if id in old(idents) then old(idents) else old(idents) + [id]
      ensures c.ident < |idents| && idents[c.ident] == id
      ensures c == Credit(ts, c.ident, work, height, source)
      ensures credits == Trim(old(credits) + [c], targetWork)
      ensures lifetimeShares == old(lifetimeShares) + 1 && lifetimeWork == SatAdd(old(lifetimeWork), work)
    {
      var i := Account(id, work);
      c := Credit(ts, i, work, height, source);
      Append(c, ts);
      TrimRows();
    }

    // Replay a stored row: no coalescing, no lifetime accounting, no trimming.
    method PushRaw(c: Credit)
      requires Consistent()
      requires c.ident < |idents| && totalWork + c.work <= U64_MAX
      modifies this`credits, this`totals, this`totalWork
      ensures Consistent()
      ensures credits == old(credits) + [c]
    {
      Append(c, Max(EntryOr(totals, c.ident).lastTs, c.ts));
    }

    method Append(c: Credit, lastTs: u32)
      requires Consistent()
      requires c.ident < |idents| && totalWork + c.work <= U64_MAX
      modifies this`credits, this`totals, this`totalWork
      ensures Consistent()
      ensures credits == old(credits) + [c]
    {
      RowlessWorkless(credits, c.ident);
      var e := EntryOr(totals, c.ident);
      var t := Total(e.work + c.work, e.rows + 1, lastTs);
      TotalsPush(totals, credits, c, t);
      SumSnoc(credits, c, RowWork());
      totals := totals[c.ident := t];
      credits := credits + [c];
      totalWork := totalWork + c.work;
    }

    method MergeTail(work: u64, ts: u32)
      requires Consistent()
      requires credits != [] && totalWork + work <= U64_MAX
      modifies this`credits, this`totals, this`totalWork
      ensures Consistent()
      ensures credits == Raised(old(credits), work)
    {
      var i := credits[|credits| - 1].ident;
      RaiseFits(totals, credits, work);
      var t := Total(totals[i].work + work, totals[i].rows, ts);
      TotalsRaise(totals, credits, work, t);
      totals := totals[i := t];
      credits := Raised(credits, work);
      totalWork := totalWork + work;
    }
  }

  // The newest row with `work` more.
  function Raised(rows: seq<Credit>, work: u64): (r: seq<Credit>)
    requires rows != []
    ensures |r| == |rows|
  {
    var tail := rows[|rows| - 1];
    rows[..|rows| - 1] + [tail.(work := SatAdd(tail.work, work))]
  }

  lemma RaiseFits(totals: map<u32, Total>, rows: seq<Credit>, work: u64)
    requires TotalsMatch(totals, rows) && rows != [] && Sum(rows, RowWork()) + work <= U64_MAX
    ensures var i := rows[|rows| - 1].ident;
            && i in totals && totals[i].work + work <= U64_MAX
            && rows[|rows| - 1].work + work <= U64_MAX
            && Sum(Raised(rows, work), RowWork()) == Sum(rows, RowWork()) + work
  {
    var tail := rows[|rows| - 1];
    SumAtLeastMember(rows, |rows| - 1, RowBy(tail.ident));
    SumAtLeastMember(rows, |rows| - 1, RowWork());
    RowlessWorkless(rows, tail.ident);
    SumSnoc(rows[..|rows| - 1], tail.(work := tail.work + work), RowWork());
  }

  lemma TrimIdle(rows: seq<Credit>, target: nat)
    requires rows == [] || target == 0 || Sum(rows[1..], RowWork()) < target
    ensures Trim(rows, target) == rows
  {
  }
}
