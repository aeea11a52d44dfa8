// The durable ledger object: a window, two append-only files with write buffers, and a
// small meta file. Every method is tied to the operation on values in LedgerBook.
module Ledger {
  import opened Prelude
  import opened LittleEndian
  import opened WindowRows
  import opened ShareWindow
  import opened LedgerBook

  lemma {:induction false} IndexIsUnique(idents: seq<string>, id: string, i: nat)
    requires i < |idents| && idents[i] == id
    requires forall j, k :: 0 <= j < k < |idents| ==> idents[j] != idents[k]
    ensures IndexOf(idents, id) == i
  {
    if idents[0] != id {
      IndexIsUnique(idents[1..], id, i - 1);
    }
  }

  lemma {:induction false} KnownSum(idents: seq<string>, rows: seq<Credit>)
    ensures Sum(Known(idents, rows), RowWork()) <= Sum(rows, RowWork())
  {
    if rows != [] {
      var init, c := rows[..|rows| - 1], rows[|rows| - 1];
      KnownSum(idents, init);
      SumSnoc(Known(idents, init), c, RowWork());
      assert Known(idents, init) + [] == Known(idents, init);
    }
  }

  // The bytes of a log are its rows written one after another.
  ghost predicate Logged(bytes: seq<byte>, rows: seq<Credit>) {
    bytes == WriteRows(rows)
  }

  lemma OneMoreRow(file: seq<byte>, buf: seq<byte>, disk: seq<Credit>, row: Credit)
    ensures Logged(file + buf, disk) ==> Logged(file + (buf + WriteRow(row)), disk + [row])
  {
    OneMore(file, buf, disk, row, WriteRow);
  }

  lemma OneMore<T>(file: seq<byte>, buf: seq<byte>, xs: seq<T>, x: T, f: T -> seq<byte>)
    ensures file + buf == Flatten(xs, f) ==> file + (buf + f(x)) == Flatten(xs + [x], f)
  {
    FlattenSnoc(xs, x, f);
    assert file + (buf + f(x)) == (file + buf) + f(x);
  }

  class Ledger {
    const window: Window
    // Bytes the operating system has, and bytes still in the write buffer.
    var creditsFile: seq<byte>
    var creditsBuf: seq<byte>
    // Identity names, one per line.
    var identsFile: seq<string>
    var identsBuf: seq<string>
    var meta: Meta
    var rowsOnDisk: nat
    var dirty: bool
    ghost var disk: seq<Credit>

    ghost function BookOf(): Book
      reads this, window
    {
      Book(View(window.idents, window.credits, window.targetWork, window.lifetimeShares, window.lifetimeWork),
           disk, meta, dirty)
    }

    ghost predicate Valid()
      reads this, window
    {
      && window.Valid()
      && Logged(creditsFile + creditsBuf, disk)
      && rowsOnDisk == |disk|
      && identsFile + identsBuf == window.idents
      && (!dirty ==> creditsBuf == [] && identsBuf == [])
    }

    // Replay the three files.
    constructor Open(lines: seq<string>, file: seq<byte>, meta: Meta)
      requires |lines| <= U32_MAX + 1
      requires Sum(ReadRows(file), RowWork()) <= U64_MAX
      ensures fresh(window) && window.Valid()
      ensures BookOf() == Reopened(lines, file, meta)
      ensures NamesOk(lines) && Logged(file, Known(lines, ReadRows(file))) ==> Valid()
    {
      window := new Window();
      this.meta := meta;
      creditsFile, creditsBuf, identsFile, identsBuf := file, [], lines, [];
      rowsOnDisk, dirty, disk := 0, false, [];
      new;
      Load(lines, ReadRows(file));
      if NamesOk(lines) {
        InternAllOk(lines);
      }
    }

    method Load(lines: seq<string>, rows: seq<Credit>)
      requires window.Consistent() && window.idents == [] && window.credits == [] && rowsOnDisk == 0
      requires |lines| <= U32_MAX + 1 && Sum(rows, RowWork()) <= U64_MAX
      requires creditsBuf == [] && identsFile == lines && identsBuf == [] && !dirty
      modifies this`rowsOnDisk, this`disk, this`creditsFile, this`creditsBuf, window
      ensures window.Valid() && BookOf() == Replayed(lines, rows, meta)
      ensures InternAll(lines) == lines && Logged(old(creditsFile), Known(lines, rows)) ==> Valid()
    {
      Replay(lines, rows);
      disk := Known(window.idents, rows);
      assert creditsFile + creditsBuf == creditsFile && identsFile + identsBuf == identsFile;
      if rowsOnDisk > |window.credits| + COMPACT_SLACK {
        Compact();
      }
    }

    method Replay(lines: seq<string>, rows: seq<Credit>)
      requires window.Consistent() && window.idents == [] && window.credits == [] && rowsOnDisk == 0
      requires |lines| <= U32_MAX + 1 && Sum(rows, RowWork()) <= U64_MAX
      modifies this`rowsOnDisk, window
      ensures window.Valid()
      ensures window.idents == InternAll(lines) && rowsOnDisk == |Known(window.idents, rows)|
      ensures window.credits == Trim(Known(window.idents, rows), meta.target)
      ensures window.targetWork == meta.target
      ensures window.lifetimeShares == meta.shares && window.lifetimeWork == meta.work
    {
      window.lifetimeShares, window.lifetimeWork := meta.shares, meta.work;
      ReadIdents(lines);
      ReadCredits(rows);
      window.SetTarget(meta.target);
    }

    method ReadIdents(lines: seq<string>)
      requires window.Consistent() && window.idents == [] && window.credits == [] && |lines| <= U32_MAX + 1
      modifies window`idents, window`identIndex
      ensures window.Consistent() && window.idents == InternAll(lines)
    {
      for i := 0 to |lines|
        invariant window.Consistent() && window.idents == InternAll(lines[..i])
      {
        assert lines[..i + 1][..i] == lines[..i];
        if lines[i] != "" {
          var _ := window.Intern(lines[i]);
        }
      }
      assert lines[..|lines|] == lines;
    }

    method ReadCredits(rows: seq<Credit>)
      requires window.Consistent() && window.credits == [] && rowsOnDisk == 0
      requires Sum(rows, RowWork()) <= U64_MAX
      modifies this`rowsOnDisk, window`credits, window`totals, window`totalWork
      ensures window.Consistent() && window.credits == Known(window.idents, rows)
      ensures rowsOnDisk == |window.credits|
    {
      for i := 0 to |rows|
        invariant window.Consistent() && window.credits == Known(window.idents, rows[..i])
        invariant rowsOnDisk == |window.credits|
      {
        assert rows[..i + 1][..i] == rows[..i];
        KnownSum(window.idents, rows[..i]);
        SumPrefix(rows, i, RowWork());
        SumMonotone(rows, i + 1, RowWork());
        if rows[i].ident < |window.idents| {
          window.PushRaw(rows[i]);
          rowsOnDisk := rowsOnDisk + 1;
        }
      }
      assert rows[..|rows|] == rows;
    }

    // Record work as one appended row.
    method CreditWork(id: string, work: u64, height: u32, ts: u32, source: byte)
      requires Valid()
      requires |window.idents| <= U32_MAX && window.totalWork + work <= U64_MAX
      modifies this, window
      ensures Valid()
      ensures BookOf() == Credited(old(BookOf()), id, work, height, ts, source)
    {
      ghost var b := BookOf();
      var row := CreditInWindow(id, work, height, ts, source);
      assert window.credits == Trim(b.view.rows + [row], b.view.target);
      LogRow(row);
    }

    // The window's side of a credit, with a new identity also queued for its file.
    method CreditInWindow(id: string, work: u64, height: u32, ts: u32, source: byte) returns (row: Credit)
      requires window.Valid() && identsFile + identsBuf == window.idents
      requires |window.idents| <= U32_MAX && window.totalWork + work <= U64_MAX
      modifies this`identsBuf, window
      ensures window.Valid() && identsFile + identsBuf == window.idents
      ensures row == Credit(ts, IndexOf(old(window.idents), id), work, height, source)
      ensures window.idents == WithIdent(old(window.idents), id)
      ensures window.credits == Trim(old(window.credits) + [row], window.targetWork)
      ensures window.targetWork == old(window.targetWork)
      ensures window.lifetimeShares == old(window.lifetimeShares) + 1
      ensures window.lifetimeWork == SatAdd(old(window.lifetimeWork), work)
    {
      var known := id in window.identIndex;
      ghost var before := window.idents;
      row := window.CreditRow(id, work, height, ts, source);
      IndexAfter(before, window.idents, id, row.ident);
      if !known {
        identsBuf := identsBuf + [id];
      }
    }

    method LogRow(row: Credit)
      modifies this`creditsBuf, this`rowsOnDisk, this`dirty, this`disk
      ensures disk == old(disk) + [row] && rowsOnDisk == old(rowsOnDisk) + 1 && dirty
      ensures Logged(old(creditsFile + creditsBuf), old(disk)) ==> Logged(creditsFile + creditsBuf, disk)
    {
      OneMoreRow(creditsFile, creditsBuf, disk, row);
      creditsBuf := creditsBuf + WriteRow(row);
      disk := disk + [row];
      rowsOnDisk := rowsOnDisk + 1;
      dirty := true;
    }

    method SetTarget(target: u64)
      requires Valid()
      modifies this`dirty, window
      ensures Valid()
      ensures BookOf() == Retargeted(old(BookOf()), target)
    {
      if window.targetWork != target {
        window.SetTarget(target);
        dirty := true;
      }
    }

    // Push buffered rows out and write the meta file.
    method Flush()
      requires Valid()
      modifies this
      ensures Valid() && BookOf() == Flushed(old(BookOf()))
    {
      if !dirty {
        return;
      }
      identsFile, identsBuf := identsFile + identsBuf, [];
      creditsFile, creditsBuf := creditsFile + creditsBuf, [];
      meta := Meta(window.targetWork, window.lifetimeShares, window.lifetimeWork);
      dirty := false;
      if rowsOnDisk > |window.credits| + COMPACT_SLACK {
        Compact();
      }
    }

    method PersistWindow()
      requires Valid()
      modifies this
      ensures Valid() && BookOf() == Persisted(old(BookOf()))
    {
      Flush();
      if rowsOnDisk != |window.credits| {
        Compact();
      }
    }

    // Rewrite the credits file with only the rows still in the window.
    method Compact()
      modifies this`creditsFile, this`creditsBuf, this`rowsOnDisk, this`disk
      ensures old(Valid()) ==> Valid()
      ensures BookOf() == Compacted(old(BookOf()))
      ensures Logged(creditsFile, window.credits) && creditsBuf == [] && rowsOnDisk == |disk|
    {
      var out := WriteEach(window.credits, WriteRow);
      creditsFile, creditsBuf := out, [];
      rowsOnDisk := |window.credits|;
      disk := window.credits;
    }

    // The node poller's step: any target change is persisted at once.
    method MoveTarget(target: u64)
      requires Valid()
      modifies this, window
      ensures Valid()
      ensures InSync(old(BookOf())) && target != old(window.targetWork) ==>
                BookOf() == Persisted(Retargeted(old(BookOf()), target)) && InSync(BookOf())
      ensures target == old(window.targetWork) ==> BookOf() == old(BookOf())
    {
      ghost var before := BookOf();
      if window.targetWork != target {
        SetTarget(target);
        PersistWindow();
        if InSync(before) {
          RaisePersistedInSync(before, target);
        }
      }
    }
  }

  lemma IndexAfter(before: seq<string>, after: seq<string>, id: string, i: u32)
    requires after == WithIdent(before, id) && i < |after| && after[i] == id
    requires forall j, k :: 0 <= j < k < |after| ==> after[j] != after[k]
    ensures IndexOf(before, id) == i
  {
    if id in before {
      IndexIsUnique(before, id, i);
    } else {
      var n := |before|;
      assert after[n] == id;
    }
  }

  // A flushed ledger that is in sync, closed and opened again, is the same ledger.
  method CloseAndReopen(l: Ledger) returns (again: Ledger)
    requires l.Valid() && InSync(l.BookOf()) && !l.dirty
    requires Sum(l.disk, RowWork()) <= U64_MAX
    ensures fresh(again) && fresh(again.window)
    ensures again.window.Valid()
    ensures again.window.idents == l.window.idents && again.window.credits == l.window.credits
    ensures again.window.totalWork == l.window.totalWork && again.window.targetWork == l.window.targetWork
    ensures forall i: u32 :: (i in again.window.totals <==> i in l.window.totals)
              && (i in l.window.totals ==>
                    again.window.totals[i].work == l.window.totals[i].work
                    && again.window.totals[i].rows == l.window.totals[i].rows)
  {
    assert l.creditsFile + [] == l.creditsFile && l.identsFile + [] == l.identsFile;
    assert WriteRows(l.disk) + [] == WriteRows(l.disk);
    RowsRoundTrip(l.disk, []);
    ReopenRestores(l.BookOf(), []);
    again := new Ledger.Open(l.identsFile, l.creditsFile, l.meta);
  }
}
