// The durable ledger as values: what is in memory, what has been written to the
// append-only log, and why replaying a flushed log gives the memory back.
module LedgerBook {
  import opened Prelude
  import opened LittleEndian
  import opened WindowRows

  // ---- the 24-byte row --------------------------------------------------------------

  const ROW_SIZE := 24

  function WriteRow(c: Credit): (r: seq<byte>)
    ensures |r| == ROW_SIZE
  {
    ToLe(c.ts, 4) + (ToLe(c.ident, 4) + (ToLe(c.work, 8) + (ToLe(c.height, 4) + [c.source, 0, 0, 0])))
  }

  function ReadRow(b: seq<byte>): Credit
    requires |b| == ROW_SIZE
  {
    Widths();
    var b4, b8, b16, b20 := b[4..], b[4..][4..], b[4..][4..][8..], b[4..][4..][8..][4..];
    Credit(Head(b, 4), Head(b4, 4), Head(b8, 8), Head(b16, 4), b20[0])
  }

  // Time, identity, work, height and source, lowest bytes first, and three zeros.
  lemma RowLayout(c: Credit)
    ensures var b := WriteRow(c);
            && |b| == 24
            && FromLe(b[0..4]) == c.ts && FromLe(b[4..8]) == c.ident && FromLe(b[8..16]) == c.work
            && FromLe(b[16..20]) == c.height && b[20] == c.source
            && b[21] == b[22] == b[23] == 0
  {
    Widths();
    FourFields(ToLe(c.ts, 4), ToLe(c.ident, 4), ToLe(c.work, 8), ToLe(c.height, 4), [c.source, 0, 0, 0]);
    LeRoundTrip(c.ts, 4);
    LeRoundTrip(c.ident, 4);
    LeRoundTrip(c.work, 8);
    LeRoundTrip(c.height, 4);
  }

  lemma FourFields(f0: seq<byte>, f4: seq<byte>, f8: seq<byte>, f16: seq<byte>, f20: seq<byte>)
    requires |f0| == 4 && |f4| == 4 && |f8| == 8 && |f16| == 4 && |f20| == 4
    ensures var b := f0 + (f4 + (f8 + (f16 + f20)));
            && |b| == 24 && b[0..4] == f0 && b[4..8] == f4 && b[8..16] == f8 && b[16..20] == f16
            && b[20] == f20[0] && b[21] == f20[1] && b[22] == f20[2] && b[23] == f20[3]
  {
  }

  lemma RowRoundTrip(c: Credit)
    ensures ReadRow(WriteRow(c)) == c
  {
    Widths();
    var t20 := [c.source, 0, 0, 0];
    var t16 := ToLe(c.height, 4) + t20;
    var t8 := ToLe(c.work, 8) + t16;
    var t4 := ToLe(c.ident, 4) + t8;
    HeadOfWritten(c.ts, 4, t4);
    HeadOfWritten(c.ident, 4, t8);
    HeadOfWritten(c.work, 8, t16);
    HeadOfWritten(c.height, 4, t20);
  }

  function WriteRows(rows: seq<Credit>): seq<byte> {
    Flatten(rows, WriteRow)
  }

  function ReadRows(b: seq<byte>): (r: seq<Credit>)
    ensures |r| == |Chunks(b, ROW_SIZE)|
  {
    var chunks := Chunks(b, ROW_SIZE);
    seq(|chunks|, i requires 0 <= i < |chunks| => ReadRow(chunks[i]))
  }

  // Replaying the file gives back every row, in order, whatever is torn at its end.
  lemma RowsRoundTrip(rows: seq<Credit>, torn: seq<byte>)
    requires |torn| < ROW_SIZE
    ensures ReadRows(WriteRows(rows) + torn) == rows
  {
    ChunksOfFlatten(rows, WriteRow, ROW_SIZE, torn);
    var back := ReadRows(WriteRows(rows) + torn);
    forall i | 0 <= i < |rows| ensures back[i] == rows[i] {
      RowRoundTrip(rows[i]);
    }
  }

  // ---- memory and log ---------------------------------------------------------------

  datatype View = View(idents: seq<string>, rows: seq<Credit>, target: u64, shares: nat, work: u64)

  datatype Meta = Meta(target: u64, shares: nat, work: u64)

  // `disk` is everything written to the log since it was last rewritten, flushed or not.
  datatype Book = Book(view: View, disk: seq<Credit>, saved: Meta, dirty: bool)

  function MetaOf(v: View): Meta { Meta(v.target, v.shares, v.work) }

  const COMPACT_SLACK := 8192

  function IndexOf(idents: seq<string>, id: string): (i: nat)
    ensures i <= |idents|
    ensures i < |idents| ==> idents[i] == id
    ensures i == |idents| ==> id !in idents
  {
    if idents == [] then 0
    else if idents[0] == id then 0
    else 1 + IndexOf(idents[1..], id)
  }

  function WithIdent(idents: seq<string>, id: string): seq<string> {
    if id in idents then idents else idents + [id]
  }

  ghost function Credited(b: Book, id: string, work: u64, height: u32, ts: u32, source: byte): Book
    requires |b.view.idents| <= U32_MAX
  {
    var v := b.view;
    var c := Credit(ts, IndexOf(v.idents, id), work, height, source);
    Book(View(WithIdent(v.idents, id), Trim(v.rows + [c], v.target), v.target, v.shares + 1, SatAdd(v.work, work)),
         b.disk + [c], b.saved, true)
  }

  ghost function Retargeted(b: Book, target: u64): Book {
    if b.view.target == target then b
    else b.(view := b.view.(rows := Trim(b.view.rows, target), target := target), dirty := true)
  }

  function Compacted(b: Book): Book {
    b.(disk := b.view.rows)
  }

  function Flushed(b: Book): Book {
    if !b.dirty then b
    else
      var f := b.(saved := MetaOf(b.view), dirty := false);
      if |f.disk| > |f.view.rows| + COMPACT_SLACK then Compacted(f) else f
  }

  function Persisted(b: Book): Book {
    var f := Flushed(b);
    if |f.disk| != |f.view.rows| then Compacted(f) else f
  }

  // ---- reopening --------------------------------------------------------------------

  function Known(idents: seq<string>, rows: seq<Credit>): seq<Credit> {
    if rows == [] then []
    else Known(idents, rows[..|rows| - 1])
         + if rows[|rows| - 1].ident < |idents| then [rows[|rows| - 1]] else []
  }

  function InternAll(lines: seq<string>): (r: seq<string>)
    ensures |r| <= |lines|
  {
    if lines == [] then []
    else
      var init, line := InternAll(lines[..|lines| - 1]), lines[|lines| - 1];
      if line == "" then init else WithIdent(init, line)
  }

  // What `open` builds from the three files.
  ghost function Reopened(lines: seq<string>, file: seq<byte>, meta: Meta): Book {
    Replayed(lines, ReadRows(file), meta)
  }

  ghost function Replayed(lines: seq<string>, stored: seq<Credit>, meta: Meta): Book {
    var idents := InternAll(lines);
    var rows := Known(idents, stored);
    var b := Book(View(idents, Trim(rows, meta.target), meta.target, meta.shares, meta.work), rows, meta, false);
    if |rows| > |b.view.rows| + COMPACT_SLACK then Compacted(b) else b
  }

  // ---- the invariant ----------------------------------------------------------------

  ghost predicate NamesOk(idents: seq<string>) {
    && (forall i :: 0 <= i < |idents| ==> idents[i] != "")
    && (forall i, j :: 0 <= i < j < |idents| ==> idents[i] != idents[j])
  }

  // The window is what a replay of the log under the current target would give, and a
  // clean book has its target and lifetime figures saved.
  ghost predicate InSync(b: Book) {
    && NamesOk(b.view.idents)
    && (forall k :: 0 <= k < |b.disk| ==> b.disk[k].ident < |b.view.idents|)
    && Trim(b.disk, b.view.target) == b.view.rows
    && (!b.dirty ==> b.saved == MetaOf(b.view))
  }

  lemma {:induction false} InternAllOk(lines: seq<string>)
    requires NamesOk(lines)
    ensures InternAll(lines) == lines
  {
    if lines != [] {
      InternAllOk(lines[..|lines| - 1]);
    }
  }

  lemma {:induction false} KnownAll(idents: seq<string>, rows: seq<Credit>)
    requires forall k :: 0 <= k < |rows| ==> rows[k].ident < |idents|
    ensures Known(idents, rows) == rows
  {
    if rows != [] {
      KnownAll(idents, rows[..|rows| - 1]);
    }
  }

  // Reopening a flushed ledger gives the live window: rows, target, identities with
  // their indices, and lifetime figures.
  lemma ReopenRestores(b: Book, torn: seq<byte>)
    requires InSync(b) && !b.dirty && |torn| < ROW_SIZE
    ensures Reopened(b.view.idents, WriteRows(b.disk) + torn, b.saved).view == b.view
    ensures InSync(Reopened(b.view.idents, WriteRows(b.disk) + torn, b.saved))
  {
    InternAllOk(b.view.idents);
    RowsRoundTrip(b.disk, torn);
    KnownAll(b.view.idents, b.disk);
    TrimTwice(b.disk, b.view.target);
    TrimIsSuffix(b.disk, b.view.target);
  }

  lemma TrimTwice(rows: seq<Credit>, target: nat)
    ensures Trim(Trim(rows, target), target) == Trim(rows, target)
  {
    TrimAbsorbs(rows, target, Max(target, 1));
  }

  // ---- every operation keeps it -----------------------------------------------------

  lemma CreditKeepsSync(b: Book, id: string, work: u64, height: u32, ts: u32, source: byte)
    requires InSync(b) && |b.view.idents| <= U32_MAX && id != ""
    ensures InSync(Credited(b, id, work, height, ts, source))
  {
    var c := Credit(ts, IndexOf(b.view.idents, id), work, height, source);
    TrimPushTrim(b.disk, c, b.view.target);
  }

  // A credit logs one row with the share's own time, work, height and source, under the
  // number its name has or is given, and counts it for the lifetime figures.
  lemma CreditedByFields(b: Book, id: string, work: u64, height: u32, ts: u32, source: byte)
    requires NamesOk(b.view.idents) && |b.view.idents| <= U32_MAX
    ensures var after := Credited(b, id, work, height, ts, source);
            var n, idents := |b.disk|, b.view.idents;
            && after.dirty && after.saved == b.saved
            && after.view.target == b.view.target && after.view.shares == b.view.shares + 1
            && after.view.work == (if b.view.work + work <= U64_MAX then b.view.work + work else U64_MAX)
            && |after.disk| == n + 1 && after.disk[..n] == b.disk
            && var row := after.disk[n];
               && row.ts == ts && row.work == work && row.height == height && row.source == source
               && (forall i :: 0 <= i < |idents| && idents[i] == id ==> row.ident == i)
               && (id !in idents ==> row.ident == |idents|)
               && after.view.idents == (if id in idents then idents else idents + [id])
               && after.view.rows == Trim(b.view.rows + [row], b.view.target)
  {
  }

  // A raise is a higher target, or none where there was one.
  predicate Raises(from: u64, to: u64) {
    from != 0 && (to == 0 || to > from)
  }

  lemma LoweringKeepsSync(b: Book, target: u64)
    requires InSync(b) && !Raises(b.view.target, target)
    ensures InSync(Retargeted(b, target))
  {
    if b.view.target != target {
      if target != 0 {
        TrimAbsorbs(b.disk, b.view.target, target);
      }
    }
  }

  lemma FlushKeepsSync(b: Book)
    requires InSync(b)
    ensures InSync(Flushed(b)) && InSync(Persisted(b)) && InSync(Compacted(b))
    ensures !Flushed(b).dirty && !Persisted(b).dirty
    ensures Flushed(b).view == Persisted(b).view == b.view
  {
    TrimTwice(b.disk, b.view.target);
    TrimIsSuffix(b.disk, b.view.target);
  }

  // Log and window agree once the log is the window.
  ghost predicate LogIsWindow(b: Book) {
    && NamesOk(b.view.idents)
    && b.disk == b.view.rows
    && (forall k :: 0 <= k < |b.disk| ==> b.disk[k].ident < |b.view.idents|)
    && Trim(b.view.rows, b.view.target) == b.view.rows
    && (!b.dirty ==> b.saved == MetaOf(b.view))
  }

  // A window that is a suffix of the log, whatever its target: persisting it makes the
  // log the window.
  lemma PersistSettles(b: Book)
    requires NamesOk(b.view.idents) && IsSuffix(b.view.rows, b.disk)
    requires forall k :: 0 <= k < |b.disk| ==> b.disk[k].ident < |b.view.idents|
    requires Trim(b.view.rows, b.view.target) == b.view.rows
    requires !b.dirty ==> b.saved == MetaOf(b.view)
    ensures LogIsWindow(Persisted(b)) && !Persisted(b).dirty
  {
    var f := Flushed(b);
    if |f.disk| == |f.view.rows| {
      assert f.disk == f.view.rows;
    }
  }

  ghost predicate IsSuffix(w: seq<Credit>, rows: seq<Credit>) {
    |w| <= |rows| && w == rows[|rows| - |w|..]
  }

  lemma SuffixTransitive(a: seq<Credit>, b: seq<Credit>, c: seq<Credit>)
    requires IsSuffix(a, b) && IsSuffix(b, c)
    ensures IsSuffix(a, c)
  {
  }

  lemma RetargetKeepsSuffix(b: Book, target: u64)
    requires InSync(b)
    ensures var r := Retargeted(b, target);
            IsSuffix(r.view.rows, r.disk) && Trim(r.view.rows, r.view.target) == r.view.rows
  {
    TrimmedTwiceIsSuffix(b.disk, b.view.target, target);
    TrimTwice(b.disk, b.view.target);
    TrimTwice(b.view.rows, target);
  }

  lemma TrimmedTwiceIsSuffix(rows: seq<Credit>, a: nat, b: nat)
    ensures IsSuffix(Trim(rows, a), rows)
    ensures IsSuffix(Trim(Trim(rows, a), b), rows)
  {
    TrimIsSuffix(rows, a);
    TrimIsSuffix(Trim(rows, a), b);
    SuffixTransitive(Trim(Trim(rows, a), b), Trim(rows, a), rows);
  }

  // After a raise the log may hold rows the window has lost for good, so the window is
  // only restored by making the log the window: this is why a raise must be persisted.
  lemma RaisePersistedInSync(b: Book, target: u64)
    requires InSync(b)
    ensures InSync(Persisted(Retargeted(b, target)))
    ensures !Persisted(Retargeted(b, target)).dirty
  {
    var r := Retargeted(b, target);
    RetargetKeepsSuffix(b, target);
    PersistSettles(r);
  }

  // Can the window answer a raise by itself? Only if the log holds no more rows than it
  // does, or its work already reaches the new target.
  ghost predicate AnswersRaise(b: Book, target: u64) {
    |b.disk| == |b.view.rows| || (target > 0 && Sum(b.view.rows, RowWork()) >= target)
  }

  lemma RaiseKeepsRows(b: Book, target: u64)
    requires InSync(b) && Raises(b.view.target, target)
    ensures Retargeted(b, target).view.rows == b.view.rows
    ensures Trim(b.disk, target) == b.view.rows <==> AnswersRaise(b, target)
  {
    TrimAtHigher(b.disk, b.view.target, target);
    if target != 0 {
      TrimKeptByHigher(b.disk, b.view.target, target);
    }
  }

  // Without persisting, log and window stay in step exactly when the caller, looking at
  // the row counts and the total work before the raise, finds that the window answers it.
  lemma UnpersistedRaise(b: Book, target: u64)
    requires InSync(b) && Raises(b.view.target, target)
    ensures InSync(Retargeted(b, target)) <==> AnswersRaise(b, target)
  {
    RaiseKeepsRows(b, target);
  }

  // A restart after a flush then loads the live window exactly in that case, or when the
  // log was long enough to be rewritten by the flush itself.
  lemma UnpersistedRaiseReplays(b: Book, target: u64, torn: seq<byte>)
    requires InSync(b) && Raises(b.view.target, target) && |torn| < ROW_SIZE
    ensures var f := Flushed(Retargeted(b, target));
            Reopened(f.view.idents, WriteRows(f.disk) + torn, f.saved).view.rows == f.view.rows
            <==> AnswersRaise(b, target) || |b.disk| > |b.view.rows| + 8192
  {
    var r := Retargeted(b, target);
    RaiseKeepsRows(b, target);
    if |b.disk| > |b.view.rows| + COMPACT_SLACK {
      RaisedWindowStands(b, target);
      ReplaysTo(Flushed(r), torn);
    } else {
      ReplaysTo(Flushed(r), torn);
    }
  }

  lemma RaisedWindowStands(b: Book, target: u64)
    requires InSync(b) && Raises(b.view.target, target)
    ensures Trim(b.view.rows, target) == b.view.rows
    ensures forall k :: 0 <= k < |b.view.rows| ==> b.view.rows[k].ident < |b.view.idents|
  {
    RaiseKeepsRows(b, target);
    TrimIsSuffix(b.disk, b.view.target);
  }

  // What the three files of a clean book replay to.
  lemma ReplaysTo(b: Book, torn: seq<byte>)
    requires NamesOk(b.view.idents) && |torn| < ROW_SIZE
    requires forall k :: 0 <= k < |b.disk| ==> b.disk[k].ident < |b.view.idents|
    ensures Reopened(b.view.idents, WriteRows(b.disk) + torn, b.saved).view.rows == Trim(b.disk, b.saved.target)
  {
    InternAllOk(b.view.idents);
    RowsRoundTrip(b.disk, torn);
    KnownAll(b.view.idents, b.disk);
  }

  // Two rows in the log, the second alone in the window: raising the target past it makes
  // a restart load both.
  lemma RaiseBringsRowBack(older: Credit, newer: Credit, low: u64, high: u64, name: string, torn: seq<byte>)
    requires older.ident == 0 && newer.ident == 0 && name != "" && |torn| < ROW_SIZE
    requires 0 < low <= newer.work < high
    ensures var b := Book(View([name], [newer], low, 2, 0), [older, newer], Meta(0, 0, 0), true);
            var f := Flushed(Retargeted(b, high));
            && InSync(b) && !InSync(Retargeted(b, high)) && f.view.rows == [newer]
            && Reopened(f.view.idents, WriteRows(f.disk) + torn, f.saved).view.rows == [older, newer]
  {
    var b := Book(View([name], [newer], low, 2, 0), [older, newer], Meta(0, 0, 0), true);
    assert [older, newer][1..] == [newer] && [newer][1..] == [];
    SumSnoc([], newer, RowWork());
    assert [] + [newer] == [newer];
    assert Trim([newer], low) == [newer];
    assert Trim(b.disk, low) == [newer];
    assert Trim(b.disk, high) == b.disk;
    UnpersistedRaise(b, high);
    RaiseKeepsRows(b, high);
    ReplaysTo(Flushed(Retargeted(b, high)), torn);
  }

  lemma {:induction false} TrimKeptByHigher(rows: seq<Credit>, low: nat, high: nat)
    requires 0 < low <= high
    ensures Trim(Trim(rows, low), high) == Trim(rows, low)
  {
    if rows != [] && Sum(rows[1..], RowWork()) >= low {
      TrimKeptByHigher(rows[1..], low, high);
    }
  }

  // ---- runs -------------------------------------------------------------------------

  datatype Op =
    | CreditOp(id: string, work: u64, height: u32, ts: u32, source: byte)
    | LowerTarget(target: u64)
    | MoveTarget(target: u64) // any change, persisted at once as the node poller does
    | FlushOp
    | PersistOp
    | CompactOp

  predicate Allowed(b: Book, op: Op) {
    match op
    case CreditOp(id, _, _, _, _) => id != "" && |b.view.idents| <= U32_MAX
    case LowerTarget(target) => !Raises(b.view.target, target)
    case _ => true
  }

  ghost function Apply(b: Book, op: Op): Book
    requires Allowed(b, op)
  {
    match op
    case CreditOp(id, work, height, ts, source) => Credited(b, id, work, height, ts, source)
    case LowerTarget(target) => Retargeted(b, target)
    case MoveTarget(target) => Persisted(Retargeted(b, target))
    case FlushOp => Flushed(b)
    case PersistOp => Persisted(b)
    case CompactOp => Compacted(b)
  }

  ghost predicate Reaches(b: Book, ops: seq<Op>, c: Book)
    decreases |ops|
  {
    if ops == [] then b == c
    else Allowed(b, ops[0]) && Reaches(Apply(b, ops[0]), ops[1..], c)
  }

  const EMPTY_BOOK := Book(View([], [], 0, 0, 0), [], Meta(0, 0, 0), false)

  lemma {:induction false} RunKeepsSync(b: Book, ops: seq<Op>, c: Book)
    requires InSync(b) && Reaches(b, ops, c)
    ensures InSync(c)
    decreases |ops|
  {
    if ops != [] {
      match ops[0] {
        case CreditOp(id, work, height, ts, source) => CreditKeepsSync(b, id, work, height, ts, source);
        case LowerTarget(target) => LoweringKeepsSync(b, target);
        case MoveTarget(target) => RaisePersistedInSync(b, target);
        case FlushOp => FlushKeepsSync(b);
        case PersistOp => FlushKeepsSync(b);
        case CompactOp => FlushKeepsSync(b);
      }
      RunKeepsSync(Apply(b, ops[0]), ops[1..], c);
    }
  }

  // After any run of credits, target changes, flushes and compactions from an empty
  // ledger, flushing and reopening gives the live window back.
  lemma ReplayRefinesLive(ops: seq<Op>, c: Book, torn: seq<byte>)
    requires Reaches(EMPTY_BOOK, ops, c) && |torn| < ROW_SIZE
    ensures var f := Flushed(c);
            && !f.dirty && f.view == c.view
            && Reopened(f.view.idents, WriteRows(f.disk) + torn, f.saved).view == c.view
  {
    RunKeepsSync(EMPTY_BOOK, ops, c);
    FlushKeepsSync(c);
    ReopenRestores(Flushed(c), torn);
  }
}
