/** The full loads: `full_load_bom` (backup, truncate, windowed reload, restore
    on failure), `full_load_stock` and `full_load_stock_master` (truncate and
    reload), and the retrying `fetch_stock_lines` generator both stock loaders
    consume. The Firebird side is given as the outcome of each query; `None`
    stands for a query that raised after `fb_select_all` gave up. */
module FullLoad {
  import opened Wrappers
  import opened Seqs
  import opened Dates
  import opened Records
  import opened Tables
  import opened Backups

  /** The BOM queries: the header ids of a date window (`fetch_bom_hids`, and
      the `close_fb`/`ensure_fb` before it), the ids above a watermark
      (`fetch_bom_hids_since`) and the detail rows of one id
      (`fetch_bom_rows_by_hid`). */
  datatype BomSource = BomSource(
    windowHids: ((Date, Date)) -> Option<seq<int>>,
    hidsSince: int -> Option<seq<int>>,
    rowsByHid: int -> Option<seq<BomRow>>)

  /** A detail row as inserted: the insert names nine columns, so the colour
      is NULL. */
  function Loaded(row: BomRow): (r: BomRow)
    ensures r.materialColor.None? && r.hId == row.hId && r.materialName == row.materialName
  {
    row.(materialColor := None)
  }

  function LoadedAll(rows: seq<BomRow>): (rs: seq<BomRow>)
    ensures |rs| == |rows|
    ensures forall k :: 0 <= k < |rows| ==> rs[k] == Loaded(rows[k])
  {
    seq(|rows|, k requires 0 <= k < |rows| => Loaded(rows[k]))
  }

  /** What one id contributes: its detail rows, or nothing when the fetch
      raised (the error is logged and the loop goes on). */
  function HidRows(src: BomSource, hid: int): seq<BomRow> {
    match src.rowsByHid(hid)
    case None => []
    case Some(rows) => LoadedAll(rows)
  }

  /** What a list of ids contributes, in order. */
  function HidsRows(src: BomSource, hids: seq<int>): seq<BomRow> {
    if hids == [] then []
    else HidsRows(src, hids[..|hids| - 1]) + HidRows(src, hids[|hids| - 1])
  }

  /** The rows the window loop loads from `ws` on, and the window whose id
      fetch raised, if any; loading stops there. */
  function BomLoad(src: BomSource, ws: seq<(Date, Date)>): (r: (seq<BomRow>, Option<(Date, Date)>))
  {
    if ws == [] then ([], None)
    else match src.windowHids(ws[0])
      case None => ([], Some(ws[0]))
      case Some(hids) =>
        var rest := BomLoad(src, ws[1..]);
        (HidsRows(src, hids) + rest.0, rest.1)
  }

  /** A failed window is one of the windows, and every window before it
      loaded completely. */
  lemma {:induction false} BomLoadFailure(src: BomSource, ws: seq<(Date, Date)>)
    requires BomLoad(src, ws).1.Some?
    ensures exists k :: (0 <= k < |ws| && ws[k] == BomLoad(src, ws).1.value && src.windowHids(ws[k]).None?
                         && forall j :: 0 <= j < k ==> src.windowHids(ws[j]).Some?)
  {
    if src.windowHids(ws[0]).Some? {
      BomLoadFailure(src, ws[1..]);
      var k :| 0 <= k < |ws[1..]| && ws[1..][k] == BomLoad(src, ws[1..]).1.value && src.windowHids(ws[1..][k]).None?
        && forall j :: 0 <= j < k ==> src.windowHids(ws[1..][j]).Some?;
      assert ws[k + 1] == ws[1..][k];
      forall j | 0 <= j < k + 1 ensures src.windowHids(ws[j]).Some? {
        if j > 0 {
          assert ws[j] == ws[1..][j - 1];
        }
      }
    }
  }

  /** The body of one window: every id's rows through the buffer, then the
      final flush. */
  method LoadBomHids(table: Table<BomRow>, src: BomSource, hids: seq<int>, batchSize: int)
    requires table.Valid()
    modifies table
    ensures table.Valid() && table.nextId >= old(table.nextId)
    ensures table.Data() == old(table.Data()) + HidsRows(src, hids)
  {
    var batch: seq<BomRow> := [];
    var i := 0;
    while i < |hids|
      invariant 0 <= i <= |hids|
      invariant table.Valid() && table.nextId >= old(table.nextId) && |batch| < Cap(batchSize)
      invariant table.Data() + batch == old(table.Data()) + HidsRows(src, hids[..i])
    {
      assert hids[..i + 1][..i] == hids[..i];
      var fetched := src.rowsByHid(hids[i]);
      if fetched.Some? {
        var rows := fetched.value;
        ghost var before := table.Data() + batch;
        batch := table.PushAll(batch, LoadedAll(rows), batchSize);
        AppendAssoc(old(table.Data()), HidsRows(src, hids[..i]), HidRows(src, hids[i]));
      }
      i := i + 1;
    }
    assert hids[..i] == hids;
    var _ := table.Flush(batch);
  }

  /** The window loop of `full_load_bom`. */
  method LoadBomWindows(table: Table<BomRow>, src: BomSource, ws: seq<(Date, Date)>, batchSize: int)
    returns (failed: Option<(Date, Date)>)
    requires table.Valid()
    modifies table
    ensures table.Valid() && table.nextId >= old(table.nextId)
    ensures table.Data() == old(table.Data()) + BomLoad(src, ws).0
    ensures failed == BomLoad(src, ws).1
  {
    var i := 0;
    while i < |ws|
      invariant 0 <= i <= |ws|
      invariant table.Valid() && table.nextId >= old(table.nextId)
      invariant table.Data() + BomLoad(src, ws[i..]).0 == old(table.Data()) + BomLoad(src, ws).0
      invariant BomLoad(src, ws[i..]).1 == BomLoad(src, ws).1
    {
      assert ws[i..][1..] == ws[i + 1..];
      var hids := src.windowHids(ws[i]);
      if hids.None? {
        return Some(ws[i]);
      }
      ghost var mid := table.Data();
      LoadBomHids(table, src, hids.value, batchSize);
      AppendAssoc(mid, HidsRows(src, hids.value), BomLoad(src, ws[i + 1..]).0);
      i := i + 1;
    }
    return None;
  }

  /** What the reload of `full_load_bom` loads and how it fails: a date that
      does not parse fails at the first window, otherwise the windows load
      until one fails. */
  function BomReload(range: Option<(Date, Date)>, months: int, src: BomSource): (r: (seq<BomRow>, Option<SyncError>))
    requires months >= 1
    requires range.Some? ==> Valid(range.value.0) && Valid(range.value.1)
  {
    if range.None? then ([], Some(DateParseFailed))
    else
      var load := BomLoad(src, Windows(range.value.0, range.value.1, months));
      (load.0, if load.1.None? then None else Some(WindowFetchFailed(load.1.value)))
  }

  /** `full_load_bom(start, end, months)`. `range` is the parsed start and end
      (`None` when either does not parse, which surfaces only once the
      generator starts, after the truncate); `truncateFails` says whether
      `TRUNCATE` raises. On any failure after the backup, the backup (when one
      was taken) is restored and the original error is raised; a failing
      restore is logged and changes nothing about the error. */
  method FullLoadBom(table: Table<BomRow>, range: Option<(Date, Date)>, months: int, src: BomSource,
                     batchSize: int, plan: BackupPlan, truncateFails: bool, restore: RestoreOutcome)
    returns (r: Result<(), SyncError>)
    requires table.Valid() && months >= 1
    requires range.Some? ==> Valid(range.value.0) && Valid(range.value.1)
    modifies table
    ensures table.Valid()
    ensures Text.Strip(plan.dir) != [] && plan.copyFails ==> r == Err(BackupFailed) && table.rows == old(table.rows)
    ensures !(Text.Strip(plan.dir) != [] && plan.copyFails) ==>
      var snapshot := if Text.Strip(plan.dir) == [] then None else Some(old(table.Data()));
      if truncateFails then
        r == Err(TruncateFailed) && table.Data() == AfterFailure(snapshot, restore, old(table.Data()))
      else
        var reload := BomReload(range, months, src);
        if reload.1.None? then r == Ok(()) && table.Data() == reload.0
        else r == Err(reload.1.value) && table.Data() == AfterFailure(snapshot, restore, reload.0)
  {
    var backup, _ := BackupRawBom(table, plan);
    if backup.Err? {
      return Err(backup.error);
    }
    var snapshot := backup.value;
    var err: Option<SyncError> := None;
    if truncateFails {
      err := Some(TruncateFailed);
    } else {
      table.Truncate();
      if range.None? {
        err := Some(DateParseFailed);
      } else {
        var ws := IterWindows(range.value.0, range.value.1, months);
        var failed := LoadBomWindows(table, src, ws, batchSize);
        if failed.Some? {
          err := Some(WindowFetchFailed(failed.value));
        }
      }
    }
    if err.Some? {
      if snapshot.Some? {
        var _ := RestoreRawBom(table, snapshot.value, restore);
      }
      return Err(err.value);
    }
    return Ok(());
  }

  /** Every row a reload inserts has a NULL colour, since the insert names
      only nine columns. */
  lemma {:induction false} HidsRowsColourless(src: BomSource, hids: seq<int>)
    ensures forall row :: row in HidsRows(src, hids) ==> row.materialColor.None?
    decreases |hids|
  {
    if hids != [] {
      HidsRowsColourless(src, hids[..|hids| - 1]);
    }
  }

  lemma {:induction false} BomLoadColourless(src: BomSource, ws: seq<(Date, Date)>)
    ensures forall row :: row in BomLoad(src, ws).0 ==> row.materialColor.None?
    decreases |ws|
  {
    if ws != [] && src.windowHids(ws[0]).Some? {
      HidsRowsColourless(src, src.windowHids(ws[0]).value);
      BomLoadColourless(src, ws[1..]);
    }
  }

  // ---------------------------------------------------------------------------
  // Stock lines
  // ---------------------------------------------------------------------------

  /** One attempt of the line query: it yields some lines and then either
      finishes or raises (a failing `ensure_fb` raises before any line). */
  datatype LinesAttempt = Completed(lines: seq<StockLine>) | FailedAfter(lines: seq<StockLine>)

  /** What `fetch_stock_lines` yields from attempt `k` on, and whether it
      finishes normally. A failed attempt's lines stay yielded and the query
      restarts from the beginning, so they are yielded again. */
  function StockLinesFrom(k: int, retries: int, attempt: int -> LinesAttempt): (r: (seq<StockLine>, bool))
    decreases retries - k
  {
    if k > retries then ([], false)
    else match attempt(k)
      case Completed(ls) => (ls, true)
      case FailedAfter(ls) =>
        var rest := StockLinesFrom(k + 1, retries, attempt);
        (ls + rest.0, rest.1)
  }

  /** `fetch_stock_lines(h_id)`, with its default of five attempts. */
  function StockLines(attempt: int -> LinesAttempt): (seq<StockLine>, bool) {
    StockLinesFrom(1, 5, attempt)
  }

  /** The retry duplicates: when the first attempt fails after yielding `p`
      and the second completes with all lines `all`, the consumer sees
      `p + all`, so `p` twice when it is a prefix of `all`. */
  lemma StockLinesRetryRepeats(attempt: int -> LinesAttempt, p: seq<StockLine>, all: seq<StockLine>)
    requires attempt(1) == FailedAfter(p) && attempt(2) == Completed(all)
    ensures StockLines(attempt) == (p + all, true)
  {
    assert StockLinesFrom(2, 5, attempt) == (all, true);
  }

  /** When every attempt fails, the generator raises after yielding every
      attempt's lines. */
  lemma {:induction false} StockLinesAllFail(k: int, retries: int, attempt: int -> LinesAttempt)
    requires forall j :: k <= j <= retries ==> attempt(j).FailedAfter?
    ensures !StockLinesFrom(k, retries, attempt).1
    decreases retries - k
  {
    if k <= retries {
      StockLinesAllFail(k + 1, retries, attempt);
    }
  }

  /** The stock queries: the headers of a window (`fetch_stock_headers`), one
      header by id (`fetch_stock_header_by_id`, `Some(None)` when no row), the
      changed ids above a watermark, each attempt of a header's line query,
      and the stock master rows. */
  datatype StockSource = StockSource(
    windowHeaders: ((Date, Date)) -> Option<seq<StockHeader>>,
    headerById: int -> Option<Option<StockHeader>>,
    changedSince: int -> Option<seq<int>>,
    lineAttempts: int -> int -> LinesAttempt,
    masterRows: Option<seq<seq<Cell>>>)

  /** The movements one header contributes: one per yielded line, whether or
      not the generator raised in the end (its error is caught after the lines
      were buffered). */
  function HeaderRows(src: StockSource, hId: int, h: StockHeader): seq<StockMovement> {
    MovementsOf(hId, h, StockLines(src.lineAttempts(hId)).0)
  }

  function HeadersRows(src: StockSource, hs: seq<StockHeader>): seq<StockMovement> {
    if hs == [] then []
    else HeadersRows(src, hs[..|hs| - 1]) + HeaderRows(src, hs[|hs| - 1].hId, hs[|hs| - 1])
  }

  /** The generator loop for one header, pushing each yielded line. */
  method LoadStockLines(table: Table<StockMovement>, batch: seq<StockMovement>, src: StockSource,
                        hId: int, h: StockHeader, batchSize: int)
    returns (batch': seq<StockMovement>)
    requires table.Valid() && |batch| < Cap(batchSize)
    modifies table
    ensures table.Valid() && table.nextId >= old(table.nextId) && |batch'| < Cap(batchSize)
    ensures table.Data() + batch' == old(table.Data()) + batch + HeaderRows(src, hId, h)
  {
    var lines := StockLines(src.lineAttempts(hId)).0;
    batch' := table.PushAll(batch, MovementsOf(hId, h, lines), batchSize);
  }

  /** The body of one stock window. */
  method LoadStockHeaders(table: Table<StockMovement>, src: StockSource, hs: seq<StockHeader>, batchSize: int)
    requires table.Valid()
    modifies table
    ensures table.Valid() && table.nextId >= old(table.nextId)
    ensures table.Data() == old(table.Data()) + HeadersRows(src, hs)
  {
    var batch: seq<StockMovement> := [];
    var i := 0;
    while i < |hs|
      invariant 0 <= i <= |hs|
      invariant table.Valid() && table.nextId >= old(table.nextId) && |batch| < Cap(batchSize)
      invariant table.Data() + batch == old(table.Data()) + HeadersRows(src, hs[..i])
    {
      assert hs[..i + 1][..i] == hs[..i];
      batch := LoadStockLines(table, batch, src, hs[i].hId, hs[i], batchSize);
      AppendAssoc(old(table.Data()), HeadersRows(src, hs[..i]), HeaderRows(src, hs[i].hId, hs[i]));
      i := i + 1;
    }
    assert hs[..i] == hs;
    var _ := table.Flush(batch);
  }

  function StockLoad(src: StockSource, ws: seq<(Date, Date)>): (seq<StockMovement>, Option<(Date, Date)>) {
    if ws == [] then ([], None)
    else match src.windowHeaders(ws[0])
      case None => ([], Some(ws[0]))
      case Some(hs) =>
        var rest := StockLoad(src, ws[1..]);
        (HeadersRows(src, hs) + rest.0, rest.1)
  }

  /** `full_load_stock(start, end, months)`: truncate (no backup, no restore),
      then window by window; a window whose header fetch raises ends the load
      with the earlier windows loaded. As in the BOM load, dates that do not
      parse fail only after the truncate. */
  method FullLoadStock(table: Table<StockMovement>, range: Option<(Date, Date)>, months: int, src: StockSource,
                       batchSize: int, truncateFails: bool)
    returns (r: Result<(), SyncError>)
    requires table.Valid() && months >= 1
    requires range.Some? ==> Valid(range.value.0) && Valid(range.value.1)
    modifies table
    ensures table.Valid()
    ensures truncateFails ==> r == Err(TruncateFailed) && table.rows == old(table.rows)
    ensures !truncateFails && range.None? ==> r == Err(DateParseFailed) && table.rows == []
    ensures !truncateFails && range.Some? ==>
      var load := StockLoad(src, Windows(range.value.0, range.value.1, months));
      table.Data() == load.0
      && r == if load.1.None? then Ok(()) else Err(WindowFetchFailed(load.1.value))
  {
    if truncateFails {
      return Err(TruncateFailed);
    }
    table.Truncate();
    if range.None? {
      return Err(DateParseFailed);
    }
    var ws := IterWindows(range.value.0, range.value.1, months);
    var i := 0;
    while i < |ws|
      invariant 0 <= i <= |ws|
      invariant table.Valid()
      invariant table.Data() + StockLoad(src, ws[i..]).0 == StockLoad(src, ws).0
      invariant StockLoad(src, ws[i..]).1 == StockLoad(src, ws).1
    {
      assert ws[i..][1..] == ws[i + 1..];
      var hs := src.windowHeaders(ws[i]);
      if hs.None? {
        return Err(WindowFetchFailed(ws[i]));
      }
      ghost var mid := table.Data();
      LoadStockHeaders(table, src, hs.value, batchSize);
      AppendAssoc(mid, HeadersRows(src, hs.value), StockLoad(src, ws[i + 1..]).0);
      i := i + 1;
    }
    return Ok(());
  }

  // ---------------------------------------------------------------------------
  // Stock master
  // ---------------------------------------------------------------------------

  /** `pg_insert_stock_master_batch` keeps only rows with a first column. */
  predicate HasKey(row: seq<Cell>) {
    row != [] && row[0] != Null
  }

  function KeyedRows(rows: seq<seq<Cell>>): (rs: seq<seq<Cell>>)
    ensures forall x :: x in rs ==> x in rows && HasKey(x)
    ensures forall x :: x in rows && HasKey(x) ==> x in rs
  {
    if rows == [] then []
    else
      var last := rows[|rows| - 1];
      var rest := KeyedRows(rows[..|rows| - 1]);
      assert rows == rows[..|rows| - 1] + [last];
      if HasKey(last) then rest + [last] else rest
  }

  lemma {:induction false} KeyedRowsAppend(a: seq<seq<Cell>>, b: seq<seq<Cell>>)
    ensures KeyedRows(a + b) == KeyedRows(a) + KeyedRows(b)
    decreases |b|
  {
    if b == [] {
      assert a + b == a;
    } else {
      var b' := b[..|b| - 1];
      assert (a + b)[..|a + b| - 1] == a + b';
      assert (a + b)[|a + b| - 1] == b[|b| - 1];
      KeyedRowsAppend(a, b');
    }
  }

  /** One flush of the stock master buffer through the filtering insert. */
  method FlushKeyed(table: Table<seq<Cell>>, batch: seq<seq<Cell>>) returns (written: nat)
    requires table.Valid()
    modifies table
    ensures table.Valid()
    ensures table.Data() == old(table.Data()) + KeyedRows(batch)
    ensures written == |KeyedRows(batch)|
  {
    if batch == [] {
      return 0;
    }
    var filtered := KeyedRows(batch);
    if filtered == [] {
      return 0;
    }
    written := table.Flush(filtered);
  }

  /** One row of the stock master loop: buffer it, and flush the buffer once
      it holds `BATCH_SIZE` rows. */
  method PushKeyed(table: Table<seq<Cell>>, batch: seq<seq<Cell>>, row: seq<Cell>, batchSize: int)
    returns (batch': seq<seq<Cell>>, written: nat)
    requires table.Valid()
    modifies table
    ensures table.Valid()
    ensures table.Data() + KeyedRows(batch') == old(table.Data()) + KeyedRows(batch + [row])
    ensures |table.Data()| == |old(table.Data())| + written
  {
    batch' := batch + [row];
    written := 0;
    if |batch'| >= batchSize {
      written := FlushKeyed(table, batch');
      batch' := [];
      assert table.Data() + KeyedRows(batch') == table.Data();
    }
  }

  /** `full_load_stock_master`: truncate, fetch every row, insert them in
      batches; the insert drops rows without a first column. */
  method FullLoadStockMaster(table: Table<seq<Cell>>, src: StockSource, batchSize: int, truncateFails: bool)
    returns (r: Result<nat, SyncError>)
    requires table.Valid()
    modifies table
    ensures table.Valid()
    ensures truncateFails ==> r == Err(TruncateFailed) && table.rows == old(table.rows)
    ensures !truncateFails && src.masterRows.None? ==> r == Err(SourceFetchFailed) && table.rows == []
    ensures !truncateFails && src.masterRows.Some? ==>
      table.Data() == KeyedRows(src.masterRows.value) && r == Ok(|KeyedRows(src.masterRows.value)|)
  {
    if truncateFails {
      return Err(TruncateFailed);
    }
    table.Truncate();
    if src.masterRows.None? {
      return Err(SourceFetchFailed);
    }
    var rows := src.masterRows.value;
    var batch: seq<seq<Cell>> := [];
    var total := 0;
    var i := 0;
    while i < |rows|
      invariant 0 <= i <= |rows|
      invariant table.Valid()
      invariant table.Data() + KeyedRows(batch) == KeyedRows(rows[..i])
      invariant total == |table.Data()|
    {
      assert rows[..i + 1] == rows[..i] + [rows[i]];
      KeyedRowsAppend(rows[..i], [rows[i]]);
      KeyedRowsAppend(batch, [rows[i]]);
      AppendAssoc(table.Data(), KeyedRows(batch), KeyedRows([rows[i]]));
      var written;
      batch, written := PushKeyed(table, batch, rows[i], batchSize);
      total := total + written;
      i := i + 1;
    }
    if batch != [] {
      var written := FlushKeyed(table, batch);
      total := total + written;
    }
    assert rows[..i] == rows;
    return Ok(total);
  }
}
