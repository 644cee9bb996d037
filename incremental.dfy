/** The append-only incremental loads (`incremental_bom`,
    `incremental_stock`), the changed-id query they share the shape of, the
    destination watermark `MAX(h_id)`, and the open-order refresh. */
module Incremental {
  import opened Wrappers
  import opened Seqs
  import opened Records
  import opened Tables
  import opened FullLoad

  function Max(a: int, b: int): int {
    if a >= b then a else b
  }

  // ---------------------------------------------------------------------------
  // incremental_bom
  // ---------------------------------------------------------------------------

  /** The watermark `incremental_bom` returns: the largest of `lastHid` and
      the ids whose detail fetch succeeded. */
  function SucceededMax(src: BomSource, lastHid: int, hids: seq<int>): int {
    if hids == [] then lastHid
    else
      var before := SucceededMax(src, lastHid, hids[..|hids| - 1]);
      var h := hids[|hids| - 1];
      if src.rowsByHid(h).Some? then Max(before, h) else before
  }

  /** The watermark never moves back, covers every id that loaded, and is
      either the old one or an id that loaded: an id whose fetch raised
      cannot raise it. */
  lemma {:induction false} SucceededMaxBounds(src: BomSource, lastHid: int, hids: seq<int>)
    ensures SucceededMax(src, lastHid, hids) >= lastHid
    ensures forall h :: h in hids && src.rowsByHid(h).Some? ==> h <= SucceededMax(src, lastHid, hids)
    ensures SucceededMax(src, lastHid, hids) == lastHid
            || (SucceededMax(src, lastHid, hids) in hids && src.rowsByHid(SucceededMax(src, lastHid, hids)).Some?)
    decreases |hids|
  {
    if hids != [] {
      var init := hids[..|hids| - 1];
      SucceededMaxBounds(src, lastHid, init);
      assert hids == init + [hids[|hids| - 1]];
    }
  }

  /** With no failed fetch, the watermark is the largest of `lastHid` and
      all the ids. */
  lemma {:induction false} SucceededMaxAllLoaded(src: BomSource, lastHid: int, hids: seq<int>)
    requires forall h :: h in hids ==> src.rowsByHid(h).Some?
    ensures forall h :: h in hids ==> h <= SucceededMax(src, lastHid, hids)
    ensures SucceededMax(src, lastHid, hids) == lastHid || SucceededMax(src, lastHid, hids) in hids
  {
    SucceededMaxBounds(src, lastHid, hids);
  }

  /** One more id extends the rows and the watermark of the ids before it. */
  lemma HidsPrefix(src: BomSource, lastHid: int, hids: seq<int>, i: int)
    requires 0 <= i < |hids|
    ensures HidsRows(src, hids[..i + 1]) == HidsRows(src, hids[..i]) + HidRows(src, hids[i])
    ensures SucceededMax(src, lastHid, hids[..i + 1])
      == if src.rowsByHid(hids[i]).Some? then Max(SucceededMax(src, lastHid, hids[..i]), hids[i])
         else SucceededMax(src, lastHid, hids[..i])
  {
    assert hids[..i + 1][..i] == hids[..i];
  }

  /** `incremental_bom(pg, last_hid)`: appends the detail rows of every id
      above `lastHid` whose fetch succeeds and returns the new watermark; no
      ids leaves the table and the watermark alone. A raising id query is
      raised. */
  method IncrementalBom(table: Table<BomRow>, src: BomSource, lastHid: int, batchSize: int)
    returns (r: Result<int, SyncError>)
    requires table.Valid()
    modifies table
    ensures table.Valid()
    ensures src.hidsSince(lastHid).None? ==> r == Err(SourceFetchFailed) && table.rows == old(table.rows)
    ensures src.hidsSince(lastHid).Some? ==>
      var hids := src.hidsSince(lastHid).value;
      r == Ok(SucceededMax(src, lastHid, hids))
      && table.Data() == old(table.Data()) + HidsRows(src, hids)
  {
    var fetched := src.hidsSince(lastHid);
    if fetched.None? {
      return Err(SourceFetchFailed);
    }
    var hids := fetched.value;
    if hids == [] {
      return Ok(lastHid);
    }
    var batch: seq<BomRow> := [];
    var maxHid := lastHid;
    var i := 0;
    while i < |hids|
      invariant 0 <= i <= |hids|
      invariant table.Valid() && |batch| < Cap(batchSize)
      invariant table.Data() + batch == old(table.Data()) + HidsRows(src, hids[..i])
      invariant maxHid == SucceededMax(src, lastHid, hids[..i])
    {
      HidsPrefix(src, lastHid, hids, i);
      var rows := src.rowsByHid(hids[i]);
      if rows.Some? {
        batch := table.PushAll(batch, LoadedAll(rows.value), batchSize);
        AppendAssoc(old(table.Data()), HidsRows(src, hids[..i]), HidRows(src, hids[i]));
        maxHid := Max(maxHid, hids[i]);
      }
      i := i + 1;
    }
    assert hids[..i] == hids;
    var _ := table.Flush(batch);
    return Ok(maxHid);
  }

  // ---------------------------------------------------------------------------
  // incremental_stock
  // ---------------------------------------------------------------------------

  predicate Increasing(s: seq<int>) {
    forall i, j :: 0 <= i < j < |s| ==> s[i] < s[j]
  }

  function InsertUnique(x: int, s: seq<int>): (r: seq<int>)
    requires Increasing(s)
    ensures Increasing(r)
    ensures forall y :: y in r <==> y == x || y in s
  {
    if s == [] then [x]
    else if x < s[0] then [x] + s
    else if x == s[0] then s
    else
      var t := InsertUnique(x, s[1..]);
      assert forall y :: y in s[1..] ==> s[0] < y by {
        forall y | y in s[1..] ensures s[0] < y {
          var k :| 0 <= k < |s[1..]| && s[1..][k] == y;
          assert s[k + 1] == y;
        }
      }
      assert forall j :: 0 <= j < |t| ==> s[0] < t[j] by {
        forall j | 0 <= j < |t| ensures s[0] < t[j] {
          assert t[j] in t;
        }
      }
      [s[0]] + t
  }

  /** `sorted(set(xs))`. */
  function SortedUnique(xs: seq<int>): (r: seq<int>)
    ensures Increasing(r)
    ensures forall y :: y in r <==> y in xs
  {
    if xs == [] then []
    else InsertUnique(xs[|xs| - 1], SortedUnique(xs[..|xs| - 1]))
  }

  /** `fetch_stock_changed_hids`: the distinct ids of the reply, ascending;
      a raising query raises. */
  function FetchStockChangedHids(reply: Option<seq<int>>): (r: Option<seq<int>>)
    ensures r.Some? <==> reply.Some?
    ensures r.Some? ==> Increasing(r.value) && forall h :: h in r.value <==> h in reply.value
  {
    if reply.None? then None else Some(SortedUnique(reply.value))
  }

  /** What the header loop of `incremental_stock` appends from `hids` on, and
      whether a header query raised (the loop is left there; that error is
      not caught). A header that is not found is skipped. */
  function StockIncrement(src: StockSource, hids: seq<int>): (seq<StockMovement>, bool) {
    if hids == [] then ([], false)
    else match src.headerById(hids[0])
      case None => ([], true)
      case Some(None) => StockIncrement(src, hids[1..])
      case Some(Some(h)) =>
        var rest := StockIncrement(src, hids[1..]);
        (HeaderRows(src, hids[0], h) + rest.0, rest.1)
  }

  /** Ids whose header is not found contribute nothing. */
  lemma {:induction false} StockIncrementSkipsMissing(src: StockSource, hids: seq<int>)
    requires forall k :: 0 <= k < |hids| ==> src.headerById(hids[k]) == Some(None)
    ensures StockIncrement(src, hids) == ([], false)
    decreases |hids|
  {
    if hids != [] {
      assert forall k :: 0 <= k < |hids[1..]| ==> hids[1..][k] == hids[k + 1];
      StockIncrementSkipsMissing(src, hids[1..]);
    }
  }

  /** The `h_id` column of some movements. */
  function MovementHids(ms: seq<StockMovement>): (hs: seq<int>)
    ensures |hs| == |ms|
    ensures forall k :: 0 <= k < |ms| ==> hs[k] == ms[k].hId
  {
    seq(|ms|, k requires 0 <= k < |ms| => ms[k].hId)
  }

  /** `COALESCE(MAX(h_id), 0)` over a column of ids (`get_max_stock_hid_pg`,
      `get_max_bom_hid_pg`). */
  function MaxHid(hids: seq<int>): (m: int)
    ensures hids == [] ==> m == 0
    ensures hids != [] ==> m in hids
    ensures forall h :: h in hids ==> h <= m
  {
    if hids == [] then 0
    else if |hids| == 1 then hids[0]
    else
      var before := MaxHid(hids[..|hids| - 1]);
      assert hids == hids[..|hids| - 1] + [hids[|hids| - 1]];
      Max(before, hids[|hids| - 1])
  }

  /** One found-or-missing header of the `incremental_stock` loop. */
  method StockIncrementStep(table: Table<StockMovement>, batch: seq<StockMovement>, src: StockSource,
                            hids: seq<int>, batchSize: int)
    returns (batch': seq<StockMovement>)
    requires table.Valid() && |batch| < Cap(batchSize)
    requires hids != [] && src.headerById(hids[0]).Some?
    modifies table
    ensures table.Valid() && |batch'| < Cap(batchSize) && old(table.Data()) <= table.Data()
    ensures table.Data() + batch' + StockIncrement(src, hids[1..]).0
            == old(table.Data()) + batch + StockIncrement(src, hids).0
    ensures StockIncrement(src, hids[1..]).1 == StockIncrement(src, hids).1
  {
    batch' := batch;
    var header := src.headerById(hids[0]).value;
    if header.Some? {
      var rest := StockIncrement(src, hids[1..]).0;
      batch' := table.PushAll(batch, MovementsOf(hids[0], header.value, StockLines(src.lineAttempts(hids[0])).0), batchSize);
      AppendAssoc(old(table.Data()) + batch, HeaderRows(src, hids[0], header.value), rest);
      AppendAssoc(table.Data(), batch', rest);
    }
  }

  /** The header loop of `incremental_stock` over the changed ids; on a
      raising header query the unflushed buffer is lost. */
  method LoadChangedHeaders(table: Table<StockMovement>, src: StockSource, hids: seq<int>, batchSize: int)
    returns (failed: bool)
    requires table.Valid()
    modifies table
    ensures table.Valid()
    ensures failed == StockIncrement(src, hids).1
    ensures !failed ==> table.Data() == old(table.Data()) + StockIncrement(src, hids).0
    ensures failed ==> old(table.Data()) <= table.Data() <= old(table.Data()) + StockIncrement(src, hids).0
    ensures failed ==> |old(table.Data()) + StockIncrement(src, hids).0| - |table.Data()| < Cap(batchSize)
  {
    var batch: seq<StockMovement> := [];
    var i := 0;
    while i < |hids|
      invariant 0 <= i <= |hids|
      invariant table.Valid() && |batch| < Cap(batchSize)
      invariant old(table.Data()) <= table.Data()
      invariant table.Data() + batch + StockIncrement(src, hids[i..]).0 == old(table.Data()) + StockIncrement(src, hids).0
      invariant StockIncrement(src, hids[i..]).1 == StockIncrement(src, hids).1
    {
      assert hids[i..][1..] == hids[i + 1..];
      if src.headerById(hids[i]).None? {
        return true;
      }
      batch := StockIncrementStep(table, batch, src, hids[i..], batchSize);
      i := i + 1;
    }
    var _ := table.Flush(batch);
    return false;
  }

  /** `incremental_stock(pg, last_hid)`: appends the lines of every changed
      header and returns the destination's `MAX(h_id)`, whatever loaded; no
      changed ids returns `lastHid` untouched. A raising header query ends the
      run with an error, with earlier flushed batches kept and the unflushed
      buffer lost. */
  method IncrementalStock(table: Table<StockMovement>, src: StockSource, lastHid: int, batchSize: int)
    returns (r: Result<int, SyncError>)
    requires table.Valid()
    modifies table
    ensures table.Valid()
    ensures src.changedSince(lastHid).None? ==> r == Err(SourceFetchFailed) && table.rows == old(table.rows)
    ensures src.changedSince(lastHid) == Some([]) ==> r == Ok(lastHid) && table.rows == old(table.rows)
    ensures src.changedSince(lastHid).Some? && src.changedSince(lastHid) != Some([]) ==>
      var load := StockIncrement(src, FetchStockChangedHids(src.changedSince(lastHid)).value);
      if load.1 then
        r == Err(SourceFetchFailed) && old(table.Data()) <= table.Data() <= old(table.Data()) + load.0
        && |old(table.Data()) + load.0| - |table.Data()| < Cap(batchSize)
      else
        r == Ok(MaxHid(MovementHids(table.Data()))) && table.Data() == old(table.Data()) + load.0
  {
    var changed := FetchStockChangedHids(src.changedSince(lastHid));
    if changed.None? {
      return Err(SourceFetchFailed);
    }
    var hids := changed.value;
    if hids == [] {
      return Ok(lastHid);
    }
    var failed := LoadChangedHeaders(table, src, hids, batchSize);
    if failed {
      return Err(SourceFetchFailed);
    }
    return Ok(MaxHid(MovementHids(table.Data())));
  }

  // ---------------------------------------------------------------------------
  // refresh_open_orders
  // ---------------------------------------------------------------------------

  /** `refresh_open_orders`: skipped (0) when the table is missing; otherwise
      truncate and reload every open-order row, returning how many were
      written. */
  method RefreshOpenOrders(table: Table<seq<Cell>>, tableExists: bool, truncateFails: bool,
                           reply: Option<seq<seq<Cell>>>, batchSize: int)
    returns (r: Result<nat, SyncError>)
    requires table.Valid()
    modifies table
    ensures table.Valid()
    ensures !tableExists ==> r == Ok(0) && table.rows == old(table.rows)
    ensures tableExists && truncateFails ==> r == Err(TruncateFailed) && table.rows == old(table.rows)
    ensures tableExists && !truncateFails && reply.None? ==> r == Err(SourceFetchFailed) && table.rows == []
    ensures tableExists && !truncateFails && reply.Some? ==>
      r == Ok(|reply.value|) && table.Data() == reply.value
  {
    if !tableExists {
      return Ok(0);
    }
    if truncateFails {
      return Err(TruncateFailed);
    }
    table.Truncate();
    if reply.None? {
      return Err(SourceFetchFailed);
    }
    var rows := reply.value;
    var batch: seq<seq<Cell>> := [];
    var total := 0;
    var i := 0;
    while i < |rows|
      invariant 0 <= i <= |rows|
      invariant table.Valid() && |batch| < Cap(batchSize)
      invariant table.Data() + batch == rows[..i]
      invariant total == |table.Data()|
    {
      assert rows[..i + 1] == rows[..i] + [rows[i]];
      var written;
      batch, written := table.Push(batch, rows[i], batchSize);
      total := total + written;
      i := i + 1;
    }
    if batch != [] {
      var written := table.Flush(batch);
      total := total + written;
    }
    assert rows[..i] == rows;
    return Ok(total);
  }
}
