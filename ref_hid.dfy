/** The one-off backfill of `raw_stock_movements.ref_hid`: the `h_id`s of
    warehouse receipts whose `ref_hid` is still NULL are looked up in
    Firebird's HAREKETLER in chunks that fit its `IN` list, and every
    positive `REF_HID` found is written to the rows that have none yet. */
module RefHid {
  import opened Wrappers
  import opened Text

  // ---------------------------------------------------------------------------
  // Chunking
  // ---------------------------------------------------------------------------

  /** `FB_IN_LIMIT`: the most values Firebird takes in one `IN` list. */
  const InLimit := 1000

  /** `min(BATCH_SIZE, FB_IN_LIMIT)`, the number of ids looked up at once. */
  function ChunkSize(batchSize: int): (n: int)
    ensures n <= InLimit && n <= batchSize
    ensures n == InLimit || n == batchSize
  {
    if batchSize < InLimit then batchSize else InLimit
  }

  /** `chunked`: the slices `values[i:i + size]` for `i` in
      `range(0, len(values), size)`; a negative step makes the range, and so
      the result, empty. A zero step is an error of `range`, hence the
      precondition. */
  function Chunked(values: seq<int>, size: int): seq<seq<int>>
    requires size != 0
    decreases |values|
  {
    if size < 0 || values == [] then []
    else if |values| <= size then [values]
    else [values[..size]] + Chunked(values[size..], size)
  }

  /** The chunks laid end to end. */
  function Flatten(cs: seq<seq<int>>): seq<int> {
    if cs == [] then [] else cs[0] + Flatten(cs[1..])
  }

  /** Chunking loses, reorders and repeats nothing; every chunk holds between
      one and `size` values, and all but the last exactly `size`. */
  lemma {:induction false} ChunkedSpec(values: seq<int>, size: int)
    requires size >= 1
    ensures Flatten(Chunked(values, size)) == values
    ensures forall i :: 0 <= i < |Chunked(values, size)| ==> 0 < |Chunked(values, size)[i]| <= size
    ensures forall i :: 0 <= i < |Chunked(values, size)| - 1 ==> |Chunked(values, size)[i]| == size
  {
    if values != [] && |values| > size {
      var rest := Chunked(values[size..], size);
      ChunkedSpec(values[size..], size);
      var cs := Chunked(values, size);
      assert cs == [values[..size]] + rest;
      assert cs[1..] == rest;
      assert values[..size] + values[size..] == values;
      forall i | 1 <= i < |cs|
        ensures cs[i] == rest[i - 1]
      {
      }
    }
  }

  /** Flattening one more chunk appends its values. */
  lemma {:induction false} FlattenSnoc(cs: seq<seq<int>>, c: seq<int>)
    ensures Flatten(cs + [c]) == Flatten(cs) + c
  {
    if cs == [] {
      assert [c][1..] == [];
    } else {
      assert (cs + [c])[1..] == cs[1..] + [c];
      FlattenSnoc(cs[1..], c);
    }
  }

  /** The chunks up to and including the `k`-th, laid end to end. */
  lemma FlattenPrefix(cs: seq<seq<int>>, k: int)
    requires 0 <= k < |cs|
    ensures Flatten(cs[..k + 1]) == Flatten(cs[..k]) + cs[k]
  {
    assert cs[..k + 1] == cs[..k] + [cs[k]];
    FlattenSnoc(cs[..k], cs[k]);
  }

  // ---------------------------------------------------------------------------
  // The Firebird lookup
  // ---------------------------------------------------------------------------

  /** A HAREKETLER row: its `H_ID` and its `REF_HID`, NULL as `None`. */
  datatype FbRow = FbRow(hId: int, refHid: Option<int>)

  /** `SELECT H_ID, REF_HID FROM HAREKETLER WHERE H_ID IN (...)`. */
  function SelectIn(table: seq<FbRow>, ids: seq<int>): (rows: seq<FbRow>)
    ensures forall r :: r in rows <==> r in table && r.hId in ids
    ensures ids == [] ==> rows == []
  {
    if table == [] then []
    else
      var rows := SelectIn(table[..|table| - 1], ids);
      var last := table[|table| - 1];
      assert table == table[..|table| - 1] + [last];
      if last.hId in ids then rows + [last] else rows
  }

  /** A row the lookup keeps: its `REF_HID` is set and positive. */
  predicate Kept(r: FbRow) {
    r.refHid.Some? && r.refHid.value > 0
  }

  /** The dictionary the lookup builds from the rows in the order they come:
      kept rows only, a later row of the same `H_ID` overwriting an earlier. */
  function RefHidMap(rows: seq<FbRow>): (m: map<int, int>)
    ensures forall k :: k in m ==> m[k] > 0
    ensures forall k :: k in m <==> exists i :: 0 <= i < |rows| && rows[i].hId == k && Kept(rows[i])
  {
    if rows == [] then map[]
    else
      var init := rows[..|rows| - 1];
      var last := rows[|rows| - 1];
      var m := RefHidMap(init);
      assert forall i :: 0 <= i < |init| ==> init[i] == rows[i];
      if Kept(last) then m[last.hId := last.refHid.value] else m
  }

  /** The value of an id is the `REF_HID` of its last kept row. */
  lemma {:induction false} RefHidMapLast(rows: seq<FbRow>, k: int)
    requires k in RefHidMap(rows)
    ensures exists i :: 0 <= i < |rows| && rows[i].hId == k && rows[i].refHid == Some(RefHidMap(rows)[k])
                        && forall j :: i < j < |rows| && rows[j].hId == k ==> !Kept(rows[j])
  {
    var init := rows[..|rows| - 1];
    var last := rows[|rows| - 1];
    if Kept(last) && last.hId == k {
      assert rows[|rows| - 1].refHid == Some(RefHidMap(rows)[k]);
    } else {
      RefHidMapLast(init, k);
      var i :| 0 <= i < |init| && init[i].hId == k && init[i].refHid == Some(RefHidMap(init)[k])
               && forall j :: i < j < |init| && init[j].hId == k ==> !Kept(init[j]);
      assert rows[i] == init[i];
      forall j | i < j < |rows| && rows[j].hId == k
        ensures !Kept(rows[j])
      {
        if j < |init| {
          assert rows[j] == init[j];
        }
      }
    }
  }

  /** Restricting the rows to some ids changes nothing about those ids: the
      lookup of a chunk agrees with a lookup of the whole table on the
      chunk's ids. */
  lemma {:induction false} SelectInAgrees(table: seq<FbRow>, ids: seq<int>)
    ensures forall h :: h in ids ==>
      (h in RefHidMap(SelectIn(table, ids)) <==> h in RefHidMap(table))
      && (h in RefHidMap(table) ==> RefHidMap(SelectIn(table, ids))[h] == RefHidMap(table)[h])
  {
    if table != [] {
      SelectInAgrees(table[..|table| - 1], ids);
      var rows := SelectIn(table[..|table| - 1], ids);
      var last := table[|table| - 1];
      if last.hId in ids {
        assert SelectIn(table, ids) == rows + [last];
        assert (rows + [last])[..|rows|] == rows;
      }
    }
  }

  /** `fetch_ref_hid_map`: no query at all for no ids; otherwise the rows of
      the ids, NULL and non-positive `REF_HID`s skipped, the rest entered in
      a dictionary one by one. */
  method FetchRefHidMap(table: seq<FbRow>, hids: seq<int>) returns (mapping: map<int, int>, queried: bool)
    ensures queried <==> hids != []
    ensures mapping == RefHidMap(SelectIn(table, hids))
  {
    if hids == [] {
      return map[], false;
    }
    queried := true;
    var rows := SelectIn(table, hids);
    mapping := map[];
    for i := 0 to |rows|
      invariant mapping == RefHidMap(rows[..i])
    {
      assert rows[..i + 1][..i] == rows[..i];
      var row := rows[i];
      if row.refHid.None? {
        continue;
      }
      var refHid := row.refHid.value;
      if refHid <= 0 {
        continue;
      }
      mapping := mapping[row.hId := refHid];
    }
    assert rows[..|rows|] == rows;
  }

  // ---------------------------------------------------------------------------
  // Pairs
  // ---------------------------------------------------------------------------

  /** `[(hid, mapping[hid]) for hid in batch if hid in mapping]`. */
  function Pairs(batch: seq<int>, mapping: map<int, int>): (ps: seq<(int, int)>)
    ensures |ps| <= |batch|
    ensures forall i :: 0 <= i < |ps| ==> ps[i].0 in mapping && ps[i].1 == mapping[ps[i].0]
    ensures forall h :: h in batch && h in mapping <==> exists i :: 0 <= i < |ps| && ps[i].0 == h
  {
    if batch == [] then []
    else
      var init := batch[..|batch| - 1];
      var h := batch[|batch| - 1];
      assert batch == init + [h];
      var ps := Pairs(init, mapping);
      if h in mapping then
        var ps' := ps + [(h, mapping[h])];
        assert ps'[|ps|].0 == h;
        assert forall i :: 0 <= i < |ps| ==> ps'[i] == ps[i];
        ps'
      else ps
  }

  /** The pairs of two stretches of ids are the pairs of the first followed
      by those of the second: the ids keep their order. */
  lemma {:induction false} PairsAppend(a: seq<int>, b: seq<int>, mapping: map<int, int>)
    ensures Pairs(a + b, mapping) == Pairs(a, mapping) + Pairs(b, mapping)
  {
    if b == [] {
      assert a + b == a;
    } else {
      var init := b[..|b| - 1];
      assert (a + b)[..|a + b| - 1] == a + init;
      PairsAppend(a, init, mapping);
    }
  }

  /** Two dictionaries that agree on a batch's ids give the batch the same
      pairs. */
  lemma {:induction false} PairsAgree(batch: seq<int>, m1: map<int, int>, m2: map<int, int>)
    requires forall h :: h in batch ==> (h in m1 <==> h in m2) && (h in m1 ==> m1[h] == m2[h])
    ensures Pairs(batch, m1) == Pairs(batch, m2)
  {
    if batch != [] {
      var init := batch[..|batch| - 1];
      assert forall h :: h in init ==> h in batch;
      PairsAgree(init, m1, m2);
    }
  }

  // ---------------------------------------------------------------------------
  // The PostgreSQL side
  // ---------------------------------------------------------------------------

  /** A `raw_stock_movements` row, reduced to the columns the backfill reads
      and writes; NULL as `None`. */
  datatype Movement = Movement(hId: Option<int>, documentType: Option<string>, refHid: Option<int>)

  /** `ref_hid IS NULL AND document_type LIKE 'Depo Giri%'`, and an `h_id`
      that is not NULL. */
  predicate Pending(m: Movement) {
    m.refHid.None? && m.documentType.Some? && StartsWith(m.documentType.value, "Depo Giri") && m.hId.Some?
  }

  predicate Distinct(s: seq<int>) {
    forall i, j :: 0 <= i < j < |s| ==> s[i] != s[j]
  }

  /** `load_pg_hids`: the distinct `h_id`s of the pending rows, each at its
      first occurrence. */
  function PendingHids(rows: seq<Movement>): (hs: seq<int>)
    ensures Distinct(hs)
    ensures forall h :: h in hs <==> exists i :: 0 <= i < |rows| && Pending(rows[i]) && rows[i].hId == Some(h)
  {
    if rows == [] then []
    else
      var init := rows[..|rows| - 1];
      var last := rows[|rows| - 1];
      var hs := PendingHids(init);
      assert forall i :: 0 <= i < |init| ==> init[i] == rows[i];
      if Pending(last) && last.hId.value !in hs then hs + [last.hId.value] else hs
  }

  /** The `REF_HID` the `FROM (VALUES ...) v` list offers an `h_id`: the
      first pair that carries it. */
  function Match(pairs: seq<(int, int)>, h: int): (r: Option<int>)
    ensures r.Some? <==> exists i :: 0 <= i < |pairs| && pairs[i].0 == h
    ensures r.Some? ==> exists i :: 0 <= i < |pairs| && pairs[i] == (h, r.value)
  {
    if pairs == [] then None
    else if pairs[0].0 == h then Some(pairs[0].1)
    else
      var r := Match(pairs[1..], h);
      assert forall i :: 1 <= i < |pairs| ==> pairs[i] == pairs[1..][i - 1];
      r
  }

  /** A match in the first of two pair lists hides any in the second. */
  lemma {:induction false} MatchAppend(p1: seq<(int, int)>, p2: seq<(int, int)>, h: int)
    ensures Match(p1 + p2, h) == if Match(p1, h).Some? then Match(p1, h) else Match(p2, h)
  {
    if p1 != [] {
      assert (p1 + p2)[1..] == p1[1..] + p2;
      MatchAppend(p1[1..], p2, h);
    } else {
      assert p1 + p2 == p2;
    }
  }

  /** One row after the `UPDATE ... WHERE t.h_id = v.h_id AND t.ref_hid IS NULL`. */
  function Updated(m: Movement, pairs: seq<(int, int)>): Movement {
    if m.refHid.None? && m.hId.Some? && Match(pairs, m.hId.value).Some? then
      m.(refHid := Match(pairs, m.hId.value))
    else m
  }

  /** A set `ref_hid` is never overwritten, no other column changes, and a
      NULL one is filled exactly when a pair carries the row's `h_id`. */
  lemma UpdatedNullOnly(m: Movement, pairs: seq<(int, int)>)
    ensures Updated(m, pairs).hId == m.hId && Updated(m, pairs).documentType == m.documentType
    ensures m.refHid.Some? ==> Updated(m, pairs) == m
    ensures m.refHid.None? && m.hId.Some? ==>
      (Updated(m, pairs).refHid.Some? <==> exists i :: 0 <= i < |pairs| && pairs[i].0 == m.hId.value)
  {
  }

  /** Updating with one list and then another is updating with both at once. */
  lemma UpdatedTwice(m: Movement, p1: seq<(int, int)>, p2: seq<(int, int)>)
    ensures Updated(Updated(m, p1), p2) == Updated(m, p1 + p2)
  {
    if m.hId.Some? {
      MatchAppend(p1, p2, m.hId.value);
    }
  }

  /** Every row after the update. */
  function Applied(rows: seq<Movement>, pairs: seq<(int, int)>): (r: seq<Movement>)
    ensures |r| == |rows|
  {
    seq(|rows|, i requires 0 <= i < |rows| => Updated(rows[i], pairs))
  }

  /** Two updates in a row are one update with both lists. */
  lemma AppliedTwice(rows: seq<Movement>, p1: seq<(int, int)>, p2: seq<(int, int)>)
    ensures Applied(Applied(rows, p1), p2) == Applied(rows, p1 + p2)
  {
    forall i | 0 <= i < |rows|
      ensures Applied(Applied(rows, p1), p2)[i] == Applied(rows, p1 + p2)[i]
    {
      UpdatedTwice(rows[i], p1, p2);
    }
  }

  /** An empty list changes no row. */
  lemma AppliedNothing(rows: seq<Movement>)
    ensures Applied(rows, []) == rows
  {
  }

  /** `raw.raw_stock_movements`. */
  class MovementTable {
    var rows: seq<Movement>

    constructor(rows0: seq<Movement>)
      ensures rows == rows0
    {
      rows := rows0;
    }

    /** `apply_updates`: nothing for no pairs, else one `UPDATE` that fills
        the NULL `ref_hid`s of the rows the pairs name. */
    method ApplyUpdates(pairs: seq<(int, int)>)
      modifies this
      ensures rows == Applied(old(rows), pairs)
    {
      if pairs == [] {
        AppliedNothing(rows);
        return;
      }
      rows := Applied(rows, pairs);
    }
  }

  // ---------------------------------------------------------------------------
  // The backfill
  // ---------------------------------------------------------------------------

  /** Looking up one more batch and applying its pairs extends the work done
      so far as if the pairs of all ids were taken from the whole table. */
  lemma BatchStep(fb: seq<FbRow>, rows0: seq<Movement>, done: seq<int>, batch: seq<int>)
    ensures var full := RefHidMap(fb);
      var pairs := Pairs(batch, RefHidMap(SelectIn(fb, batch)));
      Applied(Applied(rows0, Pairs(done, full)), pairs) == Applied(rows0, Pairs(done + batch, full))
      && |Pairs(done, full)| + |pairs| == |Pairs(done + batch, full)|
  {
    var full := RefHidMap(fb);
    SelectInAgrees(fb, batch);
    PairsAgree(batch, RefHidMap(SelectIn(fb, batch)), full);
    AppliedTwice(rows0, Pairs(done, full), Pairs(batch, full));
    PairsAppend(done, batch, full);
  }

  /** `range` refuses a zero step. */
  datatype BackfillError = ZeroChunkSize

  /** `main`: the pending ids chunked, each chunk looked up in Firebird and
      its pairs applied, the number of pairs counted. With no pending id it
      stops before Firebird is opened. The count is of ids, not of the rows
      they update. */
  method Backfill(table: MovementTable, fb: seq<FbRow>, batchSize: int) returns (r: Result<nat, BackfillError>)
    modifies table
    ensures var hids := PendingHids(old(table.rows));
      if hids == [] || ChunkSize(batchSize) < 0 then r == Ok(0) && table.rows == old(table.rows)
      else if ChunkSize(batchSize) == 0 then r == Err(ZeroChunkSize) && table.rows == old(table.rows)
      else r == Ok(|Pairs(hids, RefHidMap(fb))|) && table.rows == Applied(old(table.rows), Pairs(hids, RefHidMap(fb)))
  {
    var hids := PendingHids(table.rows);
    if hids == [] {
      return Ok(0);
    }
    var size := ChunkSize(batchSize);
    if size == 0 {
      return Err(ZeroChunkSize);
    }
    var chunks := Chunked(hids, size);
    if size > 0 {
      ChunkedSpec(hids, size);
    }
    ghost var full := RefHidMap(fb);
    ghost var rows0 := table.rows;
    AppliedNothing(rows0);
    var updated := 0;
    for k := 0 to |chunks|
      invariant updated == |Pairs(Flatten(chunks[..k]), full)|
      invariant table.rows == Applied(rows0, Pairs(Flatten(chunks[..k]), full))
    {
      var batch := chunks[k];
      var mapping, _ := FetchRefHidMap(fb, batch);
      var pairs := Pairs(batch, mapping);
      BatchStep(fb, rows0, Flatten(chunks[..k]), batch);
      table.ApplyUpdates(pairs);
      updated := updated + |pairs|;
      FlattenPrefix(chunks, k);
    }
    assert chunks[..|chunks|] == chunks;
    return Ok(updated);
  }
}
