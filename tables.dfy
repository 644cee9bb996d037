/** A destination table with a `SERIAL` id: rows are appended by batched
    `INSERT`s and removed by `TRUNCATE`, which does not reset the id sequence.
    The loaders' batching (`batch.append`, flush when `len(batch) >=
    BATCH_SIZE`, flush the rest) is stated here once. */
module Tables {
  import opened Seqs

  /** A stored row: the generated id and the inserted columns. */
  datatype Stored<R> = Stored(id: nat, data: R)

  /** The inserted columns of stored rows, in table order. */
  function DataOf<R>(rows: seq<Stored<R>>): (d: seq<R>)
    ensures |d| == |rows|
    ensures forall k :: 0 <= k < |rows| ==> d[k] == rows[k].data
  {
    seq(|rows|, k requires 0 <= k < |rows| => rows[k].data)
  }

  /** The rows a batch becomes, numbered on from `first`. */
  function Numbered<R>(batch: seq<R>, first: nat): (rows: seq<Stored<R>>)
    ensures |rows| == |batch|
    ensures forall k :: 0 <= k < |batch| ==> rows[k] == Stored(first + k, batch[k])
  {
    seq(|batch|, k requires 0 <= k < |batch| => Stored(first + k, batch[k]))
  }

  /** The batch size a flush waits for: `len(batch) >= BATCH_SIZE` holds after
      any append once `BATCH_SIZE <= 1`. */
  function Cap(batchSize: int): (c: nat)
    ensures c >= 1 && (batchSize >= 1 ==> c == batchSize)
  {
    if batchSize >= 1 then batchSize else 1
  }

  class Table<R> {
    var rows: seq<Stored<R>>
    var nextId: nat

    /** Ids are increasing in table order and below the sequence's next value. */
    predicate Valid()
      reads this
    {
      (forall i, j :: 0 <= i < j < |rows| ==> rows[i].id < rows[j].id)
      && (forall k :: 0 <= k < |rows| ==> rows[k].id < nextId)
    }

    function Data(): seq<R>
      reads this
    {
      DataOf(rows)
    }

    constructor ()
      ensures Valid() && rows == [] && nextId == 1
    {
      rows := [];
      nextId := 1;
    }

    /** `TRUNCATE TABLE`: every row goes, the id sequence stays. */
    method Truncate()
      requires Valid()
      modifies this
      ensures Valid() && rows == [] && nextId == old(nextId)
    {
      rows := [];
    }

    /** One batched `INSERT` (the `pg_insert_*_batch` helpers): an empty batch
        writes nothing and returns 0; otherwise every row is appended with a
        fresh id and the count is returned. */
    method InsertBatch(batch: seq<R>) returns (written: nat)
      requires Valid()
      modifies this
      ensures Valid()
      ensures rows == old(rows) + Numbered(batch, old(nextId))
      ensures nextId == old(nextId) + |batch|
      ensures written == |batch|
    {
      if batch == [] {
        assert Numbered(batch, nextId) == [];
        return 0;
      }
      var added := Numbered(batch, nextId);
      rows := rows + added;
      nextId := nextId + |batch|;
      written := |batch|;
    }

    /** One `batch.append(row)` followed by the flush check: afterwards the
        table plus the buffer hold what they held plus `row`, and the buffer is
        below the cap again. */
    method Push(batch: seq<R>, row: R, batchSize: int) returns (batch': seq<R>, written: nat)
      requires Valid() && |batch| < Cap(batchSize)
      modifies this
      ensures Valid() && nextId >= old(nextId)
      ensures old(Data()) <= Data() && Data() + batch' == old(Data()) + batch + [row]
      ensures |batch'| < Cap(batchSize)
      ensures |batch'| == 0 <==> |batch| + 1 == Cap(batchSize)
      ensures written + |batch'| == |batch| + 1
    {
      batch' := batch + [row];
      written := 0;
      if |batch'| >= batchSize {
        ghost var before := rows;
        ghost var added := Numbered(batch', nextId);
        written := InsertBatch(batch');
        assert DataOf(added) == batch';
        assert DataOf(before + added) == DataOf(before) + DataOf(added);
        batch' := [];
      }
    }
  
    /** A run of `batch.append(row)` plus flush checks, one per row. */
    method PushAll(batch: seq<R>, rs: seq<R>, batchSize: int) returns (batch': seq<R>)
      requires Valid() && |batch| < Cap(batchSize)
      modifies this
      ensures Valid() && nextId >= old(nextId)
      ensures old(Data()) <= Data() && Data() + batch' == old(Data()) + batch + rs
      ensures |batch'| < Cap(batchSize)
    {
      batch' := batch;
      var k := 0;
      while k < |rs|
        invariant 0 <= k <= |rs|
        invariant Valid() && nextId >= old(nextId) && |batch'| < Cap(batchSize)
        invariant old(Data()) <= Data() && Data() + batch' == old(Data()) + batch + rs[..k]
      {
        var written;
        batch', written := Push(batch', rs[k], batchSize);
        assert rs[..k + 1] == rs[..k] + [rs[k]];
        k := k + 1;
      }
      assert rs[..k] == rs;
    }

    /** The final `if batch: pg_insert_...(batch)`: afterwards the table holds
        what it held plus the buffer. */
    method Flush(batch: seq<R>) returns (written: nat)
      requires Valid()
      modifies this
      ensures Valid() && nextId == old(nextId) + |batch|
      ensures rows == old(rows) + Numbered(batch, old(nextId))
      ensures Data() == old(Data()) + batch
      ensures written == |batch|
    {
      ghost var before := rows;
      ghost var added := Numbered(batch, nextId);
      written := InsertBatch(batch);
      assert DataOf(added) == batch;
      assert DataOf(before + added) == DataOf(before) + DataOf(added);
    }
  }
}
