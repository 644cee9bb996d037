/** The safety net of the BOM full load: `backup_raw_bom_consumption` (a copy
    of the ten data columns, then retention of the newest backup files),
    `restore_raw_bom_consumption` and `cleanup_bom_backups`. Files are modelled
    by name and modification time; the gzip/CSV payload is the copied rows. */
module Backups {
  import opened Wrappers
  import opened Text
  import opened Records
  import opened Tables

  /** One directory entry: its name and `os.path.getmtime`, `None` when that
      raised. */
  datatype BackupFile = BackupFile(name: string, mtime: Option<real>)

  /** A retention candidate: `(mtime, path)`, compared as a Python tuple. */
  type Entry = (real, string)

  /** `keep = max(1, int(BOM_BACKUP_KEEP))`, with 1 when the setting does not
      parse. */
  function BackupKeep(setting: string): (keep: int)
    ensures keep >= 1
    ensures ParseInt(setting).None? ==> keep == 1
    ensures ParseInt(setting).Some? ==> keep == if ParseInt(setting).value >= 1 then ParseInt(setting).value else 1
  {
    match ParseInt(setting)
    case None => 1
    case Some(n) => if n >= 1 then n else 1
  }

  const BackupPrefix: string := "raw_" + "bom_" + "consumption_"
  const BackupSuffix: string := ".csv" + ".gz"

  /** A file the retention manages. */
  predicate IsBackupName(name: string) {
    StartsWith(name, BackupPrefix) && EndsWith(name, BackupSuffix)
  }

  /** The retention candidates of a listing, in listing order: backup files
      whose modification time could be read. */
  function Eligible(files: seq<BackupFile>): (es: seq<Entry>)
    ensures forall e :: e in es ==> exists f :: f in files && IsBackupName(f.name) && f.mtime == Some(e.0) && f.name == e.1
  {
    if files == [] then []
    else
      var f := files[|files| - 1];
      var rest := Eligible(files[..|files| - 1]);
      assert forall g :: g in files[..|files| - 1] ==> g in files;
      if IsBackupName(f.name) && f.mtime.Some? then rest + [(f.mtime.value, f.name)] else rest
  }

  /** Python's `<` on strings: code-point lexicographic order. */
  predicate StrLess(a: string, b: string) {
    if a == [] then b != []
    else if b == [] then false
    else if a[0] != b[0] then a[0] < b[0]
    else StrLess(a[1..], b[1..])
  }

  lemma {:induction false} StrLessTotal(a: string, b: string)
    ensures a == b || StrLess(a, b) || StrLess(b, a)
  {
    if a != [] && b != [] && a[0] == b[0] {
      StrLessTotal(a[1..], b[1..]);
      if a[1..] == b[1..] {
        assert a == [a[0]] + a[1..] && b == [b[0]] + b[1..];
      }
    }
  }

  lemma {:induction false} StrLessTrans(a: string, b: string, c: string)
    requires StrLess(a, b) && StrLess(b, c)
    ensures StrLess(a, c)
  {
    if a != [] && a[0] == b[0] && b[0] == c[0] {
      StrLessTrans(a[1..], b[1..], c[1..]);
    }
  }

  lemma {:induction false} StrLessAsym(a: string, b: string)
    requires StrLess(a, b)
    ensures !StrLess(b, a)
  {
    if a != [] && a[0] == b[0] {
      StrLessAsym(a[1..], b[1..]);
    }
  }

  /** `a > b` on `(mtime, path)` tuples. */
  predicate Newer(a: Entry, b: Entry) {
    a.0 > b.0 || (a.0 == b.0 && StrLess(b.1, a.1))
  }

  lemma NewerSplit(a: Entry, b: Entry, c: Entry)
    requires Newer(a, c)
    ensures Newer(a, b) || Newer(b, c)
  {
    if a.0 == c.0 && b.0 == a.0 && !Newer(a, b) {
      StrLessTotal(b.1, a.1);
      if StrLess(a.1, b.1) {
        StrLessTrans(c.1, a.1, b.1);
      }
    }
  }

  lemma NewerAsym(a: Entry, b: Entry)
    requires Newer(a, b)
    ensures !Newer(b, a)
  {
    if a.0 == b.0 {
      StrLessAsym(b.1, a.1);
    }
  }

  /** Newest first: no entry is newer than one before it. */
  predicate SortedDesc(s: seq<Entry>) {
    forall i, j :: 0 <= i < j < |s| ==> !Newer(s[j], s[i])
  }

  function Insert(x: Entry, s: seq<Entry>): (r: seq<Entry>)
    requires SortedDesc(s)
    ensures |r| == |s| + 1
    ensures multiset(r) == multiset{x} + multiset(s)
    ensures SortedDesc(r)
  {
    if s == [] || !Newer(s[0], x) then
      InsertFrontSorted(x, s);
      [x] + s
    else
      var tail := Insert(x, s[1..]);
      assert multiset(s) == multiset{s[0]} + multiset(s[1..]) by { assert s == [s[0]] + s[1..]; }
      forall y | y in tail ensures !Newer(y, s[0]) {
        assert y in multiset(tail);
        if y == x {
          NewerAsym(s[0], x);
        } else {
          assert y in multiset(s[1..]);
          var k :| 0 <= k < |s[1..]| && s[1..][k] == y;
          assert s[k + 1] == y;
        }
      }
      [s[0]] + tail
  }

  lemma InsertFrontSorted(x: Entry, s: seq<Entry>)
    requires SortedDesc(s) && (s == [] || !Newer(s[0], x))
    ensures SortedDesc([x] + s)
  {
    var r := [x] + s;
    forall i, j | 0 <= i < j < |r| ensures !Newer(r[j], r[i]) {
      if i == 0 && j > 1 {
        if Newer(r[j], x) {
          NewerSplit(r[j], s[0], x);
        }
      }
    }
  }

  /** `entries.sort(reverse=True)`: newest first. Listing names are distinct,
      so no two entries are equal and the order is fully determined. */
  function SortDesc(s: seq<Entry>): (r: seq<Entry>)
    ensures |r| == |s|
    ensures multiset(r) == multiset(s)
    ensures SortedDesc(r)
  {
    if s == [] then []
    else
      assert s == [s[0]] + s[1..];
      Insert(s[0], SortDesc(s[1..]))
  }

  /** `s[k:]` with Python's meaning for a negative `k`. */
  function PySliceFrom<T>(s: seq<T>, k: int): (r: seq<T>)
    ensures |r| <= |s|
    ensures k >= 0 ==> r == if k <= |s| then s[k..] else []
    ensures forall x :: x in r ==> x in s
  {
    if k >= 0 then (if k <= |s| then s[k..] else [])
    else if |s| + k >= 0 then s[|s| + k..]
    else s
  }

  /** The entries past the `keep` newest. */
  function Doomed(files: seq<BackupFile>, keep: int): seq<Entry> {
    PySliceFrom(SortDesc(Eligible(files)), keep)
  }

  /** The names of `es` that `removable` accepts, in order. */
  function RemovableNames(es: seq<Entry>, removable: string -> bool): (names: seq<string>)
    ensures forall n :: n in names ==> removable(n) && exists e :: e in es && e.1 == n
  {
    if es == [] then []
    else
      var rest := RemovableNames(es[..|es| - 1], removable);
      var e := es[|es| - 1];
      assert forall x :: x in es[..|es| - 1] ==> x in es;
      if removable(e.1) then rest + [e.1] else rest
  }

  /** What `cleanup_bom_backups` removes: nothing when the listing fails,
      otherwise the doomed files whose removal succeeds (a failed `os.remove`
      is logged and skipped). */
  function RemovedBackups(listing: Option<seq<BackupFile>>, keep: int, removable: string -> bool): seq<string> {
    if listing.None? then [] else RemovableNames(Doomed(listing.value, keep), removable)
  }

  /** The `keep` newest candidates, which retention leaves alone. */
  function Kept(files: seq<BackupFile>, keep: nat): seq<Entry> {
    var sorted := SortDesc(Eligible(files));
    if keep <= |sorted| then sorted[..keep] else sorted
  }

  /** Retention splits the candidates, newest first, into the `keep` newest
      (all of them when there are fewer), which stay, and the doomed rest. */
  lemma RetentionSplits(files: seq<BackupFile>, keep: int)
    requires keep >= 1
    ensures |Kept(files, keep)| == if keep <= |Eligible(files)| then keep else |Eligible(files)|
    ensures Kept(files, keep) + Doomed(files, keep) == SortDesc(Eligible(files))
  {
  }

  /** Every doomed candidate is older than every kept one. */
  lemma RetentionKeepsNewest(files: seq<BackupFile>, keep: int)
    requires keep >= 1
    ensures forall i, j :: 0 <= i < |Kept(files, keep)| && 0 <= j < |Doomed(files, keep)| ==>
      !Newer(Doomed(files, keep)[j], Kept(files, keep)[i])
  {
    var sorted := SortDesc(Eligible(files));
    var kept := Kept(files, keep);
    var doomed := Doomed(files, keep);
    forall i, j | 0 <= i < |kept| && 0 <= j < |doomed| ensures !Newer(doomed[j], kept[i]) {
      assert kept[i] == sorted[i] && doomed[j] == sorted[|kept| + j];
    }
  }

  /** Files that are not backups, or whose time could not be read, are never
      removed. */
  lemma RemovedAreCandidates(listing: Option<seq<BackupFile>>, keep: int, removable: string -> bool, name: string)
    requires name in RemovedBackups(listing, keep, removable)
    ensures listing.Some? && exists f :: f in listing.value && f.name == name && IsBackupName(name) && f.mtime.Some?
  {
    var files := listing.value;
    var sorted := SortDesc(Eligible(files));
    var e :| e in Doomed(files, keep) && e.1 == name;
    assert e in multiset(sorted);
    assert e in Eligible(files);
  }

  /** `cleanup_bom_backups(dir, keep)`. */
  method CleanupBomBackups(listing: Option<seq<BackupFile>>, keep: int, removable: string -> bool) returns (removed: seq<string>)
    ensures removed == RemovedBackups(listing, keep, removable)
  {
    if listing.None? {
      return [];
    }
    var files := listing.value;
    var entries: seq<Entry> := [];
    var i := 0;
    while i < |files|
      invariant 0 <= i <= |files|
      invariant entries == Eligible(files[..i])
    {
      assert files[..i + 1][..i] == files[..i];
      var f := files[i];
      if IsBackupName(f.name) && f.mtime.Some? {
        entries := entries + [(f.mtime.value, f.name)];
      }
      i := i + 1;
    }
    assert files[..i] == files;
    var doomed := PySliceFrom(SortDesc(entries), keep);
    removed := [];
    var k := 0;
    while k < |doomed|
      invariant 0 <= k <= |doomed|
      invariant removed == RemovableNames(doomed[..k], removable)
    {
      assert doomed[..k + 1][..k] == doomed[..k];
      if removable(doomed[k].1) {
        removed := removed + [doomed[k].1];
      }
      k := k + 1;
    }
    assert doomed[..k] == doomed;
  }

  /** A backup request: the directory setting, the retention setting, whether
      the `COPY ... TO STDOUT` raises, the directory as listed afterwards, and
      which files `os.remove` can delete. */
  datatype BackupPlan = BackupPlan(
    dir: string, keepSetting: string, copyFails: bool,
    listing: Option<seq<BackupFile>>, removable: string -> bool)

  /** `backup_raw_bom_consumption`: disabled (no path) when the directory
      setting is blank; otherwise a copy of every row's ten data columns
      followed by retention cleanup. */
  method BackupRawBom(table: Table<BomRow>, plan: BackupPlan) returns (r: Result<Option<seq<BomRow>>, SyncError>, removed: seq<string>)
    requires table.Valid()
    ensures Strip(plan.dir) == [] ==> r == Ok(None) && removed == []
    ensures Strip(plan.dir) != [] && plan.copyFails ==> r == Err(BackupFailed) && removed == []
    ensures Strip(plan.dir) != [] && !plan.copyFails ==>
      (r == Ok(Some(table.Data()))
       && removed == RemovedBackups(plan.listing, BackupKeep(plan.keepSetting), plan.removable))
  {
    removed := [];
    if Strip(plan.dir) == [] {
      return Ok(None), [];
    }
    var keep := BackupKeep(plan.keepSetting);
    if plan.copyFails {
      return Err(BackupFailed), [];
    }
    var snapshot := table.Data();
    removed := CleanupBomBackups(plan.listing, keep, plan.removable);
    r := Ok(Some(snapshot));
  }

  /** How a restore goes: `TRUNCATE` raises, `COPY ... FROM STDIN` raises after
      the committed truncate, or both succeed. */
  datatype RestoreOutcome = Restored | RestoreTruncateFails | RestoreCopyFails

  /** `restore_raw_bom_consumption`: truncate, then copy the ten columns back.
      The ids (and `created_at`) are regenerated: every restored row gets an id
      the table never used before. */
  method RestoreRawBom(table: Table<BomRow>, snapshot: seq<BomRow>, outcome: RestoreOutcome) returns (ok: bool)
    requires table.Valid()
    modifies table
    ensures table.Valid() && table.nextId >= old(table.nextId)
    ensures ok <==> outcome == Restored
    ensures outcome == Restored ==>
      (table.Data() == snapshot && forall k :: 0 <= k < |table.rows| ==> table.rows[k].id >= old(table.nextId))
    ensures outcome == RestoreTruncateFails ==> table.rows == old(table.rows)
    ensures outcome == RestoreCopyFails ==> table.rows == []
  {
    if outcome == RestoreTruncateFails {
      return false;
    }
    table.Truncate();
    if outcome == RestoreCopyFails {
      return false;
    }
    var _ := table.Flush(snapshot);
    ok := true;
  }

  /** What the table holds after the failure handler of `full_load_bom`:
      `current` when there is no backup, else what the restore leaves. */
  function AfterFailure(snapshot: Option<seq<BomRow>>, outcome: RestoreOutcome, current: seq<BomRow>): seq<BomRow> {
    if snapshot.None? then current
    else match outcome
      case Restored => snapshot.value
      case RestoreTruncateFails => current
      case RestoreCopyFails => []
  }
}
