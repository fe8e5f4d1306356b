/**
 * The database backup script: a backup is a copy of the database file
 * named after the database and the moment it was taken; after each
 * backup the oldest backups beyond the number to keep are deleted; a
 * restore copies a backup over the database, after a confirmation and
 * after saving the current database beside it.
 *
 * The file system is a sequence of entries in directory-listing order,
 * at most one per path. The formatted clock reading, the user's answer
 * to the prompt and whether a copy or a deletion fails are parameters.
 * `shutil.copy2` copies the modification time along with the contents.
 */
module Backup {
  import opened Wrappers
  import opened Text
  import opened Sorting

  datatype FilePath = FilePath(dir: string, name: string)

  /** A file: where it is, when it was last modified, and what it holds. */
  datatype FileEntry = FileEntry(dir: string, name: string, mtime: int, data: string)

  function PathOf(e: FileEntry): FilePath { FilePath(e.dir, e.name) }

  /** No two entries share a path. */
  predicate UniquePaths(entries: seq<FileEntry>) {
    forall i, j :: 0 <= i < j < |entries| ==> PathOf(entries[i]) != PathOf(entries[j])
  }

  /** The file at a path, if there is one. */
  function FindFile(entries: seq<FileEntry>, p: FilePath): (r: Option<FileEntry>)
    ensures r.Some? <==> exists i :: 0 <= i < |entries| && PathOf(entries[i]) == p
    ensures r.Some? ==> r.value in entries && PathOf(r.value) == p
  {
    if entries == [] then None
    else if PathOf(entries[0]) == p then Some(entries[0])
    else FindFile(entries[1..], p)
  }

  /** The entries after `unlink` of a path. */
  function RemovePath(entries: seq<FileEntry>, p: FilePath): (r: seq<FileEntry>)
    ensures forall x :: x in r <==> x in entries && PathOf(x) != p
    ensures UniquePaths(entries) ==> UniquePaths(r)
  {
    if entries == [] then []
    else
      var rest := RemovePath(entries[1..], p);
      assert forall x :: x in entries <==> x == entries[0] || x in entries[1..];
      if PathOf(entries[0]) == p then rest
      else
        assert UniquePaths(entries) ==> forall x :: x in rest ==> PathOf(x) != PathOf(entries[0]);
        [entries[0]] + rest
  }

  /**
   * `shutil.copy2(src, to)`: the file at `to` now has the source's contents
   * and modification time, replacing any file there; every other path is
   * as it was.
   */
  function CopyTo(entries: seq<FileEntry>, src: FileEntry, to: FilePath): (r: seq<FileEntry>)
    ensures FindFile(r, to) == Some(FileEntry(to.dir, to.name, src.mtime, src.data))
    ensures forall p :: p != to ==> FindFile(r, p) == FindFile(entries, p)
  {
    var copied := FileEntry(to.dir, to.name, src.mtime, src.data);
    if entries == [] then [copied]
    else if PathOf(entries[0]) == to then [copied] + entries[1..]
    else [entries[0]] + CopyTo(entries[1..], src, to)
  }

  /**
   * The copy adds only the copied file, keeps every file at another path,
   * and keeps paths unique.
   */
  lemma {:induction false} CopyToKeeps(entries: seq<FileEntry>, src: FileEntry, to: FilePath)
    ensures forall x :: x in CopyTo(entries, src, to) ==> x == FileEntry(to.dir, to.name, src.mtime, src.data) || x in entries
    ensures forall x :: x in entries && PathOf(x) != to ==> x in CopyTo(entries, src, to)
    ensures UniquePaths(entries) ==> UniquePaths(CopyTo(entries, src, to))
  {
    if entries != [] {
      assert forall x :: x in entries <==> x == entries[0] || x in entries[1..];
      if PathOf(entries[0]) == to {
        assert UniquePaths(entries) ==> forall i :: 0 <= i < |entries[1..]| ==> PathOf(entries[1..][i]) != to;
      } else {
        CopyToKeeps(entries[1..], src, to);
        var rest := CopyTo(entries[1..], src, to);
        assert UniquePaths(entries) ==> forall x :: x in rest ==> PathOf(x) != PathOf(entries[0]);
      }
    }
  }

  /** The directory of files the script works on. */
  class FileSystem {
    var entries: seq<FileEntry>

    ghost predicate Valid()
      reads this
    {
      UniquePaths(entries)
    }

    constructor(initial: seq<FileEntry>)
      requires UniquePaths(initial)
      ensures entries == initial && Valid()
    {
      entries := initial;
    }

    /** `shutil.copy2(src, to)`: the target path now holds the source's contents and modification time. */
    method Copy(src: FileEntry, to: FilePath)
      requires Valid()
      modifies this
      ensures Valid()
      ensures entries == CopyTo(old(entries), src, to)
    {
      CopyToKeeps(entries, src, to);
      entries := CopyTo(entries, src, to);
    }
  }

  // ------------------------------------------------------------------ naming

  /** Position of the last `c` in `s`, as `str.rfind`. */
  function LastIndexOf(s: string, c: char): (r: Option<nat>)
    ensures r.None? <==> c !in s
    ensures r.Some? ==> r.value < |s| && s[r.value] == c && c !in s[r.value + 1..]
  {
    if s == [] then None
    else if s[|s| - 1] == c then Some(|s| - 1)
    else
      var r := LastIndexOf(s[..|s| - 1], c);
      assert forall k :: 0 <= k < |s| - 1 ==> s[..|s| - 1][k] == s[k];
      r
  }

  /**
   * `Path(name).stem`: the name without its suffix, where the suffix is the
   * part from the last dot, and only when that dot is neither the first
   * nor the last character.
   */
  function Stem(name: string): (r: string)
    ensures |r| <= |name| && name[..|r|] == r
    ensures r != name ==> 0 < |r| < |name| - 1 && name[|r|] == '.' && '.' !in name[|r| + 1..]
    ensures '.' !in name ==> r == name
  {
    match LastIndexOf(name, '.')
    case None => name
    case Some(i) => if 0 < i < |name| - 1 then name[..i] else name
  }

  const BACKUP_INFIX: string := "_backup_"
  const BACKUP_SUFFIX: string := ".db"

  /** `f"{db_name}_backup_{timestamp}.db"` for the database's file name. */
  function BackupName(dbFile: string, timestamp: string): string {
    Stem(dbFile) + BACKUP_INFIX + timestamp + BACKUP_SUFFIX
  }

  /** The glob `f"{stem}_backup_*.db"`. */
  predicate MatchesBackup(name: string, stem: string) {
    && StartsWith(name, stem + BACKUP_INFIX)
    && EndsWith(name, BACKUP_SUFFIX)
    && |stem + BACKUP_INFIX| + |BACKUP_SUFFIX| <= |name|
  }

  /** Every backup the script names is one its cleanup counts. */
  lemma BackupNameMatches(dbFile: string, timestamp: string)
    ensures MatchesBackup(BackupName(dbFile, timestamp), Stem(dbFile))
  {
    var name := BackupName(dbFile, timestamp);
    assert name[..|Stem(dbFile) + BACKUP_INFIX|] == Stem(dbFile) + BACKUP_INFIX;
    assert name[|name| - |BACKUP_SUFFIX|..] == BACKUP_SUFFIX;
  }

  /** Backups taken at different moments have different names; backups taken within the same second share one. */
  lemma BackupNamesDiffer(dbFile: string, t1: string, t2: string)
    ensures BackupName(dbFile, t1) == BackupName(dbFile, t2) <==> t1 == t2
  {
    var pre := Stem(dbFile) + BACKUP_INFIX;
    if BackupName(dbFile, t1) == BackupName(dbFile, t2) {
      var a, b := BackupName(dbFile, t1), BackupName(dbFile, t2);
      assert |t1| == |t2|;
      assert a[|pre|..|pre| + |t1|] == t1;
      assert b[|pre|..|pre| + |t2|] == t2;
    }
  }

  // ------------------------------------------------------------------ cleanup

  predicate IsBackupIn(x: FileEntry, dir: string, stem: string) {
    x.dir == dir && MatchesBackup(x.name, stem)
  }

  /** `output_dir.glob(pattern)`, in listing order. */
  function BackupsIn(entries: seq<FileEntry>, dir: string, stem: string): (r: seq<FileEntry>)
    ensures |r| <= |entries|
    ensures forall x :: x in r <==> x in entries && IsBackupIn(x, dir, stem)
    ensures UniquePaths(entries) ==> UniquePaths(r)
  {
    if entries == [] then []
    else
      var rest := BackupsIn(entries[1..], dir, stem);
      assert forall x :: x in entries <==> x == entries[0] || x in entries[1..];
      if IsBackupIn(entries[0], dir, stem) then
        assert UniquePaths(entries) ==> forall x :: x in rest ==> PathOf(x) != PathOf(entries[0]);
        [entries[0]] + rest
      else rest
  }

  /** The order of `sort(key=mtime, reverse=True)`: newest first. */
  predicate NewerOrSame(a: FileEntry, b: FileEntry) { a.mtime >= b.mtime }

  lemma NewerOrSameOrders()
    ensures TotalPreorder(NewerOrSame)
  {
  }

  function NewestFirst(backups: seq<FileEntry>): seq<FileEntry> {
    Sort(backups, NewerOrSame)
  }

  /** Python's `s[k:]`, where a negative `k` counts from the end. */
  function SliceFrom<T>(s: seq<T>, k: int): (r: seq<T>)
    ensures 0 <= k <= |s| ==> r == s[k..]
    ensures |s| < k ==> r == []
    ensures k < 0 ==> r == s[if |s| + k < 0 then 0 else |s| + k..]
  {
    if 0 <= k then (if k <= |s| then s[k..] else [])
    else if |s| + k < 0 then s
    else s[|s| + k..]
  }

  /** The backups `cleanup_old_backups` tries to delete: past the first `keep` of the newest-first order. */
  function Victims(entries: seq<FileEntry>, dir: string, stem: string, keep: int): seq<FileEntry> {
    var sorted := NewestFirst(BackupsIn(entries, dir, stem));
    if |sorted| > keep then SliceFrom(sorted, keep) else []
  }

  /** Deleting the victims in order; a deletion that fails is skipped and the next one tried. */
  function Pruned(entries: seq<FileEntry>, victims: seq<FileEntry>, unlinkFails: FilePath -> bool): seq<FileEntry>
    decreases |victims|
  {
    if victims == [] then entries
    else
      var p := PathOf(victims[0]);
      Pruned(if unlinkFails(p) then entries else RemovePath(entries, p), victims[1..], unlinkFails)
  }

  /** Some victim at this path was deleted. */
  predicate Deleted(victims: seq<FileEntry>, unlinkFails: FilePath -> bool, p: FilePath) {
    exists i :: 0 <= i < |victims| && PathOf(victims[i]) == p && !unlinkFails(p)
  }

  /**
   * A file survives the cleanup exactly when no victim at its path was
   * deleted: one failed deletion does not stop the others.
   */
  lemma {:induction false} PrunedExactly(entries: seq<FileEntry>, victims: seq<FileEntry>, unlinkFails: FilePath -> bool)
    ensures forall x :: x in Pruned(entries, victims, unlinkFails) <==>
      x in entries && !Deleted(victims, unlinkFails, PathOf(x))
    ensures UniquePaths(entries) ==> UniquePaths(Pruned(entries, victims, unlinkFails))
    decreases |victims|
  {
    if victims != [] {
      var p := PathOf(victims[0]);
      var next := if unlinkFails(p) then entries else RemovePath(entries, p);
      PrunedExactly(next, victims[1..], unlinkFails);
      forall x
        ensures Deleted(victims, unlinkFails, PathOf(x)) <==>
          (PathOf(x) == p && !unlinkFails(p)) || Deleted(victims[1..], unlinkFails, PathOf(x))
      {
        if Deleted(victims, unlinkFails, PathOf(x)) {
          var i :| 0 <= i < |victims| && PathOf(victims[i]) == PathOf(x) && !unlinkFails(PathOf(x));
          if i > 0 {
            assert victims[1..][i - 1] == victims[i];
          }
        }
        if Deleted(victims[1..], unlinkFails, PathOf(x)) {
          var i :| 0 <= i < |victims[1..]| && PathOf(victims[1..][i]) == PathOf(x) && !unlinkFails(PathOf(x));
          assert victims[i + 1] == victims[1..][i];
        }
      }
    }
  }

  /**
   * `cleanup_old_backups`: list the backups of the database in the
   * directory, sort them newest first, and when there are more than
   * `keep`, delete those past the first `keep`, going on after a failed
   * deletion.
   */
  method CleanupOldBackups(fs: FileSystem, dir: string, stem: string, keep: int, unlinkFails: FilePath -> bool)
    requires fs.Valid()
    modifies fs
    ensures fs.Valid()
    ensures fs.entries == Pruned(old(fs.entries), Victims(old(fs.entries), dir, stem, keep), unlinkFails)
  {
    var backups := BackupsIn(fs.entries, dir, stem);
    var sorted := Sort(backups, NewerOrSame);
    ghost var victims := Victims(fs.entries, dir, stem, keep);
    ghost var target := Pruned(fs.entries, victims, unlinkFails);
    PrunedExactly(fs.entries, victims, unlinkFails);
    if |sorted| > keep {
      var old_ := SliceFrom(sorted, keep);
      assert old_ == victims;
      var i := 0;
      while i < |old_|
        invariant 0 <= i <= |old_|
        invariant Pruned(fs.entries, old_[i..], unlinkFails) == target
        invariant UniquePaths(fs.entries)
      {
        var p := PathOf(old_[i]);
        assert old_[i..][1..] == old_[i + 1..];
        if !unlinkFails(p) {
          fs.entries := RemovePath(fs.entries, p);
        }
        i := i + 1;
      }
    }
  }

  /** With at most `keep` backups nothing is deleted. */
  lemma FewBackupsKept(entries: seq<FileEntry>, dir: string, stem: string, keep: int, unlinkFails: FilePath -> bool)
    requires |BackupsIn(entries, dir, stem)| <= keep
    ensures Pruned(entries, Victims(entries, dir, stem, keep), unlinkFails) == entries
  {
  }

  /** Files that are not backups of this database in this directory are never touched. */
  lemma OtherFilesKept(entries: seq<FileEntry>, dir: string, stem: string, keep: int, unlinkFails: FilePath -> bool, x: FileEntry)
    requires x in entries && !IsBackupIn(x, dir, stem)
    ensures x in Pruned(entries, Victims(entries, dir, stem, keep), unlinkFails)
  {
    var sorted := NewestFirst(BackupsIn(entries, dir, stem));
    var victims := Victims(entries, dir, stem, keep);
    PrunedExactly(entries, victims, unlinkFails);
    forall i | 0 <= i < |victims|
      ensures PathOf(victims[i]) != PathOf(x)
    {
      assert victims[i] in sorted;
      SortSameElements(BackupsIn(entries, dir, stem), NewerOrSame, victims[i]);
    }
  }

  /** Two equal elements at two positions count twice. */
  lemma TwiceCounted<T>(s: seq<T>, i: int, j: int)
    requires 0 <= i < j < |s| && s[i] == s[j]
    ensures multiset(s)[s[i]] >= 2
  {
    assert s == s[..j] + [s[j]] + s[j + 1..];
    assert s[i] in s[..j];
  }

  /** With unique paths, no file is listed twice. */
  lemma {:induction false} UniqueCountsOnce(s: seq<FileEntry>, x: FileEntry)
    requires UniquePaths(s)
    ensures multiset(s)[x] <= 1
  {
    if s != [] {
      assert s == [s[0]] + s[1..];
      UniqueCountsOnce(s[1..], x);
      if s[0] == x {
        forall k | 0 <= k < |s[1..]|
          ensures s[1..][k] != x
        {
          assert s[1..][k] == s[k + 1];
        }
      }
    }
  }

  /** Reordering keeps paths unique. */
  lemma UniqueUnderReorder(s: seq<FileEntry>, t: seq<FileEntry>)
    requires multiset(s) == multiset(t) && UniquePaths(s)
    ensures UniquePaths(t)
  {
    forall i, j | 0 <= i < j < |t|
      ensures PathOf(t[i]) != PathOf(t[j])
    {
      if t[i] == t[j] {
        TwiceCounted(t, i, j);
        UniqueCountsOnce(s, t[i]);
      } else {
        assert t[i] in multiset(s) && t[j] in multiset(s);
        var a :| 0 <= a < |s| && s[a] == t[i];
        var b :| 0 <= b < |s| && s[b] == t[j];
      }
    }
  }

  /**
   * The `keep` newest backups survive the cleanup, and every backup it
   * deletes is no newer than each of them.
   */
  lemma NewestKept(entries: seq<FileEntry>, dir: string, stem: string, keep: int, unlinkFails: FilePath -> bool, k: int)
    requires UniquePaths(entries)
    requires 0 <= k < keep && k < |NewestFirst(BackupsIn(entries, dir, stem))|
    ensures var sorted := NewestFirst(BackupsIn(entries, dir, stem));
      && sorted[k] in Pruned(entries, Victims(entries, dir, stem, keep), unlinkFails)
      && forall v :: v in Victims(entries, dir, stem, keep) ==> v.mtime <= sorted[k].mtime
  {
    var backups := BackupsIn(entries, dir, stem);
    var sorted := NewestFirst(backups);
    var victims := Victims(entries, dir, stem, keep);
    var x := sorted[k];
    assert forall i :: 0 <= i < |victims| ==> victims[i] == sorted[keep + i];
    assert SortedBy(sorted, NewerOrSame) by {
      NewerOrSameOrders();
      SortSorted(backups, NewerOrSame);
    }
    assert forall i :: 0 <= i < |victims| ==> PathOf(victims[i]) != PathOf(x) by {
      assert UniquePaths(sorted) by { UniqueUnderReorder(backups, sorted); }
    }
    assert x in entries by { SortSameElements(backups, NewerOrSame, x); }
    assert !Deleted(victims, unlinkFails, PathOf(x));
    assert x in Pruned(entries, victims, unlinkFails) by { PrunedExactly(entries, victims, unlinkFails); }
  }

  // ------------------------------------------------------------------ create

  /** How a run of the script ended. */
  datatype CreateOutcome = Created(path: string) | DatabaseMissing | CopyFailed

  /** The path string `str(output_path / backup_name)`. */
  function JoinPath(dir: string, name: string): string { dir + "/" + name }

  /** The files after a backup is copied, before the cleanup. */
  function WithBackup(entries: seq<FileEntry>, db: FilePath, outputDir: string, timestamp: string): seq<FileEntry>
    requires FindFile(entries, db).Some?
  {
    CopyTo(entries, FindFile(entries, db).value, FilePath(outputDir, BackupName(db.name, timestamp)))
  }

  /**
   * `create_backup`: a missing database or a failed copy ends the script
   * with nothing changed; otherwise the database is copied under its
   * backup name, and with a positive `keep` the old backups are cleaned.
   */
  method CreateBackup(fs: FileSystem, db: FilePath, outputDir: string, keep: int, timestamp: string,
                      copyOk: bool, unlinkFails: FilePath -> bool) returns (outcome: CreateOutcome)
    requires fs.Valid()
    modifies fs
    ensures fs.Valid()
    ensures FindFile(old(fs.entries), db).None? ==> outcome == DatabaseMissing && fs.entries == old(fs.entries)
    ensures FindFile(old(fs.entries), db).Some? && !copyOk ==> outcome == CopyFailed && fs.entries == old(fs.entries)
    ensures FindFile(old(fs.entries), db).Some? && copyOk ==>
      var copied := WithBackup(old(fs.entries), db, outputDir, timestamp);
      && outcome == Created(JoinPath(outputDir, BackupName(db.name, timestamp)))
      && fs.entries == (if keep > 0 then Pruned(copied, Victims(copied, outputDir, Stem(db.name), keep), unlinkFails)
                        else copied)
  {
    var source := FindFile(fs.entries, db);
    if source.None? {
      return DatabaseMissing;
    }
    var name := BackupName(db.name, timestamp);
    if !copyOk {
      return CopyFailed;
    }
    fs.Copy(source.value, FilePath(outputDir, name));
    if keep > 0 {
      CleanupOldBackups(fs, outputDir, Stem(db.name), keep, unlinkFails);
    }
    return Created(JoinPath(outputDir, name));
  }

  /**
   * When every other backup there is older than the database file, the new
   * backup, which keeps the database's modification time, comes first
   * among the backups sorted newest first.
   */
  lemma NewBackupNewest(entries: seq<FileEntry>, db: FilePath, outputDir: string, timestamp: string)
    requires UniquePaths(entries) && FindFile(entries, db).Some?
    requires forall x :: (x in entries && IsBackupIn(x, outputDir, Stem(db.name)) && x.name != BackupName(db.name, timestamp)
                          ==> x.mtime < FindFile(entries, db).value.mtime)
    ensures var sorted := NewestFirst(BackupsIn(WithBackup(entries, db, outputDir, timestamp), outputDir, Stem(db.name)));
      && sorted != []
      && sorted[0] == FileEntry(outputDir, BackupName(db.name, timestamp), FindFile(entries, db).value.mtime,
                                FindFile(entries, db).value.data)
  {
    var src := FindFile(entries, db).value;
    var name := BackupName(db.name, timestamp);
    var copied := WithBackup(entries, db, outputDir, timestamp);
    var backup := FileEntry(outputDir, name, src.mtime, src.data);
    var backups := BackupsIn(copied, outputDir, Stem(db.name));
    var sorted := NewestFirst(backups);
    BackupNameMatches(db.name, timestamp);
    CopyToKeeps(entries, src, FilePath(outputDir, name));
    assert backup in copied by {
      assert FindFile(copied, FilePath(outputDir, name)) == Some(backup);
    }
    SortSameElements(backups, NewerOrSame, backup);
    var k :| 0 <= k < |sorted| && sorted[k] == backup;
    NewerOrSameOrders();
    SortSorted(backups, NewerOrSame);
    if k > 0 {
      SortSameElements(backups, NewerOrSame, sorted[0]);
      assert sorted[0].mtime >= backup.mtime;
      assert sorted[0] in copied && IsBackupIn(sorted[0], outputDir, Stem(db.name));
      if sorted[0].name == name {
        UniqueUnderReorder(backups, sorted);
      }
    }
  }

  /**
   * The new backup holds the database's contents, and it survives its own
   * cleanup when every other backup there is older than the database file
   * (the copy keeps the database's modification time).
   */
  lemma NewBackupSurvives(entries: seq<FileEntry>, db: FilePath, outputDir: string, keep: int, timestamp: string,
                          unlinkFails: FilePath -> bool)
    requires UniquePaths(entries) && FindFile(entries, db).Some? && keep > 0
    requires forall x :: (x in entries && IsBackupIn(x, outputDir, Stem(db.name)) && x.name != BackupName(db.name, timestamp)
                          ==> x.mtime < FindFile(entries, db).value.mtime)
    ensures var copied := WithBackup(entries, db, outputDir, timestamp);
      var backup := FileEntry(outputDir, BackupName(db.name, timestamp), FindFile(entries, db).value.mtime,
                              FindFile(entries, db).value.data);
      backup in Pruned(copied, Victims(copied, outputDir, Stem(db.name), keep), unlinkFails)
  {
    var src := FindFile(entries, db).value;
    var copied := WithBackup(entries, db, outputDir, timestamp);
    CopyToKeeps(entries, src, FilePath(outputDir, BackupName(db.name, timestamp)));
    NewBackupNewest(entries, db, outputDir, timestamp);
    NewestKept(copied, outputDir, Stem(db.name), keep, unlinkFails, 0);
  }

  // ------------------------------------------------------------------ restore

  /** How a restore ended. */
  datatype RestoreOutcome = BackupNotFound | Cancelled | Restored | RestoreFailed

  /** The answer `response.lower() == 'y'`. */
  predicate ConfirmedYes(response: string) { response == "y" || response == "Y" }

  /** The path `f"{db_path}.pre_restore"`. */
  function PreRestorePath(db: FilePath): FilePath { FilePath(db.dir, db.name + ".pre_restore") }

  /**
   * `restore_backup`: a missing backup ends the script; over an existing
   * database, without `force` and without a 'y', nothing happens; otherwise
   * an existing database is first copied to its pre-restore path, then the
   * backup is copied over the database, which may fail.
   */
  method RestoreBackup(fs: FileSystem, backup: FilePath, db: FilePath, force: bool, response: string, copyOk: bool)
    returns (outcome: RestoreOutcome)
    requires fs.Valid()
    modifies fs
    ensures fs.Valid()
    ensures outcome == RestoreOutcomeOf(old(fs.entries), backup, db, force, response, copyOk)
    ensures fs.entries == RestoredEntries(old(fs.entries), backup, db, force, response, copyOk)
  {
    if FindFile(fs.entries, backup).None? {
      return BackupNotFound;
    }
    var current := FindFile(fs.entries, db);
    if current.Some? && !force {
      if !(response == "y" || response == "Y") {
        return Cancelled;
      }
    }
    outcome := SaveAndRestore(fs, backup, db, copyOk);
  }

  /**
   * The second half of `restore_backup`, once the prompt is passed: an
   * existing database is copied to its pre-restore path, then the backup
   * is copied over the database, which may fail.
   */
  method SaveAndRestore(fs: FileSystem, backup: FilePath, db: FilePath, copyOk: bool) returns (outcome: RestoreOutcome)
    requires fs.Valid() && FindFile(fs.entries, backup).Some?
    modifies fs
    ensures fs.Valid()
    ensures outcome == (if copyOk then Restored else RestoreFailed)
    ensures var saved := Saved(old(fs.entries), db);
      fs.entries == if copyOk then CopyTo(saved, FindFile(saved, backup).value, db) else saved
  {
    ghost var before := fs.entries;
    var current := FindFile(fs.entries, db);
    if current.Some? {
      fs.Copy(current.value, PreRestorePath(db));
    }
    assert fs.entries == Saved(before, db);
    if !copyOk {
      return RestoreFailed;
    }
    var source := FindFile(fs.entries, backup);
    assert source.Some? by {
      SavedKeepsBackup(before, backup, db);
    }
    fs.Copy(source.value, db);
    return Restored;
  }

  /** The pre-restore copy leaves a file at the backup's path. */
  lemma SavedKeepsBackup(entries: seq<FileEntry>, backup: FilePath, db: FilePath)
    requires FindFile(entries, backup).Some?
    ensures FindFile(Saved(entries, db), backup).Some?
  {
  }

  function RestoreOutcomeOf(entries: seq<FileEntry>, backup: FilePath, db: FilePath, force: bool, response: string,
                            copyOk: bool): RestoreOutcome {
    if FindFile(entries, backup).None? then BackupNotFound
    else if FindFile(entries, db).Some? && !force && !ConfirmedYes(response) then Cancelled
    else if !copyOk then RestoreFailed
    else Restored
  }

  /** The files after the pre-restore copy, when there was a database to copy. */
  function Saved(entries: seq<FileEntry>, db: FilePath): seq<FileEntry> {
    match FindFile(entries, db)
    case None => entries
    case Some(current) => CopyTo(entries, current, PreRestorePath(db))
  }

  function RestoredEntries(entries: seq<FileEntry>, backup: FilePath, db: FilePath, force: bool, response: string,
                           copyOk: bool): seq<FileEntry> {
    match RestoreOutcomeOf(entries, backup, db, force, response, copyOk)
    case BackupNotFound => entries
    case Cancelled => entries
    case RestoreFailed => Saved(entries, db)
    case Restored =>
      var saved := Saved(entries, db);
      CopyTo(saved, FindFile(saved, backup).value, db)
  }

  /**
   * A restore never loses the database it replaces: whenever it changed
   * anything, the old database's contents are at the pre-restore path,
   * and after a successful restore the database holds the backup's
   * contents (unless the backup was the pre-restore file itself).
   */
  lemma RestoreKeepsPrevious(entries: seq<FileEntry>, backup: FilePath, db: FilePath, force: bool, response: string,
                             copyOk: bool)
    requires db != PreRestorePath(db)
    ensures var r := RestoredEntries(entries, backup, db, force, response, copyOk);
      var outcome := RestoreOutcomeOf(entries, backup, db, force, response, copyOk);
      && (outcome == BackupNotFound || outcome == Cancelled ==> r == entries)
      && (outcome == Cancelled <==>
            FindFile(entries, backup).Some? && FindFile(entries, db).Some? && !force && !ConfirmedYes(response))
      && (FindFile(entries, db).Some? && (outcome == Restored || outcome == RestoreFailed) ==>
            FindFile(r, PreRestorePath(db)).Some? && FindFile(r, PreRestorePath(db)).value.data == FindFile(entries, db).value.data)
      && (outcome == Restored && backup != PreRestorePath(db) ==>
            FindFile(r, db).Some? && FindFile(r, db).value.data == FindFile(entries, backup).value.data)
  {
    var outcome := RestoreOutcomeOf(entries, backup, db, force, response, copyOk);
    var saved := Saved(entries, db);
    if outcome == Restored && backup != PreRestorePath(db) {
      assert FindFile(saved, backup) == FindFile(entries, backup);
    }
  }
}
