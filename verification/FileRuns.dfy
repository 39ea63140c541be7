/** Main results about the file system: writes, deletes, remounts, power failures. */
module FileRuns {
  import opened Words
  import opened Bitmap
  import opened Spmm
  import opened Volume
  import opened FileSystem
  import opened Integrity
  import opened Options

  /** A write for which the table has a stored slot. */
  ghost predicate Storable(v: Vol, path: Bytes, data: Bytes) {
    GoodPath(path) && |data| < TWO31 && WriteSlot(v, path) < STORED
  }

  lemma WriteJob(v: Vol, path: Bytes, data: Bytes)
    requires Safe(v) && Storable(v, path, data)
    ensures v.sp.total <= 64 * |v.sp.words|
    ensures var j := JobOf(v, path, data);
            && j.v == v && j.path == path && j.data == data && j.slot == WriteSlot(v, path)
            && Replaces(v, j.slot, path, j.sp) && j.sp == Released(v, path)
            && (j.start != 0 ==> Allocated(j))
  {
    hide GetBit, CStr, Counted, Replaces, FindSlot, FreeSlot, BlocksFor, AllocRun, BitmapSectors, Extents, Distinct, Marked, Synced;
    SafeShape(v);
    SafeCounted(v);
    CountedCovers(v.sp);
    if FindSlot(v.table, path, 0) == MAX_FILES {
      ReplacesNew(v, path);
    } else {
      ReplacesOld(v, path);
    }
    var j := JobOf(v, path, data);
    if j.start != 0 {
      FreshExtent(v, j.slot, path, j.sp, BlocksFor(|data|));
    }
  }

  lemma SafeCounted(v: Vol)
    requires Safe(v)
    ensures Counted(v.sp)
  {
  }

  // ----- write -----

  /** All sector writes done: the last stage. */
  lemma WriteIsFinished(v: Vol, path: Bytes, data: Bytes)
    requires Safe(v) && Storable(v, path, data) && Shaped(v) && WriteFile(v, path, data).code == 0
    requires v.sp.total <= 64 * |v.sp.words|
    ensures var j := JobOf(v, path, data);
            && Allocated(j)
            && WriteFile(v, path, data).vol
               == Finished(j, JobDisk(j, Blocks(j), BitmapSectors(v.sp.total), 8), JobTable(j))
  {
    hide Safe, GetBit, CStr, Counted, Replaces, FindSlot, FreeSlot, BlocksFor, AllocRun, BitmapSectors, ApplyWrites, Stage, DataImage, BitmapImage, TableImage;
    WriteJob(v, path, data);
    var j := JobOf(v, path, data);
    JobFacts(j);
    SafeShape(v);
    var n := BitmapSectors(v.sp.total);
    var D, B, T := DataOf(j), BitmapImage(j.sp2.words, n), TableImage(JobTable(j));
    var log := Writes(j.start, D) + Writes(1, B) + Writes(TableStart(v.sp.total), T);
    assert log[..|log|] == log;
    var a, b, c := PrefixStage(v.disk, v.sp.total, j.start, D, B, T, |log|);
  }

  /** A successful write stores exactly the data under the path, leaves every other
      file as it was, keeps the volume safe and leaks no block. */
  lemma WriteRefines(v: Vol, path: Bytes, data: Bytes)
    requires Safe(v) && Shaped(v) && Storable(v, path, data) && WriteFile(v, path, data).code == 0
    ensures var v' := WriteFile(v, path, data).vol;
            && Safe(v') && v'.sp.total == v.sp.total
            && (forall q :: Lookup(v', q) == if q == path then Some(data) else Lookup(v, q))
            && (NoLeaks(v) ==> NoLeaks(v'))
  {
    hide Safe, Shaped, GetBit, CStr, Counted, Replaces, FindSlot, FreeSlot, BlocksFor, AllocRun, BitmapSectors, WriteFile, JobDisk, Lookup, Allocated, NoLeaks;
    WriteJob(v, path, data);
    WriteIsFinished(v, path, data);
    var j := JobOf(v, path, data);
    FinishedSafe(j);
    JobFacts(j);
    forall q: Bytes
      ensures Lookup(WriteFile(v, path, data).vol, q) == if q == path then Some(data) else Lookup(v, q)
    {
      JobLookup(j, q);
    }
    if NoLeaks(v) { WriteLeaksNothing(v, path, data); }
  }

  lemma ReleasedBits(v: Vol, path: Bytes, b: nat)
    requires Safe(v) && NoLeaks(v) && v.sp.total <= 64 * |v.sp.words| && b < v.sp.total && GetBit(Released(v, path).words, b)
    ensures b < DataStart(v.sp.total) || exists i :: 0 <= i < STORED && i != FindSlot(v.table, path, 0) && Owns(v.table[i], b)
  {
    hide GetBit, CStr, BitmapSectors, Synced, Marked, Distinct, FreeRun;
    var s := FindSlot(v.table, path, 0);
    if s < MAX_FILES {
      assert s < STORED;
      SafeEntry(v, s);
      FreeRunFacts(v.sp, v.table[s].start, v.table[s].count);
    }
    if b >= DataStart(v.sp.total) {
      assert Owned(v.table, b);
      var i :| 0 <= i < STORED && Owns(v.table[i], b);
      assert i != s;
    }
  }

  lemma WriteLeaksNothing(v: Vol, path: Bytes, data: Bytes)
    requires Safe(v) && Shaped(v) && Storable(v, path, data) && WriteFile(v, path, data).code == 0 && NoLeaks(v)
    ensures NoLeaks(WriteFile(v, path, data).vol)
  {
    hide Safe, Shaped, GetBit, CStr, Counted, Replaces, FindSlot, FreeSlot, BlocksFor, AllocRun, BitmapSectors, WriteFile, JobDisk, Allocated, NoLeaks, Released;
    WriteJob(v, path, data);
    WriteIsFinished(v, path, data);
    var j := JobOf(v, path, data);
    JobFacts(j);
    AllocatedSlot(j);
    SlotName(j);
    var v' := WriteFile(v, path, data).vol;
    forall b: nat | b < v'.sp.total && GetBit(v'.sp.words, b)
      ensures b < DataStart(v'.sp.total) || Owned(v'.table, b)
    {
      if j.start <= b < j.start + Blocks(j) {
        assert Owns(v'.table[j.slot], b);
      } else {
        ReleasedBits(v, path, b);
        if b >= DataStart(v.sp.total) {
          var i :| 0 <= i < STORED && i != FindSlot(v.table, path, 0) && Owns(v.table[i], b);
          assert i != j.slot by { WriteSlotDead(v, path, i); }
          assert Owns(v'.table[i], b);
        }
      }
    }
    assert NoLeaks(v') by { NoLeaksIs(v'); }
  }

  lemma WriteSlotDead(v: Vol, path: Bytes, i: nat)
    requires i < STORED && Live(v.table[i]) && i != FindSlot(v.table, path, 0)
    ensures i != WriteSlot(v, path)
  {
    hide FindSlot, FreeSlot;
  }

  lemma NoLeaksIs(v: Vol)
    requires forall b: nat :: b < v.sp.total && GetBit(v.sp.words, b) ==> b < DataStart(v.sp.total) || Owned(v.table, b)
    ensures NoLeaks(v)
  {
  }

  /** Which failures a write can report, and that they change nothing for a name
      that did not exist. */
  lemma WriteFailures(v: Vol, path: Bytes, data: Bytes)
    requires Safe(v) && Shaped(v) && |data| < TWO31
    ensures var r := WriteFile(v, path, data);
            && (r.code == 0 || r.code == -2 || r.code == -3)
            && (r.code == -2 <==> WriteSlot(v, path) == MAX_FILES)
            && (r.code != 0 ==> r.log == [] && r.vol.disk == v.disk && r.vol.table == v.table)
            && (r.code != 0 && Lookup(v, path).None? ==> r.vol == v)
            && (r.code == -3 && Lookup(v, path).None? ==>
                  forall t: nat :: 1 <= t && t + BlocksFor(|data|) <= v.sp.total ==> !RunClear(v.sp.words, t, BlocksFor(|data|)))
  {
    hide Safe, FileBytes, CStr, FindSlot, FreeSlot, BlocksFor, BitmapSectors, AllocRun, ApplyWrites, RunClear;
    SafeCounted(v);
    AllocRunComplete(v.sp, BlocksFor(|data|));
  }

  /** Rewriting a file in no more blocks than it holds never reports a full disk. */
  lemma RewriteNeverFull(v: Vol, path: Bytes, data: Bytes)
    requires Safe(v) && Shaped(v) && |data| < TWO31
    requires FindSlot(v.table, path, 0) < MAX_FILES && BlocksFor(|data|) <= v.table[FindSlot(v.table, path, 0)].count
    ensures WriteFile(v, path, data).code == 0
  {
    hide CStr, FindSlot, FreeSlot, BlocksFor, BitmapSectors, AllocRun, ApplyWrites, Synced, Distinct, Marked, GetBit;
    var s := FindSlot(v.table, path, 0);
    assert s < STORED;
    SafeEntry(v, s);
    FreedRunFits(v.sp, v.table[s].start, v.table[s].count, BlocksFor(|data|));
  }

  /** A write that finds no room keeps the volume safe exactly when the name is new:
      the blocks of an old file have been released before the search and stay
      released although the file is still listed. */
  lemma FailedWriteSafe(v: Vol, path: Bytes, data: Bytes)
    requires Safe(v) && Shaped(v) && |data| < TWO31 && WriteFile(v, path, data).code == -3
    ensures Safe(WriteFile(v, path, data).vol) <==> FindSlot(v.table, path, 0) == MAX_FILES
  {
    hide CStr, FindSlot, FreeSlot, BlocksFor, BitmapSectors, AllocRun, ApplyWrites, Synced, Distinct, GetBit, Counted;
    var s, v' := FindSlot(v.table, path, 0), WriteFile(v, path, data).vol;
    if s < MAX_FILES {
      assert s < STORED;
      SafeEntry(v, s);
      SafeCounted(v);
      var e := v.table[s];
      FreeRunFacts(v.sp, e.start, e.count);
      assert Owns(v'.table[s], e.start);
      assert !GetBit(v'.sp.words, e.start);
    } else {
      assert v' == v;
    }
  }

  // ----- entries beyond the stored ones -----

  /** The eight table sectors hold 60 entries: a file that gets a slot behind them is
      gone after the next mount. */
  lemma UnstoredVanishes(v: Vol, path: Bytes, data: Bytes, ram: Table)
    requires Safe(v) && Shaped(v) && |data| < TWO31 && WriteFile(v, path, data).code == 0 && TailDead(ram)
    requires WriteSlot(v, path) >= STORED
    ensures var d := WriteFile(v, path, data).vol.disk;
            |d| == v.sp.total && Lookup(Mount(d, v.sp.total, ram), path) == None
  {
    hide CStr, Safe, ApplyWrites, Stage, DataImage, BitmapImage, TableImage, AllocRun, BitmapSectors, GetBit, FileBytes,
         NewEntry, LoadedTable, DiskEntry, BlocksFor, FindSlot, FreeSlot, DataStart, TableStart;
    var total, n, slot := v.sp.total, BlocksFor(|data|), WriteSlot(v, path);
    assert FindSlot(v.table, path, 0) == MAX_FILES;
    var (start, sp2) := AllocRun(v.sp, n);
    FirstBlock(v, n);
    var t2 := v.table[slot := NewEntry(v.table[slot], path, |data|, start, n)];
    var D, B, T := DataImage(data, n), BitmapImage(sp2.words, BitmapSectors(total)), TableImage(t2);
    ImageSizes(data, n, sp2.words, BitmapSectors(total), t2);
    TableRoom(total);
    var log := WriteLog(total, start, data, sp2.words, t2);
    assert log[..|log|] == log;
    var a, b, c := PrefixStage(v.disk, total, start, D, B, T, |log|);
    StageFacts(v.disk, total, start, D, B, T, a, b, c);
    var d := ApplyWrites(v.disk, log);
    forall i | 0 <= i < STORED ensures DiskEntry(d, TableStart(total), i) == v.table[i] {
      StageEntrySame(v.disk, d, TableStart(total), t2, 8, i);
    }
    var v' := Mount(d, total, ram);
    assert forall i :: 0 <= i < STORED ==> v'.table[i] == v.table[i];
    assert FindSlot(v'.table, path, 0) == MAX_FILES;
  }

  lemma TableRoom(total: nat)
    ensures TableStart(total) + TABLE_SECTORS == DataStart(total) && 1 + BitmapSectors(total) == TableStart(total)
  {
  }

  lemma ImageSizes(data: Bytes, n: nat, words: seq<word>, k: nat, t: Table)
    requires 64 * k <= |words|
    ensures |DataImage(data, n)| == n && |BitmapImage(words, k)| == k && |TableImage(t)| == TABLE_SECTORS
    ensures forall start, total: nat :: k == BitmapSectors(total) && n == BlocksFor(|data|) ==>
              |WriteLog(total, start, data, words, t)| == n + k + TABLE_SECTORS
  {
  }

  /** An allocated run of a safe volume lies in its data area. */
  lemma FirstBlock(v: Vol, n: nat)
    requires Safe(v) && n >= 1 && v.sp.total <= 64 * |v.sp.words| && AllocRun(v.sp, n).0 != 0
    ensures DataStart(v.sp.total) <= AllocRun(v.sp, n).0 && AllocRun(v.sp, n).0 + n <= v.sp.total
    ensures |AllocRun(v.sp, n).1.words| == |v.sp.words|
  {
    hide BitmapSectors, CStr, GetBit, Synced, Distinct, Extents;
    AllocRunComplete(v.sp, n);
    var s := AllocRun(v.sp, n).0;
    assert RunClear(v.sp.words, s, n) && !GetBit(v.sp.words, s);
  }

  /** A written file survives the next mount exactly when its slot is one of the 60
      that are stored. */
  lemma WrittenSurvives(v: Vol, path: Bytes, data: Bytes, ram: Table)
    requires Safe(v) && Shaped(v) && GoodPath(path) && |data| < TWO31 && WriteFile(v, path, data).code == 0 && TailDead(ram)
    ensures var d := WriteFile(v, path, data).vol.disk;
            && |d| == v.sp.total
            && (Lookup(Mount(d, v.sp.total, ram), path) == Some(data) <==> WriteSlot(v, path) < STORED)
  {
    hide Safe, WriteFile, Mount, Lookup, WriteSlot, GoodPath;
    if WriteSlot(v, path) < STORED {
      WriteRefines(v, path, data);
      var v' := WriteFile(v, path, data).vol;
      SafeSizes(v');
      RemountKeepsFiles(v', ram);
    } else {
      UnstoredVanishes(v, path, data, ram);
    }
  }

  lemma SafeSizes(v: Vol)
    requires Safe(v)
    ensures |v.disk| == v.sp.total
  {
  }

  // ----- power failure while a file is created -----

  /** Entries of the stored table after a failure. */
  lemma CrashEntry(j: Job, a: nat, b: nat, c: nat, i: nat)
    requires Allocated(j) && a <= Blocks(j) && b <= BitmapSectors(j.v.sp.total) && c <= TABLE_SECTORS && i < STORED
    requires !Live(j.v.table[j.slot])
    ensures |JobDisk(j, a, b, c)| == j.v.sp.total && DataStart(j.v.sp.total) <= j.v.sp.total
    ensures var e := DiskEntry(JobDisk(j, a, b, c), TableStart(j.v.sp.total), i);
            && (i != j.slot ==> e == j.v.table[i])
            && (i == j.slot ==> e == JobEntry(j) || !Live(e))
            && (i == j.slot && c == 0 ==> !Live(e))
            && (i == j.slot && c == 8 ==> e == JobEntry(j))
  {
    hide Allocated, Safe, BitmapSectors, Counted, CStr, BitmapImage, TableImage, JobDisk, DataSector, ParseSuper, Geometry, Extents, Distinct, DiskEntry;
    AllocatedSlot(j);
    JobFacts(j);
    SafeShape(j.v);
    JobDiskFacts(j, a, b, c);
    var d, ft, t := JobDisk(j, a, b, c), TableStart(j.v.sp.total), JobTable(j);
    if i == j.slot {
      StageEntryNew(j.v.disk, d, ft, t, c, i);
    } else {
      StageEntrySame(j.v.disk, d, ft, t, c, i);
    }
  }

  /** The file table found at the next mount: without the new file, or with it. */
  function CrashTable(j: Job, e: FileEntry): Table
    requires j.slot < STORED
  {
    j.v.table[j.slot := e]
  }

  /** Mounting the disk of an interrupted creation. */
  lemma CrashMounts(j: Job, a: nat, b: nat, c: nat, ram: Table)
    requires Allocated(j) && a <= Blocks(j) && b <= BitmapSectors(j.v.sp.total) && c <= TABLE_SECTORS
    requires (c > 0 ==> a == Blocks(j) && b == BitmapSectors(j.v.sp.total))
    requires !Live(j.v.table[j.slot]) && TailDead(ram)
    ensures var total, d := j.v.sp.total, JobDisk(j, a, b, c);
            && j.slot < STORED && |d| == total && DataStart(total) <= total <= 4096 * BitmapSectors(total)
            && var e, v' := DiskEntry(d, TableStart(total), j.slot), Mount(d, total, ram);
            && Safe(v') && v'.disk == d && v'.sp.total == total
            && (e == JobEntry(j) || !Live(e)) && (c == 0 ==> !Live(e)) && (c == 8 ==> e == JobEntry(j))
            && (forall i :: 0 <= i < STORED ==> v'.table[i] == CrashTable(j, e)[i])
  {
    hide Allocated, Safe, BitmapSectors, Counted, CStr, BitmapImage, TableImage, JobDisk, DataSector, ParseSuper, Geometry, Extents, Distinct, DiskEntry,
         Bit, DiskWord, Owned, Mount, JobEntry;
    AllocatedSlot(j);
    JobFacts(j);
    SafeShape(j.v);
    JobDiskFacts(j, a, b, c);
    var total, d := j.v.sp.total, JobDisk(j, a, b, c);
    CrashEntry(j, a, b, c, j.slot);
    var e := DiskEntry(d, TableStart(total), j.slot);
    var t := CrashTable(j, e);
    forall i | 0 <= i < STORED ensures DiskEntry(d, TableStart(total), i) == t[i] {
      CrashEntry(j, a, b, c, i);
    }
    if Live(e) {
      assert t == JobTable(j);
    } else {
      DroppedTable(j.v, j.slot, e);
    }
    forall x: nat | x < total && Owned(t, x) ensures Bit(DiskWord(d, x / 64), x % 64) {
      CrashOwned(j, e, x);
      JobBits(j, a, b, c, x);
    }
    MountSafe(d, total, ram, t);
  }

  /** Blocks owned after a failure are marked in the new bitmap, and unless they
      belong to the new file they were marked before. */
  lemma CrashOwned(j: Job, e: FileEntry, x: nat)
    requires Allocated(j) && j.slot < STORED && (e == JobEntry(j) || !Live(e)) && x < j.v.sp.total
    requires Owned(CrashTable(j, e), x)
    ensures DataStart(j.v.sp.total) <= x < 64 * |j.v.sp.words| && GetBit(j.sp2.words, x)
    ensures GetBit(j.v.sp.words, x) || Live(e)
  {
    hide BitmapSectors, Counted, CStr, GetBit, AllocRun, Extents, Distinct, Synced, ParseSuper, Geometry, BlocksFor;
    JobFacts(j);
    SafeShape(j.v);
    var i :| 0 <= i < STORED && Owns(CrashTable(j, e)[i], x);
    if i != j.slot {
      SafeEntry(j.v, i);
      assert Owned(j.v.table, x);
    }
  }

  lemma CrashLookup(j: Job, a: nat, b: nat, c: nat, v': Vol, e: FileEntry, path: Bytes)
    requires Allocated(j) && a <= Blocks(j) && b <= BitmapSectors(j.v.sp.total) && c <= TABLE_SECTORS
    requires (c > 0 ==> a == Blocks(j) && b == BitmapSectors(j.v.sp.total))
    requires j.slot < STORED && !Live(j.v.table[j.slot]) && (e == JobEntry(j) || !Live(e)) && (c == 0 ==> !Live(e))
    requires Safe(v') && v'.disk == JobDisk(j, a, b, c) && forall i :: 0 <= i < STORED ==> v'.table[i] == CrashTable(j, e)[i]
    ensures path != j.path ==> Lookup(v', path) == Lookup(j.v, path)
    ensures path == j.path ==> Lookup(v', path) == if Live(e) then Some(j.data) else None
  {
    hide Allocated, Safe, BitmapSectors, Counted, CStr, BitmapImage, TableImage, JobDisk, DataSector, ParseSuper, Geometry,
         Extents, Distinct, DiskEntry, FileBytes;
    JobFacts(j);
    SafeShape(j.v);
    SafeShape(v');
    var s := FindSlot(v'.table, path, 0);
    if path == j.path {
      if Live(e) {
        SafeDistinct(v');
        FoundByName(v'.table, j.slot, path);
        NewFile(j, b, c);
      } else {
        OnlySlot(j);
      }
    } else {
      FindSlotSame(j.v.table, v'.table, path, path, 0);
      if s < MAX_FILES {
        assert s < STORED && s != j.slot;
        OtherFiles(j, a, b, c, s);
      }
    }
  }

  lemma SafeDistinct(v: Vol)
    requires Safe(v)
    ensures Distinct(v.table)
  {
  }

  /** No other live entry has the job's name. */
  lemma OnlySlot(j: Job)
    requires Allocated(j)
    ensures forall i :: 0 <= i < STORED && i != j.slot && Live(j.v.table[i]) ==> CStr(j.v.table[i].name) != j.path
  {
  }

  /** The sector writes of a job. */
  ghost function JobLog(j: Job): (r: seq<SectorWrite>)
    requires Allocated(j)
    ensures |r| == Blocks(j) + BitmapSectors(j.v.sp.total) + TABLE_SECTORS
  {
    JobFacts(j);
    SafeShape(j.v);
    Writes(j.start, DataOf(j)) + Writes(1, BitmapImage(j.sp2.words, BitmapSectors(j.v.sp.total)))
    + Writes(TableStart(j.v.sp.total), TableImage(JobTable(j)))
  }

  lemma LogStage(j: Job, k: nat) returns (a: nat, b: nat, c: nat)
    requires Allocated(j) && k <= |JobLog(j)|
    ensures a <= Blocks(j) && b <= BitmapSectors(j.v.sp.total) && c <= TABLE_SECTORS
    ensures (c > 0 ==> a == Blocks(j) && b == BitmapSectors(j.v.sp.total))
    ensures k == |JobLog(j)| ==> c == 8
    ensures k <= Blocks(j) + BitmapSectors(j.v.sp.total) ==> c == 0
    ensures ApplyWrites(j.v.disk, JobLog(j)[..k]) == JobDisk(j, a, b, c)
  {
    hide Safe, BitmapSectors, ApplyWrites, Stage, DataImage, BitmapImage, TableImage, Allocated, BlocksFor;
    JobFacts(j);
    SafeShape(j.v);
    a, b, c := PrefixStage(j.v.disk, j.v.sp.total, j.start, DataOf(j), BitmapImage(j.sp2.words, BitmapSectors(j.v.sp.total)), TableImage(JobTable(j)), k);
  }

  /** A power failure after `k` writes of a creation. */
  lemma CrashJob(j: Job, k: nat, ram: Table)
    requires Allocated(j) && j.slot < STORED && !Live(j.v.table[j.slot]) && k <= |JobLog(j)| && TailDead(ram)
    ensures var d := ApplyWrites(j.v.disk, JobLog(j)[..k]);
            && |d| == j.v.sp.total && DataStart(j.v.sp.total) <= j.v.sp.total <= 4096 * BitmapSectors(j.v.sp.total)
            && var v' := Mount(d, j.v.sp.total, ram);
            && Safe(v') && v'.disk == d && v'.sp.total == j.v.sp.total
            && (forall q :: q != j.path ==> Lookup(v', q) == Lookup(j.v, q))
            && (Lookup(v', j.path) == None || Lookup(v', j.path) == Some(j.data))
            && (k <= Blocks(j) + BitmapSectors(j.v.sp.total) ==> Lookup(v', j.path) == None)
            && (k == |JobLog(j)| ==> Lookup(v', j.path) == Some(j.data))
  {
    hide Safe, BitmapSectors, Lookup, Mount, Allocated, DiskEntry, ApplyWrites, JobLog, JobDisk, CrashTable;
    var a, b, c := LogStage(j, k);
    CrashMounts(j, a, b, c, ram);
    var d := JobDisk(j, a, b, c);
    var e, v' := DiskEntry(d, TableStart(j.v.sp.total), j.slot), Mount(d, j.v.sp.total, ram);
    forall q: Bytes ensures q != j.path ==> Lookup(v', q) == Lookup(j.v, q) {
      CrashLookup(j, a, b, c, v', e, q);
    }
    CrashLookup(j, a, b, c, v', e, j.path);
  }

  /** Crash-atomic creation: cut the power after any number of the sector writes of
      a creation and mount again. The volume is safe, every other file reads as
      before, and the new file is either absent or complete. */
  lemma CreateIsCrashAtomic(v: Vol, path: Bytes, data: Bytes, k: nat, ram: Table)
    requires Safe(v) && Shaped(v) && Storable(v, path, data) && Lookup(v, path).None? && TailDead(ram)
    requires var r := WriteFile(v, path, data); r.code == 0 && k <= |r.log|
    ensures var d := ApplyWrites(v.disk, WriteFile(v, path, data).log[..k]);
            && |d| == v.sp.total
            && var v' := Mount(d, v.sp.total, ram);
            && Safe(v') && v'.disk == d && v'.sp.total == v.sp.total
            && (forall q :: q != path ==> Lookup(v', q) == Lookup(v, q))
            && (Lookup(v', path) == None || Lookup(v', path) == Some(data))
            && (k <= BlocksFor(|data|) + BitmapSectors(v.sp.total) ==> Lookup(v', path) == None)
            && (k == |WriteFile(v, path, data).log| ==> Lookup(v', path) == Some(data))
  {
    hide Safe, BitmapSectors, Lookup, Mount, Allocated, ApplyWrites, JobLog, Shaped, WriteFile, WriteSlot, BlocksFor, JobOf, Replaces;
    SafeShape(v);
    CreateSlot(v, path);
    WriteJob(v, path, data);
    WriteIsFinished(v, path, data);
    CreateLog(v, path, data);
    CrashJob(JobOf(v, path, data), k, ram);
  }

  lemma SafeShaped(v: Vol)
    requires Safe(v)
    ensures Shaped(v)
  {
  }

  lemma CreateSlot(v: Vol, path: Bytes)
    requires Safe(v) && Lookup(v, path).None? && WriteSlot(v, path) < STORED
    ensures FindSlot(v.table, path, 0) == MAX_FILES && !Live(v.table[WriteSlot(v, path)])
  {
    hide FileBytes, CStr;
  }

  /** The log of a successful write, image by image. */
  lemma CreateLog(v: Vol, path: Bytes, data: Bytes)
    requires Safe(v) && Shaped(v) && Storable(v, path, data) && WriteFile(v, path, data).code == 0
    requires v.sp.total <= 64 * |v.sp.words| && Allocated(JobOf(v, path, data))
    ensures WriteFile(v, path, data).log == JobLog(JobOf(v, path, data))
  {
    hide Safe, GetBit, CStr, Counted, Replaces, FindSlot, FreeSlot, BlocksFor, AllocRun, BitmapSectors, ApplyWrites, DataImage, BitmapImage, TableImage;
    JobFacts(JobOf(v, path, data));
    SafeShape(v);
  }
}
