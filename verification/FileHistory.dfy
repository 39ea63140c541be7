/** Deleting, formatting, and whole histories of a volume. */
module FileHistory {
  import opened Words
  import opened Bitmap
  import opened Spmm
  import opened Volume
  import opened FileSystem
  import opened Integrity
  import opened FileRuns
  import opened Options

  // ----- delete -----

  lemma DeleteSpace(v: Vol, path: Bytes)
    requires Safe(v) && Shaped(v) && FindSlot(v.table, path, 0) < MAX_FILES
    ensures v.sp.total <= 64 * |v.sp.words|
    ensures var s, sp1 := FindSlot(v.table, path, 0), Released(v, path);
            && s < STORED && Replaces(v, s, path, sp1) && DeleteFile(v, path).code == 0
            && DeleteFile(v, path).vol.sp == sp1
            && DeleteFile(v, path).vol.table == v.table[s := DeadEntry(v.table[s])]
            && DeleteFile(v, path).log == FlushLog(v.sp.total, sp1.words, v.table[s := DeadEntry(v.table[s])])
            && DeleteFile(v, path).vol.disk == ApplyWrites(v.disk, DeleteFile(v, path).log)
  {
    hide Safe, CStr, FindSlot, Replaces, FreeRun, ApplyWrites, Writes, BitmapSectors;
    SafeCounted(v);
    CountedCovers(v.sp);
    SafeSlot(v, path);
    ReplacesOld(v, path);
  }

  /** Disk after the flush of a bitmap and a table. */
  lemma FlushedDisk(disk: seq<Sector>, total: nat, words: seq<word>, t: Table)
    requires |disk| == total && DataStart(total) <= total && |words| == 64 * BitmapSectors(total)
    ensures var d := ApplyWrites(disk, FlushLog(total, words, t));
            && |d| == |disk| && d[0] == disk[0]
            && Rewritten(disk, d, 1, BitmapImage(words, BitmapSectors(total)), BitmapSectors(total))
            && Rewritten(disk, d, TableStart(total), TableImage(t), 8)
            && forall x :: DataStart(total) <= x < total ==> d[x] == disk[x]
  {
    hide BitmapSectors, ApplyWrites, BitmapImage, TableImage, Stage;
    var n := BitmapSectors(total);
    var D: seq<Sector>, B, T := [], BitmapImage(words, n), TableImage(t);
    var log := Writes(DataStart(total), D) + Writes(1, B) + Writes(TableStart(total), T);
    assert log == FlushLog(total, words, t);
    assert log[..|log|] == log;
    var a, b, c := PrefixStage(disk, total, DataStart(total), D, B, T, |log|);
    StageFacts(disk, total, DataStart(total), D, B, T, a, b, c);
  }

  /** Flushed bitmap and table read back. */
  lemma FlushReads(disk: seq<Sector>, d: seq<Sector>, total: nat, words: seq<word>, t: Table)
    requires |disk| == total == |d| && DataStart(total) <= total && |words| == 64 * BitmapSectors(total)
    requires Rewritten(disk, d, 1, BitmapImage(words, BitmapSectors(total)), BitmapSectors(total))
    requires Rewritten(disk, d, TableStart(total), TableImage(t), 8)
    ensures forall i :: 0 <= i < STORED ==> DiskEntry(d, TableStart(total), i) == t[i]
    ensures forall b: nat :: b < 64 * |words| ==> Bit(DiskWord(d, b / 64), b % 64) == GetBit(words, b)
  {
    hide BitmapSectors, BitmapImage, TableImage, DiskEntry, DiskWord, Bit, Rewritten;
    forall i | 0 <= i < STORED ensures DiskEntry(d, TableStart(total), i) == t[i] {
      StageEntrySame(disk, d, TableStart(total), t, 8, i);
    }
    forall b: nat | b < 64 * |words| ensures Bit(DiskWord(d, b / 64), b % 64) == GetBit(words, b) {
      StageWords(disk, d, words, BitmapSectors(total), BitmapSectors(total), b / 64);
    }
  }

  lemma DeleteMarked(v: Vol, path: Bytes)
    requires Safe(v) && Shaped(v) && FindSlot(v.table, path, 0) < MAX_FILES
    ensures Marked(DeleteFile(v, path).vol)
    ensures forall b: nat :: v.sp.total <= b ==> GetBit(DeleteFile(v, path).vol.sp.words, b) == GetBit(v.sp.words, b)
  {
    hide Safe, CStr, FindSlot, FreeRun, ApplyWrites, BitmapSectors, GetBit, DeleteFile, Released, FlushLog;
    DeleteSpace(v, path);
    var s, v', total := FindSlot(v.table, path, 0), DeleteFile(v, path).vol, v.sp.total;
    forall b: nat | b < total && (b < DataStart(total) || Owned(v'.table, b)) ensures GetBit(v'.sp.words, b) {
      if b >= DataStart(total) {
        var i :| 0 <= i < STORED && Owns(v'.table[i], b);
        assert i != s && Owns(v.table[i], b);
      }
    }
  }

  /** Deleting a file removes that path and nothing else, and frees its blocks. */
  lemma DeleteRefines(v: Vol, path: Bytes)
    requires Safe(v) && Shaped(v) && FindSlot(v.table, path, 0) < MAX_FILES
    ensures var v' := DeleteFile(v, path).vol;
            && DeleteFile(v, path).code == 0 && Safe(v') && v'.sp.total == v.sp.total
            && (forall q :: Lookup(v', q) == if q == path then None else Lookup(v, q))
            && (NoLeaks(v) ==> NoLeaks(v'))
  {
    hide Safe, CStr, FindSlot, FreeRun, ApplyWrites, BitmapSectors, GetBit, DeleteFile, Released, FlushLog, Lookup, Replaces, NoLeaks,
         BitmapImage, TableImage, DiskEntry, DiskWord, Bit, Rewritten, ParseSuper, Geometry, Marked, Counted, Extents, Distinct;
    DeleteSpace(v, path);
    SafeShape(v);
    var s, v', total := FindSlot(v.table, path, 0), DeleteFile(v, path).vol, v.sp.total;
    ReplacedSpace(v, s, path, v'.sp);
    FlushedDisk(v.disk, total, v'.sp.words, v'.table);
    FlushReads(v.disk, v'.disk, total, v'.sp.words, v'.table);
    DeleteMarked(v, path);
    DroppedTable(v, s, DeadEntry(v.table[s]));
    SyncedIs(v');
    SafeIs(v');
    forall q: Bytes ensures Lookup(v', q) == if q == path then None else Lookup(v, q) {
      DeleteLookup(v, path, q);
    }
    if NoLeaks(v) { DeleteLeaksNothing(v, path); }
  }

  lemma ReplacedSpace(v: Vol, slot: nat, path: Bytes, sp: Space)
    requires Replaces(v, slot, path, sp)
    ensures sp.total == v.sp.total && |sp.words| == |v.sp.words| && Counted(sp)
    ensures forall i :: 0 <= i < STORED && i != slot && Live(v.table[i]) ==> CStr(v.table[i].name) != path
  {
  }

  lemma DeleteLookup(v: Vol, path: Bytes, q: Bytes)
    requires Safe(v) && Shaped(v) && FindSlot(v.table, path, 0) < MAX_FILES
    ensures Lookup(DeleteFile(v, path).vol, q) == if q == path then None else Lookup(v, q)
  {
    hide Safe, CStr, FreeRun, ApplyWrites, BitmapSectors, GetBit, DeleteFile, Released, FlushLog, Replaces,
         BitmapImage, TableImage, Rewritten, ParseSuper, Geometry, FileBytes;
    DeleteSpace(v, path);
    SafeShape(v);
    var s, v', total := FindSlot(v.table, path, 0), DeleteFile(v, path).vol, v.sp.total;
    ReplacedSpace(v, s, path, v'.sp);
    FlushedDisk(v.disk, total, v'.sp.words, v'.table);
    if q != path {
      FindSlotSame(v.table, v'.table, q, q, 0);
      var i := FindSlot(v.table, q, 0);
      if i < MAX_FILES {
        assert i < STORED && i != s;
        SafeEntry(v, i);
        FileBytesSame(v.disk, v'.disk, v.table[i].start, v.table[i].size, v.table[i].count);
      }
    }
  }

  lemma DeleteLeaksNothing(v: Vol, path: Bytes)
    requires Safe(v) && Shaped(v) && FindSlot(v.table, path, 0) < MAX_FILES && NoLeaks(v)
    ensures NoLeaks(DeleteFile(v, path).vol)
  {
    hide Safe, CStr, FindSlot, FreeRun, ApplyWrites, BitmapSectors, GetBit, DeleteFile, Released, FlushLog, Replaces, NoLeaks, Shaped;
    DeleteSpace(v, path);
    var s, v', total := FindSlot(v.table, path, 0), DeleteFile(v, path).vol, v.sp.total;
    ReplacedSpace(v, s, path, v'.sp);
    forall b: nat | b < total && GetBit(v'.sp.words, b) ensures b < DataStart(total) || Owned(v'.table, b) {
      ReleasedBits(v, path, b);
      if b >= DataStart(total) {
        var i :| 0 <= i < STORED && i != s && Owns(v.table[i], b);
        assert Owns(v'.table[i], b);
      }
    }
    NoLeaksIs(v');
  }

  // ----- format -----

  lemma ZeroSector(disk: seq<Sector>, w: nat)
    requires 1 + w / 64 < |disk| && disk[1 + w / 64] == Zeros(512)
    ensures DiskWord(disk, w) == 0
  {
    var s := disk[1 + w / 64][8 * (w % 64)..8 * (w % 64) + 8];
    assert forall i :: 0 <= i < 8 ==> s[i] == 0;
    assert s[..4] == [0, 0, 0, 0] && s[4..] == [0, 0, 0, 0];
  }

  lemma ZeroEntry(disk: seq<Sector>, start: nat, i: nat)
    requires start + 8 <= |disk| && i < STORED
    requires forall x :: start <= x < start + 8 ==> disk[x] == Zeros(512)
    ensures !Live(DiskEntry(disk, start, i))
  {
    hide ParseEntry;
    var b := DiskEntryBytes(disk, start, i);
    ParsedUsed(b);
    var k := 68 * i + 44;
    assert disk[start + k / 512] == Zeros(512);
    assert b[44] == DiskTableByte(disk, start, k);
  }

  lemma FormattedDisk(disk: seq<Sector>, total: nat)
    requires |disk| == total < 0x1_0000_0000 && DataStart(total) <= total
    ensures var d := ApplyWrites(disk, FormatLog(total));
            && |d| == total && d[0] == SuperSector(Geometry(total))
            && forall x :: 1 <= x < DataStart(total) ==> d[x] == Zeros(512)
  {
    hide BitmapSectors, ApplyWrites, SuperSector, Geometry;
    var n := BitmapSectors(total);
    var S: seq<Sector> := [SuperSector(Geometry(total))];
    var B: seq<Sector> := seq<Sector>(n, _ => Zeros(512));
    var T: seq<Sector> := seq<Sector>(TABLE_SECTORS, _ => Zeros(512));
    ApplyAppend(disk, Writes(0, S) + Writes(1, B), Writes(TableStart(total), T));
    ApplyAppend(disk, Writes(0, S), Writes(1, B));
    ApplyWritesIs(disk, 0, S);
    ApplyWritesIs(Overwrite(disk, 0, S), 1, B);
    ApplyWritesIs(Overwrite(Overwrite(disk, 0, S), 1, B), TableStart(total), T);
  }

  /** A formatted device mounts as a safe, empty volume without leaks. */
  lemma FormatMountsEmpty(disk: seq<Sector>, total: nat, ram: Table)
    requires |disk| == total < 0x1_0000_0000 && DataStart(total) <= total <= 4096 * BitmapSectors(total) && TailDead(ram)
    ensures var d := ApplyWrites(disk, FormatLog(total));
            && |d| == total
            && var v := Mount(d, total, ram);
            && Safe(v) && v.disk == d && NoLeaks(v) && v.sp.total == total && v.sp.free == total - DataStart(total)
            && forall path :: Lookup(v, path) == None
  {
    hide BitmapSectors, ApplyWrites, SuperSector, Geometry, ParseSuper, Mount, Bit, DiskWord, CStr, Zeros, GetBit, DiskEntry;
    var d := ApplyWrites(disk, FormatLog(total));
    FormattedDisk(disk, total);
    SuperRoundTrip(Geometry(total));
    var t := LoadedTable(d, TableStart(total), ram);
    forall i | 0 <= i < MAX_FILES ensures !Live(t[i]) {
      if i < STORED { ZeroEntry(d, TableStart(total), i); }
    }
    assert Distinct(t);
    NobodyOwns(t);
    MountSafe(d, total, ram, t);
    var v := Mount(d, total, ram);
    forall b: nat | b < total ensures GetBit(v.sp.words, b) == (b < DataStart(total)) {
      ZeroSector(d, b / 64);
      NoBits(b % 64);
    }
    NoLeaksIs(v);
    CountAbove(v.sp.words, DataStart(total), total);
    SafeCounted(v);
    SafeShape(v);
    forall i | 0 <= i < MAX_FILES ensures !Live(v.table[i]) {
    }
    forall path: Bytes ensures Lookup(v, path) == None {
      EmptyLookup(v, path);
    }
  }

  /** The free runs of an empty volume are those inside its data area. */
  lemma EmptyRuns(v: Vol, s: nat, n: nat)
    requires Safe(v) && NoLeaks(v) && (forall i :: 0 <= i < MAX_FILES ==> !Live(v.table[i]))
    requires n >= 1 && s + n <= v.sp.total
    ensures RunClear(v.sp.words, s, n) <==> DataStart(v.sp.total) <= s
  {
    hide BitmapSectors, GetBit, Synced, Distinct, Extents, Counted, Shaped;
    NobodyOwns(v.table);
    if s < DataStart(v.sp.total) { assert GetBit(v.sp.words, s); }
  }

  lemma NoSlot(t: Table, path: Bytes)
    requires forall i :: 0 <= i < MAX_FILES ==> !Live(t[i])
    ensures FindSlot(t, path, 0) == MAX_FILES && FreeSlot(t, 0) == 0
  {
  }

  /** The first file of an empty volume is stored exactly when the data area has room
      for it. */
  lemma FirstFileFits(v: Vol, path: Bytes, data: Bytes)
    requires Safe(v) && Shaped(v) && NoLeaks(v) && |data| < TWO31 && (forall i :: 0 <= i < MAX_FILES ==> !Live(v.table[i]))
    ensures WriteFile(v, path, data).code == 0 <==> BlocksFor(|data|) <= v.sp.total - DataStart(v.sp.total)
    ensures GoodPath(path) ==> Storable(v, path, data)
  {
    hide BitmapSectors, ApplyWrites, FindSlot, FreeSlot, RunClear, BlocksFor, FirstFit, SetRun, Safe, NoLeaks, CStr, Live;
    var n, total := BlocksFor(|data|), v.sp.total;
    SafeCounted(v);
    NoSlot(v.table, path);
    AllocRunComplete(v.sp, n);
    var s := AllocRun(v.sp, n).0;
    if s != 0 { EmptyRuns(v, s, n); }
    if n <= total - DataStart(total) { EmptyRuns(v, DataStart(total), n); }
  }

  lemma NobodyOwns(t: Table)
    requires forall i :: 0 <= i < MAX_FILES ==> !Live(t[i])
    ensures forall b: nat :: !Owned(t, b)
  {
  }

  lemma EmptyLookup(v: Vol, path: Bytes)
    requires forall i :: 0 <= i < MAX_FILES ==> !Live(v.table[i])
    ensures Lookup(v, path) == None
  {
  }

  lemma {:induction false} CountAbove(words: seq<word>, lo: nat, n: nat)
    requires lo <= n && forall b: nat :: b < n ==> GetBit(words, b) == (b < lo)
    ensures CountClear(words, n) == n - lo
    decreases n
  {
    hide GetBit;
    if n > 0 {
      if lo == n {
        CountAbove(words, lo - 1, n - 1);
      } else {
        CountAbove(words, lo, n - 1);
      }
    }
  }

  // ----- histories -----

  /** `Cut` is a creation whose power fails after `done` sector writes, and the mount
      that follows. */
  datatype FileOp = Put(path: Bytes, data: Bytes) | Remove(path: Bytes) | Remount(ram: Table)
                  | Cut(path: Bytes, data: Bytes, done: nat, ram: Table)

  /** One successful operation, or None. */
  ghost function FileStep(v: Vol, op: FileOp): Option<Vol>
    requires Safe(v)
  {
    SafeShaped(v);
    match op
    case Put(path, data) =>
      if Storable(v, path, data) && WriteFile(v, path, data).code == 0 then Some(WriteFile(v, path, data).vol) else None
    case Remove(path) =>
      if DeleteFile(v, path).code == 0 then Some(DeleteFile(v, path).vol) else None
    case Remount(ram) =>
      if TailDead(ram) then Some(Mount(v.disk, v.sp.total, ram)) else None
    case Cut(path, data, done, ram) =>
      if CanBeCut(v, path, data, done) && TailDead(ram)
      then Some(Mount(ApplyWrites(v.disk, WriteFile(v, path, data).log[..done]), v.sp.total, ram)) else None
  }

  /** A creation under way, `done` of whose sector writes reached the disk. */
  ghost predicate CanBeCut(v: Vol, path: Bytes, data: Bytes, done: nat)
    requires Safe(v) && Shaped(v)
  {
    && Storable(v, path, data) && Lookup(v, path).None?
    && WriteFile(v, path, data).code == 0 && done <= |WriteFile(v, path, data).log|
  }

  lemma FileStepRefines(v: Vol, op: FileOp, m: map<Bytes, Bytes>) returns (m': map<Bytes, Bytes>)
    requires Safe(v) && Holds(v, m) && FileStep(v, op).Some?
    ensures var v' := FileStep(v, op).value;
            Safe(v') && MapStep(m, op, m') && Holds(v', m') && (NoLeaks(v) && !op.Cut? ==> NoLeaks(v'))
  {
    hide Safe, Shaped, WriteFile, DeleteFile, Mount, Lookup, NoLeaks, Storable, ApplyWrites;
    SafeShaped(v);
    match op
    case Put(path, data) => WriteRefines(v, path, data); m' := m[path := data];
    case Remove(path) => DeleteFound(v, path); DeleteRefines(v, path); m' := m - {path};
    case Remount(ram) => RemountKeepsFiles(v, ram); m' := m;
    case Cut(path, data, done, ram) =>
      CreateIsCrashAtomic(v, path, data, done, ram);
      m' := if Lookup(FileStep(v, op).value, path).Some? then m[path := data] else m;
  }

  lemma DeleteFound(v: Vol, path: Bytes)
    requires Safe(v) && Shaped(v) && DeleteFile(v, path).code == 0
    ensures FindSlot(v.table, path, 0) < MAX_FILES
  {
  }

  /** The plain meaning: a map from paths to contents. A creation that was cut short
      happened or did not. */
  ghost predicate MapStep(m: map<Bytes, Bytes>, op: FileOp, m': map<Bytes, Bytes>) {
    match op
    case Put(path, data) => m' == m[path := data]
    case Remove(path) => m' == m - {path}
    case Remount(_) => m' == m
    case Cut(path, data, _, _) => m' == m || m' == m[path := data]
  }

  ghost predicate MapRun(m: map<Bytes, Bytes>, ops: seq<FileOp>, m': map<Bytes, Bytes>)
    decreases |ops|
  {
    if ops == [] then m' == m else exists mid :: MapStep(m, ops[0], mid) && MapRun(mid, ops[1..], m')
  }

  /** The volume holds exactly the files of the map. */
  ghost predicate Holds(v: Vol, m: map<Bytes, Bytes>) {
    forall path :: Lookup(v, path) == if path in m then Some(m[path]) else None
  }

  /** A history of successful operations from `v` to `v'`. */
  ghost predicate History(v: Vol, ops: seq<FileOp>, v': Vol)
    decreases |ops|
  {
    if ops == [] then v' == v
    else Safe(v) && FileStep(v, ops[0]).Some? && History(FileStep(v, ops[0]).value, ops[1..], v')
  }

  predicate Uncut(ops: seq<FileOp>) {
    forall i :: 0 <= i < |ops| ==> !ops[i].Cut?
  }

  /** EKE-FS refines a map from paths to bytes: over every history of successful
      writes, deletes, remounts and creations cut short by a power failure, the volume
      holds what the map says and keeps its invariant; it leaks no block unless a
      creation was cut short or some were leaked before. */
  lemma {:induction false} HistoryRefinesMap(v: Vol, ops: seq<FileOp>, v': Vol, m: map<Bytes, Bytes>) returns (m': map<Bytes, Bytes>)
    requires Safe(v) && Holds(v, m) && History(v, ops, v')
    ensures Safe(v') && MapRun(m, ops, m') && Holds(v', m') && (NoLeaks(v) && Uncut(ops) ==> NoLeaks(v'))
    decreases |ops|
  {
    hide Safe, NoLeaks, Holds, FileStep, MapStep;
    m' := m;
    if ops != [] {
      var mid := FileStepRefines(v, ops[0], m);
      m' := HistoryRefinesMap(FileStep(v, ops[0]).value, ops[1..], v', mid);
      assert MapStep(m, ops[0], mid) && MapRun(mid, ops[1..], m');
    }
  }
}
