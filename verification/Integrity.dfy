/**
 What every run of file operations preserves, and what a power failure in the
 middle of creating a file leaves behind.
 */
module Integrity {
  import opened Words
  import opened Bitmap
  import opened Spmm
  import opened Volume
  import opened FileSystem
  import opened Options

  // ----- reading the invariant -----

  lemma SafeSlot(v: Vol, path: Bytes)
    requires Safe(v)
    ensures FindSlot(v.table, path, 0) < STORED || FindSlot(v.table, path, 0) == MAX_FILES
  {
  }

  lemma SafeIsShaped(v: Vol)
    requires Safe(v)
    ensures Shaped(v)
  {
  }

  lemma SafeEntry(v: Vol, i: nat)
    requires Safe(v) && i < STORED && Live(v.table[i])
    ensures GoodExtent(v.table[i], v.sp.total)
  {
  }

  /** With distinct names, a live entry is the one its name finds. */
  lemma FoundByName(t: Table, i: nat, path: Bytes)
    requires Distinct(t) && i < STORED && Live(t[i]) && CStr(t[i].name) == path
    requires forall j :: STORED <= j < MAX_FILES ==> !Live(t[j])
    ensures FindSlot(t, path, 0) == i
  {
    hide CStr, ApartExtents;
    var j := FindSlot(t, path, 0);
    assert j < STORED;
  }

  // ----- mounting -----

  /** Loading a disk whose stored table is consistent gives a safe volume. */
  lemma MountSafe(disk: seq<Sector>, total: nat, ram: Table, t: Table)
    requires |disk| == total < 0x1_0000_0000 && DataStart(total) <= total <= 4096 * BitmapSectors(total)
    requires ParseSuper(disk[0]) == Geometry(total) && TailDead(ram) && TailDead(t)
    requires forall i :: 0 <= i < STORED ==> DiskEntry(disk, TableStart(total), i) == t[i]
    requires Extents(t, total) && Distinct(t)
    requires forall b: nat :: b < total && Owned(t, b) ==> Bit(DiskWord(disk, b / 64), b % 64)
    ensures var v := Mount(disk, total, ram);
            && Safe(v) && v.disk == disk && v.sp.total == total
            && (forall i :: 0 <= i < STORED ==> v.table[i] == t[i])
            && forall b: nat :: b < total ==> GetBit(v.sp.words, b) == (b < DataStart(total) || Bit(DiskWord(disk, b / 64), b % 64))
  {
    hide ParseSuper, Geometry, DiskEntry, Bit, Owned, CStr, DiskWord, BitmapSectors, CountClear, Counted;
    var words, ds := DiskWords(disk, total), DataStart(total);
    var sp0 := Space(words, total, CountClear(words, total), 1);
    assert Counted(sp0) by { FreshCount(words, total); }
    MarkFirstFacts(sp0, ds);
    var v := Mount(disk, total, ram);
    forall b: nat | b < 64 * |words| ensures GetBit(words, b) == Bit(DiskWord(disk, b / 64), b % 64) {
    }
    assert Extents(v.table, total);
    assert Distinct(v.table);
    assert Marked(v) by {
      forall b: nat | b < total && Owned(v.table, b) ensures GetBit(v.sp.words, b) {
        OwnedSame(v.table, t, b);
      }
    }
    assert Synced(v);
  }

  lemma FreshCount(words: seq<word>, total: nat)
    requires total <= 64 * |words|
    ensures Counted(Space(words, total, CountClear(words, total), 1))
  {
  }

  lemma OwnedSame(t: Table, t': Table, b: nat)
    requires forall i :: 0 <= i < STORED ==> t[i] == t'[i]
    ensures Owned(t, b) == Owned(t', b)
  {
    if Owned(t, b) {
      var i :| 0 <= i < STORED && Owns(t[i], b);
      assert Owns(t'[i], b);
    }
    if Owned(t', b) {
      var i :| 0 <= i < STORED && Owns(t'[i], b);
      assert Owns(t[i], b);
    }
  }

  lemma LookupSame(v: Vol, v': Vol, path: Bytes)
    requires v'.disk == v.disk && TailDead(v.table) && TailDead(v'.table)
    requires forall i :: 0 <= i < STORED ==> v'.table[i] == v.table[i]
    ensures Lookup(v', path) == Lookup(v, path)
  {
    hide CStr;
    FindSlotSame(v.table, v'.table, path, path, 0);
    var s := FindSlot(v.table, path, 0);
    if s < MAX_FILES { assert s < STORED; }
  }

  /** Unmounting needs no work: mounting what is on disk gives the same files and
      the same free count, and leaks nothing. */
  lemma RemountKeepsFiles(v: Vol, ram: Table)
    requires Safe(v) && TailDead(ram)
    ensures var v' := Mount(v.disk, v.sp.total, ram);
            && Safe(v') && v'.sp.total == v.sp.total && v'.sp.free == v.sp.free
            && (forall path :: Lookup(v', path) == Lookup(v, path))
            && (NoLeaks(v) ==> NoLeaks(v'))
  {
    hide ParseSuper, Geometry, DiskEntry, Bit, CStr, DiskWord, BitmapSectors, Mount, Lookup;
    var total, ds := v.sp.total, DataStart(v.sp.total);
    SyncedBits(v);
    MountSafe(v.disk, total, ram, v.table);
    var v' := Mount(v.disk, total, ram);
    forall b: nat | b < total ensures GetBit(v'.sp.words, b) == GetBit(v.sp.words, b) {
    }
    CountSame(v.sp.words, v'.sp.words, total);
    forall path: Bytes ensures Lookup(v', path) == Lookup(v, path) {
      LookupSame(v, v', path);
    }
    if NoLeaks(v) {
      forall b: nat | b < total && GetBit(v'.sp.words, b) ensures b < ds || Owned(v'.table, b) {
        OwnedSame(v.table, v'.table, b);
      }
    }
  }

  /** Owned blocks are marked on disk too, and metadata is never owned. */
  lemma SyncedBits(v: Vol)
    requires Safe(v)
    ensures forall b: nat :: b < v.sp.total && Owned(v.table, b) ==> DataStart(v.sp.total) <= b && Bit(DiskWord(v.disk, b / 64), b % 64)
    ensures forall b: nat :: DataStart(v.sp.total) <= b < 64 * |v.sp.words| ==> Bit(DiskWord(v.disk, b / 64), b % 64) == GetBit(v.sp.words, b)
  {
    hide ParseSuper, Geometry, DiskEntry, Bit, CStr, DiskWord, BitmapSectors;
    forall b: nat | b < v.sp.total && Owned(v.table, b)
      ensures DataStart(v.sp.total) <= b && Bit(DiskWord(v.disk, b / 64), b % 64)
    {
      var i :| 0 <= i < STORED && Owns(v.table[i], b);
      SafeEntry(v, i);
    }
  }

  // ----- replacing one entry -----

  /** Slot `slot` of a safe volume may be rewritten for `path`, and `sp` is the
      space without that slot's old extent. */
  ghost predicate Replaces(v: Vol, slot: nat, path: Bytes, sp: Space) {
    var total := v.sp.total;
    && Safe(v) && slot < STORED && sp.total == total && |sp.words| == |v.sp.words| && Counted(sp)
    && (forall b: nat :: b < DataStart(total) ==> GetBit(sp.words, b))
    && (forall i, b: nat :: 0 <= i < STORED && i != slot && b < total && Owns(v.table[i], b) ==> GetBit(sp.words, b))
    && (forall b: nat :: total <= b ==> GetBit(sp.words, b) == GetBit(v.sp.words, b))
    && (forall i :: 0 <= i < STORED && i != slot && Live(v.table[i]) ==> CStr(v.table[i].name) != path)
    && (Live(v.table[slot]) ==> CStr(v.table[slot].name) == path)
  }

  lemma ReplacesNew(v: Vol, path: Bytes)
    requires Safe(v) && FindSlot(v.table, path, 0) == MAX_FILES && FreeSlot(v.table, 0) < STORED
    ensures Replaces(v, FreeSlot(v.table, 0), path, v.sp)
  {
    hide ParseSuper, Geometry, CStr, GetBit, BitmapSectors, Synced, Counted;
    var total := v.sp.total;
    forall i, b: nat | 0 <= i < STORED && b < total && Owns(v.table[i], b) ensures GetBit(v.sp.words, b) {
      assert Owned(v.table, b);
    }
  }

  lemma ReplacesOld(v: Vol, path: Bytes)
    requires Safe(v) && FindSlot(v.table, path, 0) < MAX_FILES
    ensures v.sp.total <= 64 * |v.sp.words|
    ensures Replaces(v, FindSlot(v.table, path, 0), path, Released(v, path))
    ensures Counted(v.sp) && FindSlot(v.table, path, 0) < STORED
  {
    hide ParseSuper, Geometry, CStr, GetBit, BitmapSectors, Synced, Counted, FreeRun;
    var s, total := FindSlot(v.table, path, 0), v.sp.total;
    assert total <= 64 * |v.sp.words| by { CountedCovers(v.sp); }
    var e := v.table[s];
    SafeEntry(v, s);
    FreeRunFacts(v.sp, e.start, e.count);
    var sp := Released(v, path);
    forall i, b: nat | 0 <= i < STORED && i != s && b < total && Owns(v.table[i], b) ensures GetBit(sp.words, b) {
      assert Owned(v.table, b);
      if i < s { assert ApartExtents(v.table[i], e); } else { assert ApartExtents(e, v.table[i]); }
    }
  }

  /** The extent a write gets lies in the data area, apart from all other files. */
  lemma FreshExtent(v: Vol, slot: nat, path: Bytes, sp: Space, count: nat)
    requires Replaces(v, slot, path, sp) && count >= 1 && sp.total <= 64 * |sp.words| && AllocRun(sp, count).0 != 0
    ensures var (start, sp2) := AllocRun(sp, count);
            && DataStart(v.sp.total) <= start && start + count <= v.sp.total
            && sp2.total == sp.total && |sp2.words| == |sp.words| && Counted(sp2)
            && (forall j: nat :: GetBit(sp2.words, j) == (start <= j < start + count || GetBit(sp.words, j)))
            && forall i :: 0 <= i < STORED && i != slot && Live(v.table[i]) ==>
                 v.table[i].start + v.table[i].count <= start || start + count <= v.table[i].start
  {
    hide Safe, CStr, GetBit, BitmapSectors, Counted;
    AllocRunComplete(sp, count);
    var (start, sp2) := AllocRun(sp, count);
    var ds := DataStart(v.sp.total);
    assert ds <= start by {
      assert start < start + count && !GetBit(sp.words, start);
    }
    forall i | 0 <= i < STORED && i != slot && Live(v.table[i])
      ensures v.table[i].start + v.table[i].count <= start || start + count <= v.table[i].start
    {
      var e := v.table[i];
      SafeEntry(v, i);
      var b := Max(e.start, start);
      assert Owns(e, b) ==> GetBit(sp.words, b);
      assert b < start + count ==> !GetBit(sp.words, b);
    }
  }

  /** Putting the new entry in keeps extents and names distinct. */
  lemma ReplacedTable(v: Vol, slot: nat, path: Bytes, sp: Space, e: FileEntry)
    requires Replaces(v, slot, path, sp) && GoodExtent(e, v.sp.total) && CStr(e.name) == path
    requires forall i :: 0 <= i < STORED && i != slot && Live(v.table[i]) ==> ApartExtents(v.table[i], e)
    ensures Extents(v.table[slot := e], v.sp.total) && Distinct(v.table[slot := e])
  {
    hide CStr, GetBit, BitmapSectors, Counted, Synced, Marked, Shaped;
    var t := v.table[slot := e];
    forall i, j | 0 <= i < j < STORED && Live(t[i]) && Live(t[j])
      ensures ApartExtents(t[i], t[j]) && CStr(t[i].name) != CStr(t[j].name)
    {
      if i != slot && j != slot {
        assert ApartExtents(v.table[i], v.table[j]);
      }
    }
  }

  /** A dead entry in that slot is harmless as well. */
  lemma DroppedTable(v: Vol, slot: nat, e: FileEntry)
    requires Safe(v) && slot < STORED && !Live(e)
    ensures Extents(v.table[slot := e], v.sp.total) && Distinct(v.table[slot := e])
  {
    hide CStr, GetBit, BitmapSectors, Counted, Synced, Marked, Shaped;
    var t := v.table[slot := e];
    forall i, j | 0 <= i < j < STORED && Live(t[i]) && Live(t[j])
      ensures ApartExtents(t[i], t[j]) && CStr(t[i].name) != CStr(t[j].name)
    {
      assert ApartExtents(v.table[i], v.table[j]);
    }
  }

  // ----- a write under way -----

  /** Everything that is fixed once a write has found its blocks. */
  datatype Job = Job(v: Vol, slot: nat, path: Bytes, data: Bytes, sp: Space, start: nat, sp2: Space)

  function Blocks(j: Job): (n: nat)
    ensures n >= 1 && |j.data| <= 512 * n
  {
    BlocksFor(|j.data|)
  }

  ghost predicate Allocated(j: Job) {
    && Replaces(j.v, j.slot, j.path, j.sp) && GoodPath(j.path) && |j.data| < TWO31
    && j.sp.total <= 64 * |j.sp.words| && j.start != 0 && AllocRun(j.sp, Blocks(j)) == (j.start, j.sp2)
    && j.start < TWO32 && Blocks(j) < TWO32
  }

  function JobEntry(j: Job): (e: FileEntry)
    requires j.slot < STORED && |j.data| < TWO31 && j.start < TWO32 && Blocks(j) < TWO32
    ensures e.reserved == j.v.table[j.slot].reserved && Live(e)
  {
    NewEntry(j.v.table[j.slot], j.path, |j.data|, j.start, Blocks(j))
  }

  ghost function JobTable(j: Job): Table
    requires Allocated(j)
  {
    j.v.table[j.slot := JobEntry(j)]
  }

  lemma JobFacts(j: Job)
    requires Allocated(j)
    ensures var e, total := JobEntry(j), j.v.sp.total;
            && e.start == j.start && e.count == Blocks(j) && e.size == |j.data| && CStr(e.name) == j.path
            && GoodExtent(e, total) && total == j.sp2.total && |j.sp2.words| == |j.v.sp.words| && Counted(j.sp2)
            && (forall b: nat :: GetBit(j.sp2.words, b) == (j.start <= b < j.start + Blocks(j) || GetBit(j.sp.words, b)))
            && (forall i :: 0 <= i < STORED && i != j.slot && Live(j.v.table[i]) ==> ApartExtents(j.v.table[i], e))
            && Extents(JobTable(j), total) && Distinct(JobTable(j))
            && Safe(j.v)
  {
    hide Safe, CStr, GetBit, BitmapSectors, Counted, AllocRun, PutName, BlocksFor, Extents, Distinct;
    FreshExtent(j.v, j.slot, j.path, j.sp, Blocks(j));
    NameRoundTrip(j.v.table[j.slot].name, j.path);
    ReplacedTable(j.v, j.slot, j.path, j.sp, JobEntry(j));
  }

  /** The images a write sends out. */
  function DataOf(j: Job): (r: seq<Sector>)
    ensures |r| == Blocks(j)
  {
    DataImage(j.data, Blocks(j))
  }

  lemma SafeShape(v: Vol)
    requires Safe(v)
    ensures |v.disk| == v.sp.total < TWO32 && |v.sp.words| == 64 * BitmapSectors(v.sp.total)
    ensures DataStart(v.sp.total) <= v.sp.total <= 4096 * BitmapSectors(v.sp.total)
    ensures ParseSuper(v.disk[0]) == Geometry(v.sp.total) && TailDead(v.table)
    ensures forall i :: 0 <= i < STORED ==> DiskEntry(v.disk, TableStart(v.sp.total), i) == v.table[i]
  {
  }

  /** Disk of a job after `a` data, `b` bitmap and `c` table sectors. */
  ghost function JobDisk(j: Job, a: nat, b: nat, c: nat): (r: seq<Sector>)
    requires Allocated(j) && a <= Blocks(j) && b <= BitmapSectors(j.v.sp.total) && c <= TABLE_SECTORS
  {
    JobFacts(j);
    SafeShape(j.v);
    Stage(j.v.disk, j.v.sp.total, j.start, DataOf(j), BitmapImage(j.sp2.words, BitmapSectors(j.v.sp.total)), TableImage(JobTable(j)), a, b, c)
  }

  /** Facts about that disk that all later steps use. */
  lemma JobDiskFacts(j: Job, a: nat, b: nat, c: nat)
    requires Allocated(j) && a <= Blocks(j) && b <= BitmapSectors(j.v.sp.total) && c <= TABLE_SECTORS
    ensures var d, old', total := JobDisk(j, a, b, c), j.v.disk, j.v.sp.total;
            && |d| == |old'| == total && ParseSuper(d[0]) == Geometry(total) && DataStart(total) <= total
            && 64 * BitmapSectors(total) == |j.sp2.words|
            && Rewritten(old', d, 1, BitmapImage(j.sp2.words, BitmapSectors(total)), b)
            && Rewritten(old', d, TableStart(total), TableImage(JobTable(j)), c)
            && (forall k :: 0 <= k < a ==> d[j.start + k] == DataSector(j.data, k))
            && (forall x :: DataStart(total) <= x < total && !(j.start <= x < j.start + Blocks(j)) ==> d[x] == old'[x])
  {
    hide Allocated, Safe, BitmapSectors, Counted, CStr, JobTable, BitmapImage, TableImage, Stage, DataSector, ParseSuper, Geometry, Extents, Distinct, GetBit;
    JobFacts(j);
    SafeShape(j.v);
    var n := BitmapSectors(j.v.sp.total);
    StageFacts(j.v.disk, j.v.sp.total, j.start, DataOf(j), BitmapImage(j.sp2.words, n), TableImage(JobTable(j)), a, b, c);
    var d := JobDisk(j, a, b, c);
    forall k | 0 <= k < a ensures d[j.start + k] == DataSector(j.data, k) {
      assert d[j.start + k] == DataOf(j)[k];
    }
  }

  /** Marks of all blocks that must stay marked, whatever reached the disk. */
  lemma JobBits(j: Job, a: nat, b: nat, c: nat, x: nat)
    requires Allocated(j) && a <= Blocks(j) && b <= BitmapSectors(j.v.sp.total) && c <= TABLE_SECTORS
    requires x < 64 * |j.v.sp.words| && DataStart(j.v.sp.total) <= x
    ensures BitmapSectors(j.v.sp.total) < j.v.sp.total == |JobDisk(j, a, b, c)|
    ensures var d, n := JobDisk(j, a, b, c), BitmapSectors(j.v.sp.total);
            && 1 + x / 64 / 64 < |d|
            && (b == n ==> Bit(DiskWord(d, x / 64), x % 64) == GetBit(j.sp2.words, x))
            && (GetBit(j.v.sp.words, x) && GetBit(j.sp2.words, x) ==> Bit(DiskWord(d, x / 64), x % 64))
  {
    hide Allocated, Safe, Counted, CStr, JobTable, BitmapImage, TableImage, JobDisk, DataSector, ParseSuper, Geometry, Extents, Distinct, Bit, DiskWord;
    JobFacts(j);
    SafeShape(j.v);
    JobDiskFacts(j, a, b, c);
    SyncedBits(j.v);
    var n := BitmapSectors(j.v.sp.total);
    StageWords(j.v.disk, JobDisk(j, a, b, c), j.sp2.words, n, b, x / 64);
  }

  /** Other files' bytes are where they were. */
  lemma OtherFiles(j: Job, a: nat, b: nat, c: nat, i: nat)
    requires Allocated(j) && a <= Blocks(j) && b <= BitmapSectors(j.v.sp.total) && c <= TABLE_SECTORS
    requires i < STORED && i != j.slot && Live(j.v.table[i])
    ensures FileBytes(JobDisk(j, a, b, c), j.v.table[i].start, j.v.table[i].size)
         == FileBytes(j.v.disk, j.v.table[i].start, j.v.table[i].size)
  {
    hide Allocated, Safe, BitmapSectors, Counted, CStr, JobTable, BitmapImage, TableImage, JobDisk, DataSector, ParseSuper, Geometry, Extents, Distinct, FileBytes;
    JobFacts(j);
    JobDiskFacts(j, a, b, c);
    SafeEntry(j.v, i);
    var e := j.v.table[i];
    FileBytesSame(j.v.disk, JobDisk(j, a, b, c), e.start, e.size, e.count);
  }

  lemma NewFile(j: Job, b: nat, c: nat)
    requires Allocated(j) && b <= BitmapSectors(j.v.sp.total) && c <= TABLE_SECTORS
    ensures FileBytes(JobDisk(j, Blocks(j), b, c), j.start, |j.data|) == j.data
  {
    hide Allocated, Safe, BitmapSectors, Counted, CStr, JobTable, BitmapImage, TableImage, JobDisk, DataSector, ParseSuper, Geometry, Extents, Distinct, FileBytes;
    JobFacts(j);
    JobDiskFacts(j, Blocks(j), b, c);
    FileBytesStored(JobDisk(j, Blocks(j), b, c), j.start, j.data, Blocks(j));
  }

  // ----- a completed write -----

  function Finished(j: Job, disk: seq<Sector>, t: Table): Vol {
    Vol(disk, j.sp2, t)
  }

  lemma LoadedFull(j: Job, i: nat)
    requires Allocated(j) && i < STORED
    ensures |JobDisk(j, Blocks(j), BitmapSectors(j.v.sp.total), 8)| == j.v.sp.total && DataStart(j.v.sp.total) <= j.v.sp.total
    ensures DiskEntry(JobDisk(j, Blocks(j), BitmapSectors(j.v.sp.total), 8), TableStart(j.v.sp.total), i) == JobTable(j)[i]
  {
    hide Allocated, Safe, BitmapSectors, Counted, CStr, JobTable, BitmapImage, TableImage, JobDisk, DataSector, ParseSuper, Geometry, Extents, Distinct, DiskEntry;
    JobDiskFacts(j, Blocks(j), BitmapSectors(j.v.sp.total), 8);
    StageEntrySame(j.v.disk, JobDisk(j, Blocks(j), BitmapSectors(j.v.sp.total), 8), TableStart(j.v.sp.total), JobTable(j), 8, i);
  }

  lemma JobMarked(j: Job)
    requires Allocated(j)
    ensures var v := Finished(j, j.v.disk, JobTable(j)); Marked(v)
  {
    hide Safe, BitmapSectors, Counted, CStr, GetBit, AllocRun, Extents, Distinct;
    JobFacts(j);
    var t, total := JobTable(j), j.v.sp.total;
    forall b: nat | b < total && (b < DataStart(total) || Owned(t, b)) ensures GetBit(j.sp2.words, b) {
      if b >= DataStart(total) {
        var i :| 0 <= i < STORED && Owns(t[i], b);
        if i != j.slot { assert Owns(j.v.table[i], b); }
      }
    }
  }

  lemma FinishedSafe(j: Job)
    requires Allocated(j)
    ensures Safe(Finished(j, JobDisk(j, Blocks(j), BitmapSectors(j.v.sp.total), 8), JobTable(j)))
  {
    hide Allocated, Safe, BitmapSectors, Counted, CStr, BitmapImage, TableImage, JobDisk, DataSector, ParseSuper, Geometry,
         Extents, Distinct, DiskEntry, Bit, DiskWord, Marked;
    var n, total := BitmapSectors(j.v.sp.total), j.v.sp.total;
    JobFacts(j);
    SafeShape(j.v);
    JobDiskFacts(j, Blocks(j), n, 8);
    var v := Finished(j, JobDisk(j, Blocks(j), n, 8), JobTable(j));
    JobMarked(j);
    assert Marked(v) by { MarkedIgnoresDisk(Finished(j, j.v.disk, JobTable(j)), v); }
    forall i | 0 <= i < STORED ensures DiskEntry(v.disk, TableStart(total), i) == v.table[i] {
      LoadedFull(j, i);
    }
    forall b: nat | DataStart(total) <= b < 64 * |v.sp.words|
      ensures Bit(DiskWord(v.disk, b / 64), b % 64) == GetBit(v.sp.words, b)
    {
      JobBits(j, Blocks(j), n, 8, b);
    }
    AllocatedSlot(j);
    assert Synced(v) by { SyncedIs(v); }
    SafeIs(v);
  }

  lemma AllocatedSlot(j: Job)
    requires Allocated(j)
    ensures j.slot < STORED
  {
  }

  lemma MarkedIgnoresDisk(v: Vol, v': Vol)
    requires Marked(v) && v'.sp == v.sp && v'.table == v.table
    ensures Marked(v')
  {
  }

  lemma SyncedIs(v: Vol)
    requires Shaped(v)
    requires forall i :: 0 <= i < STORED ==> DiskEntry(v.disk, TableStart(v.sp.total), i) == v.table[i]
    requires forall b: nat :: DataStart(v.sp.total) <= b < 64 * |v.sp.words| ==>
               Bit(DiskWord(v.disk, b / 64), b % 64) == GetBit(v.sp.words, b)
    ensures Synced(v)
  {
  }

  lemma SafeIs(v: Vol)
    requires Shaped(v) && Counted(v.sp) && Extents(v.table, v.sp.total) && Distinct(v.table) && Marked(v) && Synced(v)
    ensures Safe(v)
  {
  }

  /** The table after a write finds every path as it should. */
  lemma JobLookup(j: Job, path: Bytes)
    requires Allocated(j)
    ensures var d := JobDisk(j, Blocks(j), BitmapSectors(j.v.sp.total), 8);
            Lookup(Finished(j, d, JobTable(j)), path) == if path == j.path then Some(j.data) else Lookup(j.v, path)
  {
    hide Allocated, Safe, BitmapSectors, Counted, CStr, BitmapImage, TableImage, JobDisk, DataSector, ParseSuper, Geometry,
         Extents, Distinct, DiskEntry, FileBytes;
    var n := BitmapSectors(j.v.sp.total);
    JobFacts(j);
    SafeShape(j.v);
    AllocatedSlot(j);
    var t := JobTable(j);
    if path == j.path {
      FoundByName(t, j.slot, path);
      NewFile(j, n, 8);
    } else {
      SlotName(j);
      FindSlotSame(j.v.table, t, path, path, 0);
      var i := FindSlot(t, path, 0);
      if i < MAX_FILES {
        assert i != j.slot && i < STORED;
        OtherFiles(j, Blocks(j), n, 8, i);
      }
    }
  }

  /** A rewritten slot held the same path or nothing. */
  lemma SlotName(j: Job)
    requires Allocated(j)
    ensures j.slot < STORED && (Live(j.v.table[j.slot]) ==> CStr(j.v.table[j.slot].name) == j.path)
  {
  }

  /** The job of a write that succeeds. */
  ghost function JobOf(v: Vol, path: Bytes, data: Bytes): Job
    requires Safe(v) && v.sp.total <= 64 * |v.sp.words|
  {
    var sp := Released(v, path);
    var (start, sp2) := AllocRun(sp, BlocksFor(|data|));
    Job(v, WriteSlot(v, path), path, data, sp, start, sp2)
  }
}
