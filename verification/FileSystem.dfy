/** The meaning of the file operations, and what they preserve. */
module FileSystem {
  import opened Words
  import opened Bitmap
  import opened Spmm
  import opened Volume
  import opened Options

  // ----- operations -----

  /** What a path names: the bytes of its file, if there is one. */
  function Lookup(v: Vol, path: Bytes): Option<Bytes> {
    var i := FindSlot(v.table, path, 0);
    if i == MAX_FILES then None else Some(FileBytes(v.disk, v.table[i].start, v.table[i].size))
  }

  function BlocksFor(size: nat): (n: nat)
    ensures n >= 1 && size <= 512 * n
  {
    var n := (size + SECTOR - 1) / SECTOR;
    if n == 0 then 1 else n
  }

  datatype Result = Result(code: int, vol: Vol, log: seq<SectorWrite>)

  /** Free blocks as seen by the allocation of a write: an existing file's extent
      has been given back. */
  function Released(v: Vol, path: Bytes): (sp: Space)
    requires v.sp.total <= 64 * |v.sp.words|
    ensures sp.total == v.sp.total && |sp.words| == |v.sp.words|
  {
    var s := FindSlot(v.table, path, 0);
    if s < MAX_FILES then FreeRun(v.sp, v.table[s].start, v.table[s].count) else v.sp
  }

  function WriteSlot(v: Vol, path: Bytes): (slot: nat)
    ensures slot <= MAX_FILES
  {
    var s := FindSlot(v.table, path, 0);
    if s < MAX_FILES then s else FreeSlot(v.table, 0)
  }

  function NewEntry(e: FileEntry, path: Bytes, size: u32, start: u32, count: u32): FileEntry {
    e.(name := PutName(e.name, path), size := size, start := start, count := count, used := 1)
  }

  /** The sector writes of a file write, in order: data, bitmap, table. */
  function WriteLog(total: nat, start: nat, data: Bytes, words: seq<word>, t: Table): seq<SectorWrite>
    requires 64 * BitmapSectors(total) <= |words|
  {
    Writes(start, DataImage(data, BlocksFor(|data|))) + Writes(1, BitmapImage(words, BitmapSectors(total)))
    + Writes(TableStart(total), TableImage(t))
  }

  ghost function WriteFile(v: Vol, path: Bytes, data: Bytes): Result
    requires Shaped(v) && |data| < TWO31
  {
    var blocks, slot, sp1 := BlocksFor(|data|), WriteSlot(v, path), Released(v, path);
    if slot == MAX_FILES then Result(-2, v, [])
    else
      var (start, sp2) := AllocRun(sp1, blocks);
      if start == 0 then Result(-3, v.(sp := sp1), [])
      else
        var t2 := v.table[slot := NewEntry(v.table[slot], path, |data|, start, blocks)];
        var log := WriteLog(v.sp.total, start, data, sp2.words, t2);
        Result(0, Vol(ApplyWrites(v.disk, log), sp2, t2), log)
  }

  /** Bitmap and table go out in order. */
  function FlushLog(total: nat, words: seq<word>, t: Table): seq<SectorWrite>
    requires 64 * BitmapSectors(total) <= |words|
  {
    Writes(1, BitmapImage(words, BitmapSectors(total))) + Writes(TableStart(total), TableImage(t))
  }

  function DeadEntry(e: FileEntry): FileEntry {
    e.(used := 0, name := e.name[0 := 0])
  }

  function DeleteFile(v: Vol, path: Bytes): Result
    requires Shaped(v)
  {
    var s := FindSlot(v.table, path, 0);
    if s == MAX_FILES then Result(-1, v, [])
    else
      var sp1 := FreeRun(v.sp, v.table[s].start, v.table[s].count);
      var t1 := v.table[s := DeadEntry(v.table[s])];
      var log := FlushLog(v.sp.total, sp1.words, t1);
      Result(0, Vol(ApplyWrites(v.disk, log), sp1, t1), log)
  }

  /** Words of the bitmap as stored on disk. */
  function DiskWords(disk: seq<Sector>, total: nat): (r: seq<word>)
    requires BitmapSectors(total) < |disk|
    ensures |r| == 64 * BitmapSectors(total)
  {
    seq(64 * BitmapSectors(total), w requires 0 <= w < 64 * BitmapSectors(total) => DiskWord(disk, w))
  }

  /** The last 16 bytes of the stored table, the start of entry 60. */
  function StoredTail(disk: seq<Sector>, start: nat): (r: Bytes)
    requires start + 8 <= |disk|
    ensures |r| == 16
  {
    seq<byte>(16, j requires 0 <= j < 16 => DiskTableByte(disk, start, 4080 + j))
  }

  /** The table read over what memory held: eight sectors end inside entry 60. */
  function LoadedTable(disk: seq<Sector>, start: nat, ram: Table): (r: Table)
    requires start + 8 <= |disk|
    ensures forall i :: 0 <= i < STORED ==> r[i] == DiskEntry(disk, start, i)
    ensures forall i :: STORED <= i < MAX_FILES ==> r[i].used == ram[i].used
  {
    var cut := StoredTail(disk, start);
    seq<FileEntry>(STORED, i requires 0 <= i < STORED => DiskEntry(disk, start, i))
    + [ram[STORED].(name := cut + ram[STORED].name[16..])] + ram[STORED + 1..]
  }

  /** Mounting a formatted device. */
  function Mount(disk: seq<Sector>, total: nat, ram: Table): Vol
    requires DataStart(total) <= |disk| && total <= 4096 * BitmapSectors(total)
  {
    var words := DiskWords(disk, total);
    Vol(disk, MarkFirst(Space(words, total, CountClear(words, total), 1), DataStart(total)),
        LoadedTable(disk, TableStart(total), ram))
  }

  ghost predicate TailDead(ram: Table) {
    forall i :: STORED <= i < MAX_FILES ==> !Live(ram[i])
  }

  /** Writes of a format. */
  function FormatLog(total: nat): seq<SectorWrite>
    requires total < 0x1_0000_0000
  {
    Writes(0, [SuperSector(Geometry(total))])
    + Writes(1, seq<Sector>(BitmapSectors(total), _ => Zeros(512)))
    + Writes(TableStart(total), seq<Sector>(TABLE_SECTORS, _ => Zeros(512)))
  }

  // ----- looking up -----

  lemma {:induction false} FindSlotSame(t: Table, t': Table, path: Bytes, path': Bytes, from: nat)
    requires from <= MAX_FILES
    requires forall j :: from <= j < MAX_FILES ==>
               (Live(t[j]) && CStr(t[j].name) == path) == (Live(t'[j]) && CStr(t'[j].name) == path')
    ensures FindSlot(t, path, from) == FindSlot(t', path', from)
    decreases MAX_FILES - from
  {
    hide CStr;
    if from < MAX_FILES { FindSlotSame(t, t', path, path', from + 1); }
  }

  lemma FileBytesSame(disk: seq<Sector>, disk': seq<Sector>, start: nat, size: nat, count: nat)
    requires size <= 512 * count && |disk'| == |disk|
    requires forall x :: start <= x < start + count && x < |disk| ==> disk'[x] == disk[x]
    ensures FileBytes(disk', start, size) == FileBytes(disk, start, size)
  {
  }

  lemma FileBytesStored(disk: seq<Sector>, start: nat, data: Bytes, count: nat)
    requires |data| <= 512 * count && start + count <= |disk|
    requires forall k :: 0 <= k < count ==> disk[start + k] == DataSector(data, k)
    ensures FileBytes(disk, start, |data|) == data
  {
    forall k | 0 <= k < |data| ensures FileBytes(disk, start, |data|)[k] == data[k] {
      assert disk[start + k / 512] == DataSector(data, k / 512);
      assert 512 * (k / 512) + k % 512 == k;
    }
  }

  // ----- the writes, stage by stage -----

  /** The disk after `a` data, `b` bitmap and `c` table sectors went out. */
  function Stage(disk: seq<Sector>, total: nat, start: nat, D: seq<Sector>, B: seq<Sector>, T: seq<Sector>, a: nat, b: nat, c: nat): (r: seq<Sector>)
    requires a <= |D| && b <= |B| && c <= |T|
    requires start + |D| <= |disk| && 1 + |B| <= |disk| && TableStart(total) + |T| <= |disk|
    ensures |r| == |disk|
  {
    Overwrite(Overwrite(Overwrite(disk, start, D[..a]), 1, B[..b]), TableStart(total), T[..c])
  }

  lemma WritesPrefix(lba: nat, data: seq<Sector>, k: nat)
    requires k <= |data|
    ensures Writes(lba, data)[..k] == Writes(lba, data[..k])
  {
  }

  /** Whatever prefix of the writes reached the disk, they reached it in order. */
  lemma PrefixStage(disk: seq<Sector>, total: nat, start: nat, D: seq<Sector>, B: seq<Sector>, T: seq<Sector>, k: nat)
    returns (a: nat, b: nat, c: nat)
    requires start + |D| <= |disk| && 1 + |B| <= |disk| && TableStart(total) + |T| <= |disk|
    requires k <= |D| + |B| + |T|
    ensures a <= |D| && b <= |B| && c <= |T|
    ensures (b > 0 ==> a == |D|) && (c > 0 ==> a == |D| && b == |B|)
    ensures k == |D| + |B| + |T| ==> a == |D| && b == |B| && c == |T|
    ensures k <= |D| + |B| ==> c == 0
    ensures ApplyWrites(disk, (Writes(start, D) + Writes(1, B) + Writes(TableStart(total), T))[..k])
         == Stage(disk, total, start, D, B, T, a, b, c)
  {
    hide ApplyWrites, Writes, TableStart;
    var ft := TableStart(total);
    var x, y, z := Writes(start, D), Writes(1, B), Writes(ft, T);
    a := if k < |D| then k else |D|;
    b := if k < |D| then 0 else if k < |D| + |B| then k - |D| else |B|;
    c := if k < |D| + |B| then 0 else k - |D| - |B|;
    assert (x + y + z)[..k] == x[..a] + y[..b] + z[..c];
    WritesPrefix(start, D, a);
    WritesPrefix(1, B, b);
    WritesPrefix(ft, T, c);
    ApplyAppend(disk, x[..a] + y[..b], z[..c]);
    ApplyAppend(disk, x[..a], y[..b]);
    ApplyWritesIs(disk, start, D[..a]);
    var d1 := Overwrite(disk, start, D[..a]);
    ApplyWritesIs(d1, 1, B[..b]);
    ApplyWritesIs(Overwrite(d1, 1, B[..b]), ft, T[..c]);
  }

  /** The sectors from `lba` on hold the first `n` of `img`, then what was there. */
  ghost predicate Rewritten(disk: seq<Sector>, d: seq<Sector>, lba: nat, img: seq<Sector>, n: nat) {
    && |d| == |disk| && lba + |img| <= |disk| && n <= |img|
    && forall x :: lba <= x < lba + |img| ==> d[x] == if x - lba < n then img[x - lba] else disk[x]
  }

  /** What is where after a stage. */
  lemma StageFacts(disk: seq<Sector>, total: nat, start: nat, D: seq<Sector>, B: seq<Sector>, T: seq<Sector>, a: nat, b: nat, c: nat)
    requires a <= |D| && b <= |B| && c <= |T|
    requires |B| == BitmapSectors(total) && |T| == TABLE_SECTORS && DataStart(total) <= start && start + |D| <= |disk|
    ensures var d := Stage(disk, total, start, D, B, T, a, b, c);
            && d[0] == disk[0]
            && Rewritten(disk, d, 1, B, b) && Rewritten(disk, d, TableStart(total), T, c) && Rewritten(disk, d, start, D, a)
            && (forall x :: DataStart(total) <= x < |disk| && !(start <= x < start + |D|) ==> d[x] == disk[x])
  {
  }

  /** Bitmap words on a disk whose first `b` bitmap sectors were rewritten. */
  lemma StageWords(disk: seq<Sector>, d: seq<Sector>, words: seq<word>, n: nat, b: nat, w: nat)
    requires |words| == 64 * n && w < |words|
    requires Rewritten(disk, d, 1, BitmapImage(words, n), b)
    ensures DiskWord(d, w) == if w / 64 < b then words[w] else DiskWord(disk, w)
  {
    hide BitmapSector, Read64;
    var k := w / 64;
    assert d[1 + k] == if k < b then BitmapImage(words, n)[k] else disk[1 + k];
    if k < b {
      BitmapSectorReads(words, k, w % 64);
      assert 64 * k + w % 64 == w;
    }
  }

  /** Bytes of the stored table when its first `c` sectors were rewritten. */
  lemma StageTableByte(disk: seq<Sector>, d: seq<Sector>, start: nat, t: Table, c: nat, k: nat)
    requires k < 4096 && Rewritten(disk, d, start, TableImage(t), c)
    ensures DiskTableByte(d, start, k) == if k / 512 < c then TableByte(t, k) else DiskTableByte(disk, start, k)
  {
    hide TableByte;
    assert d[start + k / 512] == if k / 512 < c then TableImage(t)[k / 512] else disk[start + k / 512];
    assert 512 * (k / 512) + k % 512 == k;
  }

  function DiskEntryBytes(disk: seq<Sector>, start: nat, i: nat): (r: Bytes)
    requires start + 8 <= |disk| && i < STORED
    ensures |r| == 68 && ParseEntry(r) == DiskEntry(disk, start, i)
  {
    seq<byte>(68, j requires 0 <= j < 68 => DiskTableByte(disk, start, 68 * i + j))
  }

  lemma TableByteAt(t: Table, i: nat, j: nat)
    requires i < 64 && j < 68
    ensures TableByte(t, 68 * i + j) == EntryBytes(t[i])[j]
  {
    assert (68 * i + j) / 68 == i && (68 * i + j) % 68 == j;
  }

  /** An entry that the rewrite does not change reads back as before. */
  lemma StageEntrySame(disk: seq<Sector>, d: seq<Sector>, start: nat, t: Table, c: nat, i: nat)
    requires i < STORED && Rewritten(disk, d, start, TableImage(t), c)
    requires c == 8 || DiskEntry(disk, start, i) == t[i]
    ensures DiskEntry(d, start, i) == t[i]
  {
    hide TableByte, EntryBytes, ParseEntry, TableSector, DiskTableByte;
    var b := DiskEntryBytes(d, start, i);
    if c < 8 { EntryBytesRoundTrip(DiskEntryBytes(disk, start, i)); }
    forall j | 0 <= j < 68 ensures b[j] == EntryBytes(t[i])[j] {
      StageTableByte(disk, d, start, t, c, 68 * i + j);
      TableByteAt(t, i, j);
      if c < 8 { assert DiskEntryBytes(disk, start, i)[j] == DiskTableByte(disk, start, 68 * i + j); }
    }
    assert b == EntryBytes(t[i]);
    EntryRoundTrip(t[i]);
  }

  lemma EntryByteSplit(e: FileEntry)
    ensures EntryBytes(e)[44] == e.used
    ensures EntryBytes(e)[45..68] == e.reserved
  {
  }

  lemma ParsedUsed(b: Bytes)
    requires |b| == 68
    ensures ParseEntry(b).used == b[44]
  {
  }

  /** The entry being created is torn only harmlessly: its `used` byte comes after
      the fields that matter, so it is either still dead or complete. */
  lemma StageEntryNew(disk: seq<Sector>, d: seq<Sector>, start: nat, t: Table, c: nat, i: nat)
    requires i < STORED && Rewritten(disk, d, start, TableImage(t), c)
    requires !Live(DiskEntry(disk, start, i)) && DiskEntry(disk, start, i).reserved == t[i].reserved
    ensures DiskEntry(d, start, i) == t[i] || !Live(DiskEntry(d, start, i))
    ensures c == 0 ==> !Live(DiskEntry(d, start, i))
    ensures c == 8 ==> DiskEntry(d, start, i) == t[i]
  {
    hide TableByte, EntryBytes, TableSector, DiskTableByte, ParseEntry;
    var b, old', new' := DiskEntryBytes(d, start, i), DiskEntryBytes(disk, start, i), EntryBytes(t[i]);
    var e := DiskEntry(disk, start, i);
    forall j | 0 <= j < 68 ensures b[j] == if (68 * i + j) / 512 < c then new'[j] else old'[j] {
      StageTableByte(disk, d, start, t, c, 68 * i + j);
      TableByteAt(t, i, j);
    }
    EntryBytesRoundTrip(old');
    EntryByteSplit(e);
    EntryByteSplit(t[i]);
    ParsedUsed(b);
    if (68 * i + 44) / 512 < c {
      forall j | 0 <= j < 68 ensures b[j] == new'[j] {
        if j > 44 {
          assert new'[j] == new'[45..68][j - 45] && old'[j] == old'[45..68][j - 45];
        }
      }
      assert b == new';
      EntryRoundTrip(t[i]);
    } else {
      assert b[44] == old'[44];
    }
  }
}
