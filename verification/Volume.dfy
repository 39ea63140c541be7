/**
 The on-disk format of EKE-FS and the meaning of its operations on a volume:
 sectors on disk, block space, file table in memory. All multi-sector writes go
 out in order, one sector at a time.
 */
module Volume {
  import opened Words
  import opened Bitmap
  import opened Spmm

  const SECTOR := 512
  const MAGIC: u32 := 0x454B4546
  const MAX_FILES := 64
  const ENTRY := 68
  /** Entries that lie completely in the eight sectors kept on disk. */
  const STORED := 60
  const TABLE_SECTORS := 8

  type Sector = s: seq<byte> | |s| == 512 witness seq(512, _ => 0)
  type Bytes = seq<byte>

  // ----- superblock -----

  datatype Super = Super(magic: u32, blockSize: u32, total: word, bitmapStart: word, bitmapCount: word,
                         tableStart: word, tableCount: word, dataStart: word)

  function BitmapSectors(total: nat): nat {
    (total / 8 + SECTOR - 1) / SECTOR
  }

  function TableStart(total: nat): nat {
    1 + BitmapSectors(total)
  }

  function DataStart(total: nat): nat {
    TableStart(total) + TABLE_SECTORS
  }

  function Zeros(n: nat): (r: Bytes)
    ensures |r| == n
  {
    seq(n, _ => 0)
  }

  /** Superblock of a device with `total` sectors. */
  function Geometry(total: nat): Super
    requires total < 0x1_0000_0000
  {
    Super(MAGIC, SECTOR, total, 1, BitmapSectors(total), TableStart(total), TABLE_SECTORS, DataStart(total))
  }

  function SuperSector(sb: Super): Sector {
    Bytes32(sb.magic) + Bytes32(sb.blockSize) + Bytes64(sb.total) + Bytes64(sb.bitmapStart) + Bytes64(sb.bitmapCount)
    + Bytes64(sb.tableStart) + Bytes64(sb.tableCount) + Bytes64(sb.dataStart) + Zeros(456)
  }

  function ParseSuper(s: Sector): Super {
    Super(Read32(s[0..4]), Read32(s[4..8]), Read64(s[8..16]), Read64(s[16..24]), Read64(s[24..32]),
          Read64(s[32..40]), Read64(s[40..48]), Read64(s[48..56]))
  }

  lemma SuperRoundTrip(sb: Super)
    ensures ParseSuper(SuperSector(sb)) == sb
  {
    hide Bytes32, Bytes64, Read32, Read64;
    var s := SuperSector(sb);
    assert s[0..4] == Bytes32(sb.magic);
    assert s[4..8] == Bytes32(sb.blockSize);
    assert s[8..16] == Bytes64(sb.total);
    assert s[16..24] == Bytes64(sb.bitmapStart);
    assert s[24..32] == Bytes64(sb.bitmapCount);
    assert s[32..40] == Bytes64(sb.tableStart);
    assert s[40..48] == Bytes64(sb.tableCount);
    assert s[48..56] == Bytes64(sb.dataStart);
    Read32Bytes32(sb.magic);
    Read32Bytes32(sb.blockSize);
    Read64Bytes64(sb.total);
    Read64Bytes64(sb.bitmapStart);
    Read64Bytes64(sb.bitmapCount);
    Read64Bytes64(sb.tableStart);
    Read64Bytes64(sb.tableCount);
    Read64Bytes64(sb.dataStart);
  }

  /** The bitmap sectors have a bit for every block exactly when the remainder
      that the rounding forgets is none or at least a byte. */
  lemma BitmapCovers(total: nat)
    ensures total <= 4096 * BitmapSectors(total) <==> total % 4096 == 0 || total % 4096 >= 8
  {
    var q, r := total / 4096, total % 4096;
    assert total == 4096 * q + r;
    BitmapRounding(q, r);
  }

  lemma BitmapRounding(q: nat, r: nat)
    requires r < 4096
    ensures (4096 * q + r) / 8 == 512 * q + r / 8
    ensures BitmapSectors(4096 * q + r) == if r < 8 then q else q + 1
  {
  }

  // ----- file entries -----

  datatype Entry = Entry(name: Bytes, size: u32, start: u32, count: u32, used: byte, reserved: Bytes)

  type FileEntry = e: Entry | |e.name| == 32 && |e.reserved| == 23
    witness Entry(seq(32, _ => 0), 0, 0, 0, 0, seq(23, _ => 0))

  function EntryBytes(e: FileEntry): (r: Bytes)
    ensures |r| == ENTRY
  {
    e.name + Bytes32(e.size) + Bytes32(e.start) + Bytes32(e.count) + [e.used] + e.reserved
  }

  function ParseEntry(b: Bytes): FileEntry
    requires |b| == ENTRY
  {
    Entry(b[..32], Read32(b[32..36]), Read32(b[36..40]), Read32(b[40..44]), b[44], b[45..68])
  }

  lemma EntryRoundTrip(e: FileEntry)
    ensures ParseEntry(EntryBytes(e)) == e
  {
    hide Bytes32, Read32;
    var b := EntryBytes(e);
    assert b[..32] == e.name;
    assert b[32..36] == Bytes32(e.size);
    assert b[36..40] == Bytes32(e.start);
    assert b[40..44] == Bytes32(e.count);
    assert b[44] == e.used;
    assert b[45..68] == e.reserved;
    Read32Bytes32(e.size);
    Read32Bytes32(e.start);
    Read32Bytes32(e.count);
  }

  lemma EntryBytesRoundTrip(b: Bytes)
    requires |b| == ENTRY
    ensures EntryBytes(ParseEntry(b)) == b
  {
    hide Bytes32, Read32;
    Bytes32Read32(b[32..36]);
    Bytes32Read32(b[36..40]);
    Bytes32Read32(b[40..44]);
    assert b == b[..32] + b[32..36] + b[36..40] + b[40..44] + [b[44]] + b[45..68];
  }

  /** Text of a name field: the bytes before the first NUL. */
  function CStr(name: Bytes): Bytes {
    if name == [] || name[0] == 0 then [] else [name[0]] + CStr(name[1..])
  }

  /** Copying a path of at most 31 bytes into a name field. */
  function PutName(field: Bytes, path: Bytes): (r: Bytes)
    requires |field| == 32
    ensures |r| == 32
  {
    var p := if |path| <= 31 then path else path[..31];
    p + [0] + field[|p| + 1..]
  }

  predicate GoodPath(path: Bytes) {
    |path| <= 31 && forall i :: 0 <= i < |path| ==> path[i] != 0
  }

  lemma {:induction false} CStrStops(path: Bytes, rest: Bytes)
    requires forall i :: 0 <= i < |path| ==> path[i] != 0
    ensures CStr(path + [0] + rest) == path
    decreases path
  {
    if path == [] {
      assert path + [0] + rest == [0] + rest;
    } else {
      assert (path + [0] + rest)[1..] == path[1..] + [0] + rest;
      CStrStops(path[1..], rest);
    }
  }

  lemma NameRoundTrip(field: Bytes, path: Bytes)
    requires |field| == 32 && GoodPath(path)
    ensures CStr(PutName(field, path)) == path
  {
    CStrStops(path, field[|path| + 1..]);
  }

  // ----- sectors of bitmap, table and data -----

  function BitmapSector(words: seq<word>, k: nat): Sector
    requires 64 * k + 64 <= |words|
  {
    seq(512, j requires 0 <= j < 512 => Bytes64(words[64 * k + j / 8])[j % 8])
  }

  function BitmapImage(words: seq<word>, n: nat): (r: seq<Sector>)
    requires 64 * n <= |words|
    ensures |r| == n
  {
    seq(n, k requires 0 <= k < n => BitmapSector(words, k))
  }

  /** Word `w` of the bitmap stored from sector 1 on. */
  function DiskWord(disk: seq<Sector>, w: nat): word
    requires 1 + w / 64 < |disk|
  {
    Read64(disk[1 + w / 64][8 * (w % 64)..8 * (w % 64) + 8])
  }

  lemma BitmapSectorReads(words: seq<word>, k: nat, i: nat)
    requires 64 * k + 64 <= |words| && i < 64
    ensures Read64(BitmapSector(words, k)[8 * i..8 * i + 8]) == words[64 * k + i]
  {
    hide Bytes64, Read64;
    var s, b := BitmapSector(words, k), Bytes64(words[64 * k + i]);
    forall j | 0 <= j < 8 ensures s[8 * i + j] == b[j] {
      assert (8 * i + j) / 8 == i && (8 * i + j) % 8 == j;
    }
    assert s[8 * i..8 * i + 8] == b;
    Read64Bytes64(words[64 * k + i]);
  }

  type Table = t: seq<FileEntry> | |t| == 64 witness seq(64, _ => Entry(seq(32, _ => 0), 0, 0, 0, 0, seq(23, _ => 0)))

  function TableByte(t: Table, k: nat): byte
    requires k < 4352
  {
    EntryBytes(t[k / 68])[k % 68]
  }

  function TableSector(t: Table, k: nat): Sector
    requires k < 8
  {
    var r: Bytes := seq<byte>(512, j requires 0 <= j < 512 => TableByte(t, 512 * k + j));
    r
  }

  function TableImage(t: Table): (r: seq<Sector>)
    ensures |r| == 8
  {
    seq(8, k requires 0 <= k < 8 => TableSector(t, k))
  }

  /** Byte `k` of the file table stored from sector `start` on. */
  function DiskTableByte(disk: seq<Sector>, start: nat, k: nat): byte
    requires start + k / 512 < |disk|
  {
    disk[start + k / 512][k % 512]
  }

  function DiskEntry(disk: seq<Sector>, start: nat, i: nat): FileEntry
    requires start + 8 <= |disk| && i < STORED
  {
    ParseEntry(seq<byte>(68, j requires 0 <= j < 68 => DiskTableByte(disk, start, 68 * i + j)))
  }

  function DataSector(data: Bytes, k: nat): Sector {
    seq(512, j requires 0 <= j < 512 => if 512 * k + j < |data| then data[512 * k + j] else 0)
  }

  function DataImage(data: Bytes, n: nat): (r: seq<Sector>)
    ensures |r| == n
  {
    seq(n, k requires 0 <= k < n => DataSector(data, k))
  }

  /** The first `size` bytes stored from sector `start` on. */
  function FileBytes(disk: seq<Sector>, start: nat, size: nat): (r: Bytes)
    ensures |r| == size
  {
    seq<byte>(size, k requires 0 <= k < size => if start + k / 512 < |disk| then disk[start + k / 512][k % 512] else 0)
  }

  // ----- writing sectors -----

  datatype SectorWrite = SectorWrite(lba: nat, data: Sector)

  /** Consecutive sectors replaced. */
  function Overwrite(disk: seq<Sector>, lba: nat, data: seq<Sector>): (r: seq<Sector>)
    requires lba + |data| <= |disk|
    ensures |r| == |disk|
    ensures forall x :: 0 <= x < |disk| ==> r[x] == if lba <= x < lba + |data| then data[x - lba] else disk[x]
  {
    disk[..lba] + data + disk[lba + |data|..]
  }

  function Writes(lba: nat, data: seq<Sector>): (r: seq<SectorWrite>)
    ensures |r| == |data|
  {
    seq(|data|, k requires 0 <= k < |data| => SectorWrite(lba + k, data[k]))
  }

  /** The disk after the given writes; writes outside the device have no effect. */
  function ApplyWrites(disk: seq<Sector>, log: seq<SectorWrite>): (r: seq<Sector>)
    ensures |r| == |disk|
    decreases |log|
  {
    if log == [] then disk
    else
      var d, w := ApplyWrites(disk, log[..|log| - 1]), log[|log| - 1];
      if w.lba < |d| then d[w.lba := w.data] else d
  }

  lemma {:induction false} ApplyAppend(disk: seq<Sector>, a: seq<SectorWrite>, b: seq<SectorWrite>)
    ensures ApplyWrites(disk, a + b) == ApplyWrites(ApplyWrites(disk, a), b)
    decreases |b|
  {
    if b == [] {
      assert a + b == a;
    } else {
      var c := b[..|b| - 1];
      assert (a + b)[..|a + b| - 1] == a + c;
      ApplyAppend(disk, a, c);
    }
  }

  lemma {:induction false} ApplyWritesIs(disk: seq<Sector>, lba: nat, data: seq<Sector>)
    requires lba + |data| <= |disk|
    ensures ApplyWrites(disk, Writes(lba, data)) == Overwrite(disk, lba, data)
    decreases |data|
  {
    if data == [] {
      assert Overwrite(disk, lba, data) == disk;
    } else {
      var n := |data| - 1;
      assert Writes(lba, data)[..n] == Writes(lba, data[..n]);
      ApplyWritesIs(disk, lba, data[..n]);
    }
  }

  // ----- volumes -----

  /** A mounted volume. */
  datatype Vol = Vol(disk: seq<Sector>, sp: Space, table: Table)

  predicate Live(e: FileEntry) {
    e.used != 0
  }

  ghost predicate Owns(e: FileEntry, b: nat) {
    Live(e) && e.start <= b < e.start + e.count
  }

  /** Some stored entry's extent contains block `b`. */
  ghost predicate Owned(t: Table, b: nat) {
    exists i :: 0 <= i < STORED && Owns(t[i], b)
  }

  /** Sizes fit together: the device, its bitmap and its table. */
  ghost predicate Shaped(v: Vol) {
    var total := v.sp.total;
    && |v.disk| == total < 0x1_0000_0000 && DataStart(total) <= total <= 4096 * BitmapSectors(total)
    && |v.sp.words| == 64 * BitmapSectors(total)
    && (forall i :: STORED <= i < MAX_FILES ==> !Live(v.table[i]))
    && ParseSuper(v.disk[0]) == Geometry(total)
  }

  ghost predicate GoodExtent(e: FileEntry, total: nat) {
    DataStart(total) <= e.start && 1 <= e.count && e.start + e.count <= total && e.size <= 512 * e.count
  }

  ghost predicate Extents(t: Table, total: nat) {
    forall i :: 0 <= i < STORED && Live(t[i]) ==> GoodExtent(t[i], total)
  }

  ghost predicate ApartExtents(a: FileEntry, b: FileEntry) {
    a.start + a.count <= b.start || b.start + b.count <= a.start
  }

  /** Different live files: disjoint extents, different names. */
  ghost predicate Distinct(t: Table) {
    forall i, j :: 0 <= i < j < STORED && Live(t[i]) && Live(t[j]) ==>
      ApartExtents(t[i], t[j]) && CStr(t[i].name) != CStr(t[j].name)
  }

  /** Metadata and every block of a live file is marked used. */
  ghost predicate Marked(v: Vol) {
    forall b: nat :: b < v.sp.total && (b < DataStart(v.sp.total) || Owned(v.table, b)) ==> GetBit(v.sp.words, b)
  }

  /** No other block is. */
  ghost predicate NoLeaks(v: Vol) {
    forall b: nat :: b < v.sp.total && GetBit(v.sp.words, b) ==> b < DataStart(v.sp.total) || Owned(v.table, b)
  }

  /** The disk holds the table, and the bitmap from the data area on. */
  ghost predicate Synced(v: Vol)
    requires Shaped(v)
  {
    && (forall i :: 0 <= i < STORED ==> DiskEntry(v.disk, TableStart(v.sp.total), i) == v.table[i])
    && (forall b: nat :: DataStart(v.sp.total) <= b < 64 * |v.sp.words| ==>
          Bit(DiskWord(v.disk, b / 64), b % 64) == GetBit(v.sp.words, b))
  }

  /** Invariant of every mounted volume, also after a crash. */
  ghost predicate Safe(v: Vol) {
    Shaped(v) && Counted(v.sp) && Extents(v.table, v.sp.total) && Distinct(v.table) && Marked(v) && Synced(v)
  }

  /** First live slot with that name, or 64. */
  function FindSlot(t: Table, path: Bytes, from: nat): (i: nat)
    requires from <= MAX_FILES
    ensures from <= i <= MAX_FILES
    ensures i < MAX_FILES ==> Live(t[i]) && CStr(t[i].name) == path
    ensures forall j :: from <= j < i ==> !(Live(t[j]) && CStr(t[j].name) == path)
    decreases MAX_FILES - from
  {
    if from == MAX_FILES || (Live(t[from]) && CStr(t[from].name) == path) then from else FindSlot(t, path, from + 1)
  }

  function FreeSlot(t: Table, from: nat): (i: nat)
    requires from <= MAX_FILES
    ensures from <= i <= MAX_FILES
    ensures i < MAX_FILES ==> !Live(t[i])
    ensures forall j :: from <= j < i ==> Live(t[j])
    decreases MAX_FILES - from
  {
    if from == MAX_FILES || !Live(t[from]) then from else FreeSlot(t, from + 1)
  }

}
