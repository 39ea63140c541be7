/**
 The file system as it runs: one mounted device and the file table in memory.
 Each operation is tied to its meaning in module FileSystem.
 */
module EkeFs {
  import opened Words
  import opened Bitmap
  import opened Spmm
  import opened Volume
  import opened Device
  import opened Options
  import F = FileSystem
  import I = Integrity
  import H = FileHistory

  /** Comparing a name field with a path, byte by byte. */
  method StrEq(name: Bytes, path: Bytes) returns (eq: bool)
    requires forall i :: 0 <= i < |path| ==> path[i] != 0
    ensures eq <==> CStr(name) == path
  {
    var i := 0;
    while i < |name| && name[i] != 0 && i < |path|
      invariant i <= |name| && i <= |path|
      invariant CStr(name) == path <==> CStr(name[i..]) == path[i..]
    {
      assert CStr(name[i..]) == [name[i]] + CStr(name[i..][1..]);
      assert name[i..][1..] == name[i + 1..];
      assert path[i..] == [path[i]] + path[i + 1..];
      if name[i] != path[i] {
        assert CStr(name[i..])[0] != path[i..][0];
        return false;
      }
      ConsEqual(name[i], CStr(name[i + 1..]), path[i + 1..]);
      i := i + 1;
    }
    eq := (i == |name| || name[i] == 0) && i == |path|;
  }

  lemma ConsEqual(b: byte, s: Bytes, t: Bytes)
    ensures [b] + s == [b] + t <==> s == t
  {
    if [b] + s == [b] + t {
      assert s == ([b] + s)[1..];
      assert t == ([b] + t)[1..];
    }
  }

  /** Copying at most 31 bytes and a NUL into a 32-byte field. */
  method StrCopy(dest: Bytes, src: Bytes) returns (r: Bytes)
    requires |dest| == 32
    ensures r == PutName(dest, src)
  {
    r := dest;
    var i := 0;
    while i < |src| && i < 31
      invariant i <= |src| && i <= 31
      invariant r == src[..i] + dest[i..]
    {
      r := r[i := src[i]];
      i := i + 1;
    }
    r := r[i := 0];
    assert src[..i] == if |src| <= 31 then src else src[..31];
  }

  /** The zero-padded buffer that is written to the data blocks. */
  method PrepareBuffer(data: Bytes, blocks: nat) returns (image: seq<Sector>)
    requires |data| <= 512 * blocks
    ensures image == DataImage(data, blocks)
  {
    var temp := new byte[512 * blocks];
    for i := 0 to 512 * blocks
      invariant forall k :: 0 <= k < i ==> temp[k] == 0
    {
      temp[i] := 0;
    }
    for i := 0 to |data|
      invariant forall k :: 0 <= k < i ==> temp[k] == data[k]
      invariant forall k :: i <= k < 512 * blocks ==> temp[k] == 0
    {
      temp[i] := data[i];
    }
    image := [];
    for k := 0 to blocks
      invariant image == DataImage(data, k)
    {
      var s: Sector := temp[512 * k..512 * k + 512];
      assert s == DataSector(data, k);
      image := image + [s];
    }
  }

  class FileSystem {
    const dev: BlockDevice
    const fileTable: array<FileEntry>
    var sb: Super

    constructor (dev: BlockDevice, table: array<FileEntry>)
      ensures this.dev == dev && fileTable == table
    {
      this.dev := dev;
      fileTable := table;
      sb := Super(0, 0, 0, 0, 0, 0, 0, 0);
    }

    ghost predicate Mounted()
      reads this, dev
    {
      && fileTable.Length == MAX_FILES
      && dev.Valid() && sb == Geometry(dev.totalBlocks)
    }

    ghost function Volume(): Vol
      reads this, dev, dev.sectors, dev.bitmap, fileTable
      requires fileTable.Length == MAX_FILES
    {
      Vol(dev.sectors[..], dev.State(), fileTable[..])
    }

    method FindFile(path: Bytes) returns (i: nat)
      requires fileTable.Length == MAX_FILES && forall k :: 0 <= k < |path| ==> path[k] != 0
      ensures i == FindSlot(fileTable[..], path, 0)
    {
      i := 0;
      while i < MAX_FILES
        invariant i <= MAX_FILES && FindSlot(fileTable[..], path, 0) == FindSlot(fileTable[..], path, i)
      {
        if fileTable[i].used != 0 {
          var eq := StrEq(fileTable[i].name, path);
          if eq { return; }
        }
        i := i + 1;
      }
    }

    method FindFree() returns (i: nat)
      requires fileTable.Length == MAX_FILES
      ensures i == FreeSlot(fileTable[..], 0)
    {
      i := 0;
      while i < MAX_FILES && fileTable[i].used != 0
        invariant i <= MAX_FILES && FreeSlot(fileTable[..], 0) == FreeSlot(fileTable[..], i)
      {
        i := i + 1;
      }
    }

    /** Reads the first bytes of a file into a buffer; -1 when there is none. */
    method ReadFile(path: Bytes, buffer: array<byte>, maxBytes: nat) returns (n: int)
      requires Mounted() && Safe(Volume()) && GoodPath(path) && buffer.Length >= maxBytes
      modifies buffer
      ensures F.Lookup(old(Volume()), path).None? ==> n == -1 && buffer[..] == old(buffer[..])
      ensures var r := F.Lookup(old(Volume()), path);
              r.Some? ==> n == Min(|r.value|, maxBytes) && buffer[..n] == r.value[..n] && buffer[n..] == old(buffer[n..])
    {
      hide Safe, FindSlot, CStr;
      ghost var v := Volume();
      var i := FindFile(path);
      if i == MAX_FILES { return -1; }
      var e := fileTable[i];
      assert e == v.table[i];
      var toRead := Min(e.size, maxBytes);
      I.SafeSlot(v, path);
      FoundLive(v.table, path);
      I.SafeEntry(v, i);
      I.SafeShape(v);
      if toRead == 0 { return 0; }
      var temp := dev.ReadSectors(e.start, e.count);
      ghost var content := FileBytes(v.disk, e.start, e.size);
      for k := 0 to toRead
        invariant forall m :: 0 <= m < k ==> buffer[m] == content[m]
        invariant buffer[k..] == old(buffer[k..])
      {
        buffer[k] := temp[k / 512][k % 512];
      }
      n := toRead;
    }

    method GetSize(path: Bytes) returns (n: nat)
      requires Mounted() && GoodPath(path)
      ensures var r := F.Lookup(Volume(), path); n == if r.Some? then |r.value| else 0
    {
      var i := FindFile(path);
      if i == MAX_FILES { return 0; }
      n := fileTable[i].size;
    }

    /** Bitmap and table go to disk. */
    method FlushMetadata()
      requires Mounted() && dev.bitmap.Length == 64 * BitmapSectors(dev.totalBlocks)
      requires DataStart(dev.totalBlocks) <= dev.sectors.Length
      modifies dev`log, dev.sectors
      ensures dev.log == old(dev.log) + F.FlushLog(dev.totalBlocks, dev.bitmap[..], fileTable[..])
      ensures dev.sectors[..] == ApplyWrites(old(dev.sectors[..]), F.FlushLog(dev.totalBlocks, dev.bitmap[..], fileTable[..]))
    {
      ghost var disk := dev.sectors[..];
      var bitmapImage := BitmapImage(dev.bitmap[..], sb.bitmapCount);
      var tableImage := TableImage(fileTable[..]);
      dev.WriteSectors(sb.bitmapStart, bitmapImage);
      dev.WriteSectors(sb.tableStart, tableImage);
      ApplyAppend(disk, Writes(1, bitmapImage), Writes(sb.tableStart, tableImage));
      ApplyWritesIs(disk, 1, bitmapImage);
      ApplyWritesIs(Overwrite(disk, 1, bitmapImage), sb.tableStart, tableImage);
    }

    /** Write a superblock and clear bitmap and table. */
    method Format()
      requires dev.sectors.Length < 0x1_0000_0000 && DataStart(dev.sectors.Length) <= dev.sectors.Length
      modifies dev`log, dev.sectors
      ensures dev.log == old(dev.log) + F.FormatLog(dev.sectors.Length)
      ensures dev.sectors[..] == ApplyWrites(old(dev.sectors[..]), F.FormatLog(dev.sectors.Length))
    {
      hide ApplyWrites, Writes, Geometry, SuperSector;
      var total := dev.sectors.Length;
      ghost var disk := dev.sectors[..];
      dev.WriteSectors(0, [SuperSector(Geometry(total))]);
      ghost var disk1 := dev.sectors[..];
      ZeroSectors(1, BitmapSectors(total));
      ghost var disk2 := dev.sectors[..];
      ZeroSectors(TableStart(total), TABLE_SECTORS);
      var s, b, t := Writes(0, [SuperSector(Geometry(total))]), Writes(1, Blank(BitmapSectors(total))), Writes(TableStart(total), Blank(TABLE_SECTORS));
      ApplyWritesIs(disk, 0, [SuperSector(Geometry(total))]);
      ApplyAppend(disk, s, b);
      ApplyAppend(disk, s + b, t);
    }

    method ZeroSectors(lba: nat, n: nat)
      requires lba + n <= dev.sectors.Length
      modifies dev`log, dev.sectors
      ensures dev.log == old(dev.log) + Writes(lba, Blank(n))
      ensures dev.sectors[..] == ApplyWrites(old(dev.sectors[..]), Writes(lba, Blank(n)))
    {
      hide ApplyWrites;
      ghost var disk := dev.sectors[..];
      assert Overwrite(disk, lba, Blank(0)) == disk;
      for i := 0 to n
        invariant dev.log == old(dev.log) + Writes(lba, Blank(i))
        invariant dev.sectors[..] == Overwrite(disk, lba, Blank(i))
      {
        dev.WriteSectors(lba + i, [Zeros(512)]);
        assert Blank(i + 1) == Blank(i) + [Zeros(512)];
        assert Writes(lba, Blank(i + 1)) == Writes(lba, Blank(i)) + Writes(lba + i, [Zeros(512)]);
      }
      ApplyWritesIs(disk, lba, Blank(n));
    }

    /** Mount the device, formatting it first when it carries no superblock. */
    method Mount()
      requires fileTable.Length == MAX_FILES && dev.sectors.Length < 0x1_0000_0000
      requires DataStart(dev.sectors.Length) <= dev.sectors.Length <= 4096 * BitmapSectors(dev.sectors.Length)
      requires dev.bitmap.Length == 64 * BitmapSectors(dev.sectors.Length)
      requires ParseSuper(dev.sectors[0]).magic == MAGIC ==> ParseSuper(dev.sectors[0]) == Geometry(dev.sectors.Length)
      modifies this, dev, dev.sectors, dev.bitmap, fileTable
      ensures Mounted()
      ensures var disk, total := old(dev.sectors[..]), dev.sectors.Length;
              var ready := if ParseSuper(disk[0]).magic == MAGIC then disk else ApplyWrites(disk, F.FormatLog(total));
              Volume() == F.Mount(ready, total, old(fileTable[..]))
    {
      hide ApplyWrites, ParseSuper, Geometry, SuperSector, F.FormatLog, BitmapSectors, DiskWord, MarkFirst, DiskEntry;
      var total := dev.sectors.Length;
      if ParseSuper(dev.sectors[0]).magic != MAGIC {
        FormattedSuper(dev.sectors[..], total);
        Format();
      }
      ghost var disk := dev.sectors[..];
      sb := ParseSuper(dev.sectors[0]);
      GeometryFields(total);
      LoadBitmap(total);
      LoadTable();
    }

    /** Load the bitmap, count its free blocks, reserve the metadata. */
    method LoadBitmap(total: nat)
      requires total < 0x1_0000_0000 && sb == Geometry(total) && DataStart(total) <= dev.sectors.Length
      requires total <= 64 * dev.bitmap.Length && dev.bitmap.Length == 64 * BitmapSectors(total)
      modifies dev, dev.bitmap
      ensures dev.Valid() && dev.totalBlocks == total
      ensures var words := F.DiskWords(dev.sectors[..], total);
              dev.State() == MarkFirst(Space(words, total, CountClear(words, total), 1), DataStart(total))
    {
      hide Geometry, BitmapSectors, DiskWord, MarkFirst, CountClear;
      ghost var disk := dev.sectors[..];
      GeometryFields(total);
      for w := 0 to 64 * sb.bitmapCount
        modifies dev.bitmap
        invariant dev.sectors[..] == disk
        invariant forall k :: 0 <= k < w ==> dev.bitmap[k] == DiskWord(disk, k)
      {
        dev.bitmap[w] := DiskWord(dev.sectors[..], w);
      }
      assert dev.bitmap[..] == F.DiskWords(disk, total);
      dev.Init(sb.total);
      ghost var sp0 := dev.State();
      MarkNone(sp0);
      for b := 0 to sb.dataStart
        modifies dev`freeBlocks, dev.bitmap
        invariant dev.Valid() && dev.State() == MarkFirst(sp0, b)
      {
        dev.MarkUsed(b);
        MarkNext(sp0, b);
      }
    }

    /** Eight sectors over the table in memory: 60 entries and 16 bytes. */
    method LoadTable()
      requires Mounted() && DataStart(dev.totalBlocks) <= dev.sectors.Length
      modifies fileTable
      ensures fileTable[..] == F.LoadedTable(dev.sectors[..], TableStart(dev.totalBlocks), old(fileTable[..]))
    {
      hide DiskEntry, BitmapSectors;
      ghost var ram := fileTable[..];
      var start := sb.tableStart;
      for i := 0 to STORED
        invariant forall k :: 0 <= k < i ==> fileTable[k] == DiskEntry(dev.sectors[..], start, k)
        invariant forall k :: i <= k < MAX_FILES ==> fileTable[k] == ram[k]
      {
        fileTable[i] := DiskEntry(dev.sectors[..], start, i);
      }
      var cut := F.StoredTail(dev.sectors[..], start);
      fileTable[STORED] := fileTable[STORED].(name := cut + fileTable[STORED].name[16..]);
      assert fileTable[..] == F.LoadedTable(dev.sectors[..], start, ram);
    }

    /** The slot to write to; an existing file's blocks are given back. */
    method SelectSlot(path: Bytes) returns (slot: nat)
      requires Mounted() && GoodPath(path)
      modifies dev`freeBlocks, dev`lastFreeBlock, dev.bitmap
      ensures Mounted() && dev.totalBlocks <= 64 * dev.bitmap.Length
      ensures slot == F.WriteSlot(old(Volume()), path) && Volume() == old(Volume()).(sp := F.Released(old(Volume()), path))
    {
      hide FindSlot, FreeSlot, FreeRun, Geometry;
      slot := FindFile(path);
      if slot < MAX_FILES {
        dev.FreeContiguous(fileTable[slot].start, fileTable[slot].count);
      } else {
        slot := FindFree();
      }
    }

    /** Data, entry, bitmap and table of a file whose blocks are allocated. */
    method StoreFile(slot: nat, path: Bytes, data: Bytes, start: u32, blocks: u32)
      requires Mounted() && slot < MAX_FILES && |data| < TWO31 && blocks == F.BlocksFor(|data|)
      requires dev.bitmap.Length == 64 * BitmapSectors(dev.totalBlocks)
      requires DataStart(dev.totalBlocks) <= dev.sectors.Length && start + blocks <= dev.sectors.Length
      modifies dev`log, dev.sectors, fileTable
      ensures fileTable[..] == old(fileTable[..])[slot := F.NewEntry(old(fileTable[slot]), path, |data|, start, blocks)]
      ensures var log := F.WriteLog(dev.totalBlocks, start, data, dev.bitmap[..], fileTable[..]);
              dev.log == old(dev.log) + log && dev.sectors[..] == ApplyWrites(old(dev.sectors[..]), log)
    {
      hide ApplyWrites, Writes, Geometry, BitmapImage, DataImage, TableImage, F.BlocksFor;
      ghost var disk := dev.sectors[..];
      var image := PrepareBuffer(data, blocks);
      dev.WriteSectors(start, image);
      var e := fileTable[slot];
      var name := StrCopy(e.name, path);
      fileTable[slot] := e.(name := name, size := |data|, start := start, count := blocks, used := 1);
      ApplyWritesIs(disk, start, image);
      FlushMetadata();
      ghost var flush := F.FlushLog(dev.totalBlocks, dev.bitmap[..], fileTable[..]);
      ApplyAppend(disk, Writes(start, image), flush);
      LogShape(dev.totalBlocks, start, data, dev.bitmap[..], fileTable[..]);
    }

    /** Create or replace a file: 0, or -2 (table full), or -3 (disk full). */
    method WriteFile(path: Bytes, data: Bytes) returns (code: int)
      requires Mounted() && Safe(Volume()) && GoodPath(path) && |data| < TWO31
      modifies dev, dev.bitmap, dev.sectors, fileTable
      ensures Mounted()
      ensures var v := old(Volume());
              Shaped(v) && var r := F.WriteFile(v, path, data);
              code == r.code && Volume() == r.vol && dev.log == old(dev.log) + r.log
    {
      hide Safe, FindSlot, FreeSlot, CStr, ApplyWrites, Writes, FreeRun, AllocRun, Geometry, ParseSuper, F.WriteLog, F.WriteSlot, F.Released, BitmapSectors;
      ghost var v := Volume();
      I.SafeShape(v);
      I.SafeIsShaped(v);
      var blocks := (|data| + SECTOR - 1) / SECTOR;
      if blocks == 0 { blocks := 1; }
      var slot := SelectSlot(path);
      if slot == MAX_FILES {
        NothingReleased(v, path);
        return -2;
      }
      ghost var sp1 := dev.State();
      AllocInside(sp1, blocks);
      var start := dev.AllocContiguous(blocks);
      if start == 0 {
        AllocFails(sp1, blocks);
        return -3;
      }
      StoreFile(slot, path, data, start, blocks);
      code := 0;
    }

    /** Remove a file: 0, or -1 when there is none. */
    method DeleteFile(path: Bytes) returns (code: int)
      requires Mounted() && Safe(Volume()) && GoodPath(path)
      modifies dev, dev.bitmap, dev.sectors, fileTable
      ensures Mounted()
      ensures var v := old(Volume());
              Shaped(v) && var r := F.DeleteFile(v, path);
              code == r.code && Volume() == r.vol && dev.log == old(dev.log) + r.log
    {
      hide Safe, FindSlot, CStr, ApplyWrites, Writes, FreeRun, Geometry, ParseSuper, BitmapImage, TableImage;
      ghost var v := Volume();
      I.SafeShape(v);
      I.SafeIsShaped(v);
      var slot := FindFile(path);
      if slot == MAX_FILES { return -1; }
      dev.FreeContiguous(fileTable[slot].start, fileTable[slot].count);
      var e := fileTable[slot];
      fileTable[slot] := e.(used := 0, name := e.name[0 := 0]);
      assert fileTable[..] == v.table[slot := F.DeadEntry(v.table[slot])];
      FlushMetadata();
      code := 0;
    }
  }

  function Blank(n: nat): (r: seq<Sector>)
    ensures |r| == n
  {
    seq<Sector>(n, _ => Zeros(512))
  }

  lemma FormattedSuper(disk: seq<Sector>, total: nat)
    requires |disk| == total < 0x1_0000_0000 && DataStart(total) <= total
    ensures var d := ApplyWrites(disk, F.FormatLog(total)); |d| == total && ParseSuper(d[0]) == Geometry(total)
  {
    H.FormattedDisk(disk, total);
    SuperRoundTrip(Geometry(total));
  }

  lemma GeometryFields(total: nat)
    requires total < 0x1_0000_0000
    ensures var g := Geometry(total);
            && g.magic == MAGIC && g.total == total && g.bitmapStart == 1 && g.bitmapCount == BitmapSectors(total)
            && g.tableStart == TableStart(total) && g.dataStart == DataStart(total)
  {
  }

  lemma MarkNone(sp: Space)
    requires sp.total <= 64 * |sp.words|
    ensures MarkFirst(sp, 0) == sp
  {
  }

  lemma MarkNext(sp: Space, n: nat)
    requires sp.total <= 64 * |sp.words|
    ensures MarkFirst(sp, n + 1) == MarkBlock(MarkFirst(sp, n), n)
  {
  }

  lemma FoundLive(t: Table, path: Bytes)
    requires FindSlot(t, path, 0) < MAX_FILES
    ensures Live(t[FindSlot(t, path, 0)])
  {
  }

  lemma NothingReleased(v: Vol, path: Bytes)
    requires v.sp.total <= 64 * |v.sp.words| && F.WriteSlot(v, path) == MAX_FILES
    ensures F.Released(v, path) == v.sp
  {
  }

  lemma AllocInside(sp: Space, count: nat)
    requires sp.total <= 64 * |sp.words|
    ensures var s := AllocRun(sp, count).0; s != 0 ==> s + count <= sp.total
  {
  }

  lemma AllocFails(sp: Space, count: nat)
    requires sp.total <= 64 * |sp.words| && AllocRun(sp, count).0 == 0
    ensures AllocRun(sp, count).1 == sp
  {
  }

  lemma LogShape(total: nat, start: nat, data: Bytes, words: seq<word>, t: Table)
    requires 64 * BitmapSectors(total) <= |words|
    ensures F.WriteLog(total, start, data, words, t)
         == Writes(start, DataImage(data, F.BlocksFor(|data|))) + F.FlushLog(total, words, t)
  {
    hide Writes, DataImage, BitmapImage, TableImage;
  }
}
