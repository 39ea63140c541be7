/**
 Where the file table really lies. Mounting allocates one page of 4096 bytes for it,
 while every search runs over 64 entries of 68 bytes: the last four reach into the
 page behind, which belongs to whoever allocates next, such as the buffer of a file
 being written. Here those 256 bytes are foreign memory.
 */
module TablePage {
  import opened Words
  import opened Bitmap
  import opened Spmm
  import opened Volume
  import opened FileSystem
  import opened Integrity
  import opened Options

  type Page = b: Bytes | |b| == 4096 witness Zeros(4096)

  /** Entry `i` as the searches read it: from the page of the table and the one behind. */
  function EntryAt(page: Page, next: Page, i: nat): FileEntry
    requires i < MAX_FILES
  {
    ParseEntry((page + next)[68 * i..68 * i + 68])
  }

  function TableView(page: Page, next: Page): (t: Table)
    ensures forall i :: 0 <= i < MAX_FILES ==> t[i] == EntryAt(page, next, i)
  {
    seq<FileEntry>(MAX_FILES, i requires 0 <= i < MAX_FILES => EntryAt(page, next, i))
  }

  /** An entry lies inside the page of the table exactly when it is one of the first 60. */
  lemma InsidePage(page: Page, next: Page, other: Page, i: nat)
    requires i < MAX_FILES
    ensures 68 * i + 68 <= |page| <==> i < STORED
    ensures i < STORED ==> EntryAt(page, next, i) == EntryAt(page, other, i)
  {
    hide ParseEntry;
    if i < STORED {
      assert (page + next)[68 * i..68 * i + 68] == page[68 * i..68 * i + 68];
      assert (page + other)[68 * i..68 * i + 68] == page[68 * i..68 * i + 68];
    }
  }

  /** Offset in the page behind of the used byte of entry `i`. */
  function UsedOffset(i: nat): nat
    requires STORED <= i < MAX_FILES
  {
    68 * i + 44 - 4096
  }

  /** The used bytes of the last four entries: bytes 28, 96, 164 and 232 behind the page. */
  predicate TailBytesClear(next: Page) {
    next[28] == 0 && next[96] == 0 && next[164] == 0 && next[232] == 0
  }

  lemma TailUsed(page: Page, next: Page, i: nat)
    requires STORED <= i < MAX_FILES
    ensures EntryAt(page, next, i).used == next[UsedOffset(i)]
  {
    hide ParseEntry;
    var b := (page + next)[68 * i..68 * i + 68];
    ParsedUsed(b);
    assert b[44] == (page + next)[68 * i + 44];
  }

  lemma TailIsClear(page: Page, next: Page)
    ensures TailDead(TableView(page, next)) <==> TailBytesClear(next)
  {
    hide EntryAt;
    var t := TableView(page, next);
    TailUsed(page, next, 60);
    TailUsed(page, next, 61);
    TailUsed(page, next, 62);
    TailUsed(page, next, 63);
    assert TailDead(t) <==> !Live(t[60]) && !Live(t[61]) && !Live(t[62]) && !Live(t[63]);
  }

  // ----- mounting -----

  /** The eight sectors of the stored table. */
  function StoredPage(disk: seq<Sector>, start: nat): (page: Page)
    requires start + 8 <= |disk|
  {
    seq<byte>(4096, k requires 0 <= k < 4096 => DiskTableByte(disk, start, k))
  }

  /** Reading the sectors fills the page and leaves the one behind as it is. */
  lemma LoadFillsPage(disk: seq<Sector>, start: nat, page: Page, next: Page)
    requires start + 8 <= |disk|
    ensures LoadedTable(disk, start, TableView(page, next)) == TableView(StoredPage(disk, start), next)
  {
    hide DiskTableByte, ParseEntry;
    var stored := StoredPage(disk, start);
    var t, u := LoadedTable(disk, start, TableView(page, next)), TableView(stored, next);
    forall i | 0 <= i < STORED ensures t[i] == u[i] {
      assert (stored + next)[68 * i..68 * i + 68] == DiskEntryBytes(disk, start, i);
    }
    CutEntry(disk, start, page, next);
    forall i | STORED < i < MAX_FILES ensures t[i] == u[i] {
      assert (stored + next)[68 * i..68 * i + 68] == (page + next)[68 * i..68 * i + 68];
    }
  }

  /** Entry 60: its first 16 bytes are the last of the page. */
  lemma CutEntry(disk: seq<Sector>, start: nat, page: Page, next: Page)
    requires start + 8 <= |disk|
    ensures var ram := EntryAt(page, next, STORED);
            ram.(name := StoredTail(disk, start) + ram.name[16..]) == EntryAt(StoredPage(disk, start), next, STORED)
  {
    hide DiskTableByte, Read32;
    var stored := StoredPage(disk, start);
    var a, b := (page + next)[4080..4148], (stored + next)[4080..4148];
    assert a[16..] == next[..52] && b[16..] == next[..52];
    assert b[..16] == StoredTail(disk, start);
    assert b[..32] == b[..16] + b[16..32];
    assert a[..32][16..] == a[16..32];
    SameTail(a, b, 16, 32);
    SameTail(a, b, 32, 36);
    SameTail(a, b, 36, 40);
    SameTail(a, b, 40, 44);
    SameTail(a, b, 45, 68);
    assert a[44] == a[16..][28] && b[44] == b[16..][28];
  }

  lemma SameTail(a: Bytes, b: Bytes, m: nat, n: nat)
    requires |a| == |b| == 68 && a[16..] == b[16..] && 16 <= m <= n <= 68
    ensures a[m..n] == b[m..n]
  {
    assert a[m..n] == a[16..][m - 16..n - 16];
    assert b[m..n] == b[16..][m - 16..n - 16];
  }

  /** The mounted table is the stored page seen with the foreign bytes. */
  lemma MountedTable(v: Vol, page: Page, next: Page)
    requires Safe(v)
    ensures |v.disk| == v.sp.total && DataStart(v.sp.total) <= v.sp.total <= 4096 * BitmapSectors(v.sp.total)
    ensures var v' := Mount(v.disk, v.sp.total, TableView(page, next));
            && v'.disk == v.disk && v'.table == TableView(StoredPage(v.disk, TableStart(v.sp.total)), next)
            && (forall i :: 0 <= i < STORED ==> v'.table[i] == v.table[i]) && TailDead(v.table)
  {
    hide Safe, TableView, LoadedTable, BitmapSectors, StoredPage, MarkFirst, CountClear, DiskWords, DiskEntry;
    SafeShape(v);
    LoadFillsPage(v.disk, TableStart(v.sp.total), page, next);
  }

  /** What is mounted over foreign memory: the volume is safe exactly when the four
      used bytes behind the page are zero, and it shows just the stored files exactly
      when every live entry found there has the name of a stored file. */
  lemma MountOverPage(v: Vol, page: Page, next: Page)
    requires Safe(v)
    ensures |v.disk| == v.sp.total && DataStart(v.sp.total) <= v.sp.total <= 4096 * BitmapSectors(v.sp.total)
    ensures var t := TableView(StoredPage(v.disk, TableStart(v.sp.total)), next);
            var v' := Mount(v.disk, v.sp.total, TableView(page, next));
            && v'.table == t && (Safe(v') <==> TailBytesClear(next))
            && ((forall path :: Lookup(v', path) == Lookup(v, path))
                <==> forall i :: STORED <= i < MAX_FILES && Live(t[i]) ==> Lookup(v, CStr(t[i].name)).Some?)
  {
    hide Safe, TableView, CStr, Lookup, BitmapSectors, StoredPage, Mount, TailDead;
    MountedTable(v, page, next);
    var t, v' := TableView(StoredPage(v.disk, TableStart(v.sp.total)), next), Mount(v.disk, v.sp.total, TableView(page, next));
    TailIsClear(page, next);
    TailIsClear(StoredPage(v.disk, TableStart(v.sp.total)), next);
    if TailBytesClear(next) { RemountKeepsFiles(v, TableView(page, next)); }
    if Safe(v') { SafeShape(v'); }
    ForeignNames(v, v');
  }

  lemma ForeignNames(v: Vol, v': Vol)
    requires v'.disk == v.disk && TailDead(v.table) && forall i :: 0 <= i < STORED ==> v'.table[i] == v.table[i]
    ensures (forall path :: Lookup(v', path) == Lookup(v, path))
            <==> forall i :: STORED <= i < MAX_FILES && Live(v'.table[i]) ==> Lookup(v, CStr(v'.table[i].name)).Some?
  {
    hide CStr, FileBytes;
    var t := v'.table;
    if forall path :: Lookup(v', path) == Lookup(v, path) {
      forall i | STORED <= i < MAX_FILES && Live(t[i]) ensures Lookup(v, CStr(t[i].name)).Some? {
        assert FindSlot(t, CStr(t[i].name), 0) <= i;
        assert Lookup(v', CStr(t[i].name)).Some?;
      }
    } else {
      var path :| Lookup(v', path) != Lookup(v, path);
      FirstSixty(v.table, t, path);
      var i := FindSlot(t, path, 0);
      assert FindSlot(v.table, path, 0) == MAX_FILES && STORED <= i < MAX_FILES;
      assert CStr(t[i].name) == path;
    }
  }

  /** A search that stops among the first 60 entries stops at the same one in every
      table with the same first 60. */
  lemma FirstSixty(t: Table, t': Table, path: Bytes)
    requires (forall i :: 0 <= i < STORED ==> t'[i] == t[i]) && TailDead(t)
    ensures var s, s' := FindSlot(t, path, 0), FindSlot(t', path, 0);
            (s < MAX_FILES ==> s' == s < STORED) && (s == MAX_FILES ==> s' >= STORED)
  {
    hide CStr;
    var s, s' := FindSlot(t, path, 0), FindSlot(t', path, 0);
    if s < MAX_FILES { assert s < STORED && Live(t'[s]); }
    if s' < STORED { assert Live(t[s']); }
  }

  // ----- a file buffer behind the table -----

  /** The page behind the table after it served as the buffer of a file: zeroed to the
      end of the last block, then filled. */
  function Buffered(next: Page, data: Bytes): (r: Page)
  {
    seq<byte>(4096, k requires 0 <= k < 4096 => if k < |data| then data[k] else if k < 512 * BlocksFor(|data|) then 0 else next[k])
  }

  predicate ZeroAt(data: Bytes, k: nat) {
    k < |data| ==> data[k] == 0
  }

  /** The searches are not deceived afterwards exactly when the file has zero bytes at
      28, 96, 164 and 232, as far as it is that long. */
  lemma BufferDeceives(page: Page, next: Page, data: Bytes)
    ensures TailDead(TableView(page, Buffered(next, data)))
            <==> ZeroAt(data, 28) && ZeroAt(data, 96) && ZeroAt(data, 164) && ZeroAt(data, 232)
  {
    hide TableView;
    var b := Buffered(next, data);
    assert BlocksFor(|data|) >= 1;
    TailIsClear(page, b);
    assert b[28] == (if 28 < |data| then data[28] else 0) && b[96] == (if 96 < |data| then data[96] else 0);
    assert b[164] == (if 164 < |data| then data[164] else 0) && b[232] == (if 232 < |data| then data[232] else 0);
  }

  /** 97 bytes that look like an entry named x. */
  function Deceptive(): (data: Bytes)
    ensures |data| == 97
  {
    seq<byte>(97, k => if k == 52 then 120 else if k == 96 then 1 else 0)
  }

  /** After these bytes passed through the buffer, a file x is found that nobody wrote. */
  lemma FileNobodyWrote(v: Vol, page: Page, next: Page)
    requires v.table == TableView(page, next) && Lookup(v, [120]).None?
    ensures Lookup(v.(table := TableView(page, Buffered(next, Deceptive()))), [120]).Some?
  {
    hide FileBytes, ParseEntry;
    var t := TableView(page, Buffered(next, Deceptive()));
    var b := (page + Buffered(next, Deceptive()))[4148..4216];
    ParsedUsed(b);
    assert b[44] == Buffered(next, Deceptive())[96];
    assert Live(t[61]);
    ParsedName(b);
    assert b[0] == 120 && b[1] == 0;
    assert CStr(b[..32]) == [120] by { ShortName(b[..32]); }
    assert FindSlot(t, [120], 0) <= 61;
  }

  lemma ParsedName(b: Bytes)
    requires |b| == 68
    ensures ParseEntry(b).name == b[..32]
  {
  }

  lemma ShortName(name: Bytes)
    requires |name| == 32 && name[0] != 0 && name[1] == 0
    ensures CStr(name) == [name[0]]
  {
    assert name[1..][0] == 0;
    assert CStr(name[1..]) == [];
  }
}
