/** Volumes on which the two defects of the file system show: a failed overwrite, and
    a table with more files than are stored. */
module FileExamples {
  import opened Words
  import opened Bitmap
  import opened Spmm
  import opened Volume
  import opened FileSystem
  import opened Integrity
  import opened FileRuns
  import opened FileHistory
  import opened Options

  // ----- a failed overwrite -----

  /** A file that outgrows the data area is refused, after its blocks were released. */
  lemma TooLarge(v: Vol, path: Bytes, data: Bytes)
    requires Safe(v) && Shaped(v) && |data| < TWO31 && FindSlot(v.table, path, 0) < MAX_FILES
    requires BlocksFor(|data|) > v.sp.total - DataStart(v.sp.total)
    ensures WriteFile(v, path, data).code == -3
  {
    hide Safe, CStr, FindSlot, FreeSlot, BlocksFor, BitmapSectors, AllocRun, ApplyWrites, Replaces, WriteLog, Counted;
    ReplacesOld(v, path);
    SafeSlot(v, path);
    var sp := Released(v, path);
    ReplacedSpace(v, FindSlot(v.table, path, 0), path, sp);
    CountedCovers(sp);
    if AllocRun(sp, BlocksFor(|data|)).0 != 0 {
      FreshExtent(v, FindSlot(v.table, path, 0), path, sp, BlocksFor(|data|));
    }
  }

  lemma SmallDevice()
    ensures BitmapSectors(11) == 1 && DataStart(11) == 10
    ensures forall n: nat :: n == 0 ==> BlocksFor(n) == 1
    ensures BlocksFor(513) == 2
  {
  }

  /** Eleven sectors: an empty file takes the one data block, and overwriting it with
      513 bytes fails and leaves a volume whose live file owns a free block. */
  lemma OverwriteUnsafe(disk: seq<Sector>, path: Bytes, ram: Table)
    requires |disk| == 11 && GoodPath(path) && TailDead(ram)
    ensures |ApplyWrites(disk, FormatLog(11))| == 11 && DataStart(11) <= 11 <= 4096 * BitmapSectors(11)
    ensures var v0 := Mount(ApplyWrites(disk, FormatLog(11)), 11, ram);
            && Safe(v0) && Shaped(v0) && WriteFile(v0, path, []).code == 0
            && var v1 := WriteFile(v0, path, []).vol;
            && Safe(v1) && Shaped(v1) && Lookup(v1, path) == Some([])
            && WriteFile(v1, path, Zeros(513)).code == -3 && !Safe(WriteFile(v1, path, Zeros(513)).vol)
  {
    hide *;
    SmallDevice();
    CoversEleven();
    FormatMountsEmpty(disk, 11, ram);
    var v0 := Mount(ApplyWrites(disk, FormatLog(11)), 11, ram);
    SafeShaped(v0);
    NoneLive(v0);
    var empty: Bytes := [];
    Sizes();
    assert |empty| == 0;
    FirstFileFits(v0, path, empty);
    WriteRefines(v0, path, []);
    var v1 := WriteFile(v0, path, []).vol;
    SafeShaped(v1);
    FoundSlot(v1, path);
    ZerosLength();
    TooLarge(v1, path, Zeros(513));
    FailedWriteSafe(v1, path, Zeros(513));
  }

  lemma CoversEleven()
    ensures DataStart(11) <= 11 <= 4096 * BitmapSectors(11) && MAX_FILES == 64
  {
  }

  lemma ZerosLength()
    ensures |Zeros(513)| == 513 < TWO31
  {
  }

  lemma FoundSlot(v: Vol, path: Bytes)
    requires Lookup(v, path).Some?
    ensures FindSlot(v.table, path, 0) < MAX_FILES
  {
  }

  /** A volume on which no path is found has no live entry. */
  lemma NoneLive(v: Vol)
    requires forall path :: Lookup(v, path) == None
    ensures forall i :: 0 <= i < MAX_FILES ==> !Live(v.table[i])
  {
    hide CStr, FileBytes;
    forall i | 0 <= i < MAX_FILES ensures !Live(v.table[i]) {
      assert Lookup(v, CStr(v.table[i].name)) == None;
    }
  }

  // ----- more files than are stored -----

  /** Name of file number `k`. */
  function NameOf(k: nat): (path: Bytes)
    requires k < 64
    ensures GoodPath(path)
  {
    [k + 1]
  }

  /** `n` empty files in the first slots, on the first data blocks. */
  ghost predicate Filled(v: Vol, n: nat) {
    && n <= 64 && Safe(v) && Shaped(v) && v.sp.total >= DataStart(v.sp.total) + 64
    && (forall i :: 0 <= i < n ==> Live(v.table[i]) && CStr(v.table[i].name) == NameOf(i))
    && (forall i :: n <= i < MAX_FILES ==> !Live(v.table[i]))
    && forall b: nat :: b < v.sp.total ==> GetBit(v.sp.words, b) == (b < DataStart(v.sp.total) + n)
  }

  lemma FilledSlots(v: Vol, n: nat)
    requires Filled(v, n) && n < 64
    ensures FindSlot(v.table, NameOf(n), 0) == MAX_FILES && FreeSlot(v.table, 0) == n && WriteSlot(v, NameOf(n)) == n
  {
    hide CStr, GetBit, Safe, Shaped, NameOf;
    forall i | 0 <= i < n ensures Live(v.table[i]) && CStr(v.table[i].name) != NameOf(n) {
      NamesDiffer(i, n);
    }
    FirstFree(v.table, n, 0);
    NotFound(v.table, NameOf(n), n);
  }

  lemma {:induction false} FirstFree(t: Table, n: nat, from: nat)
    requires from <= n < MAX_FILES && (forall i :: 0 <= i < n ==> Live(t[i])) && !Live(t[n])
    ensures FreeSlot(t, from) == n
    decreases n - from
  {
    hide Live;
    if from < n { FirstFree(t, n, from + 1); }
  }

  lemma NotFound(t: Table, path: Bytes, n: nat)
    requires n <= MAX_FILES && (forall i :: 0 <= i < n ==> CStr(t[i].name) != path) && forall i :: n <= i < MAX_FILES ==> !Live(t[i])
    ensures FindSlot(t, path, 0) == MAX_FILES
  {
    hide CStr;
  }

  lemma NamesDiffer(j: nat, k: nat)
    requires j < 64 && k < 64 && j != k
    ensures NameOf(j) != NameOf(k)
  {
  }

  /** The next block is free and is the one taken. */
  lemma FilledBlock(v: Vol, n: nat)
    requires Filled(v, n) && n < 64
    ensures v.sp.total <= 64 * |v.sp.words|
    ensures var (s, sp') := AllocRun(v.sp, 1);
            && s == DataStart(v.sp.total) + n
            && forall b: nat :: b < v.sp.total ==> GetBit(sp'.words, b) == (b < DataStart(v.sp.total) + n + 1)
  {
    hide CStr, GetBit, Safe, BitmapSectors;
    SafeCounted(v);
    CountedCovers(v.sp);
    AllocRunComplete(v.sp, 1);
    var x := DataStart(v.sp.total) + n;
    assert RunClear(v.sp.words, x, 1);
    var s := AllocRun(v.sp, 1).0;
    assert RunClear(v.sp.words, s, 1) && !GetBit(v.sp.words, s);
  }

  lemma FilledWrite(v: Vol, n: nat)
    requires Filled(v, n) && n < 64
    ensures var r := WriteFile(v, NameOf(n), []);
            && r.code == 0 && r.vol.sp == AllocRun(v.sp, 1).1
            && r.vol.table == v.table[n := NewEntry(v.table[n], NameOf(n), 0, DataStart(v.sp.total) + n, 1)]
  {
    hide CStr, GetBit, Safe, BitmapSectors, AllocRun, FindSlot, FreeSlot, ApplyWrites, WriteLog, NameOf;
    FilledSlots(v, n);
    FilledBlock(v, n);
    FilledTotal(v, n);
    assert BlocksFor(0) == 1;
  }

  lemma FilledTotal(v: Vol, n: nat)
    requires Filled(v, n)
    ensures Safe(v) && Shaped(v) && v.sp.total < 0x1_0000_0000
  {
  }

  lemma FilledNext(v: Vol, n: nat)
    requires Filled(v, n) && n < STORED
    ensures WriteFile(v, NameOf(n), []).code == 0 && Filled(WriteFile(v, NameOf(n), []).vol, n + 1)
  {
    hide CStr, GetBit, Safe, BitmapSectors, AllocRun, FindSlot, FreeSlot, WriteFile, NameOf, WriteSlot, PutName, Shaped;
    FilledTotal(v, n);
    FilledSlots(v, n);
    FilledBlock(v, n);
    FilledWrite(v, n);
    WriteRefines(v, NameOf(n), []);
    NameRoundTrip(v.table[n].name, NameOf(n));
    SafeShaped(WriteFile(v, NameOf(n), []).vol);
  }

  lemma FilledStart(v: Vol)
    requires Safe(v) && NoLeaks(v) && (forall path :: Lookup(v, path) == None) && v.sp.total >= DataStart(v.sp.total) + 64
    ensures Filled(v, 0)
  {
    hide Lookup, GetBit, BitmapSectors, CStr, Synced, Distinct, Extents, Counted;
    NoneLive(v);
    NobodyOwns(v.table);
  }

  /** The writes that take a volume with `k` files to one with `n`. */
  lemma {:induction false} FillFrom(v: Vol, k: nat, n: nat) returns (ops: seq<FileOp>, w: Vol)
    requires Filled(v, k) && k <= n <= STORED
    ensures History(v, ops, w) && Filled(w, n) && |ops| == n - k && Uncut(ops)
    decreases n - k
  {
    hide Filled, WriteFile, NameOf, WriteSlot;
    if k == n {
      ops, w := [], v;
    } else {
      FilledIs(v, k);
      FilledSlots(v, k);
      FilledNext(v, k);
      var op := Put(NameOf(k), []);
      NameIsGood(k);
      assert FileStep(v, op) == Some(WriteFile(v, NameOf(k), []).vol) by { PutStep(v, NameOf(k)); }
      var rest: seq<FileOp>;
      rest, w := FillFrom(WriteFile(v, NameOf(k), []).vol, k + 1, n);
      ops := [op] + rest;
      assert ops[0] == op && ops[1..] == rest;
    }
  }

  lemma NameIsGood(k: nat)
    requires k < 64
    ensures GoodPath(NameOf(k))
  {
  }

  lemma PutStep(v: Vol, path: Bytes)
    requires Safe(v) && Shaped(v) && GoodPath(path) && WriteSlot(v, path) < STORED && WriteFile(v, path, []).code == 0
    ensures FileStep(v, Put(path, [])) == Some(WriteFile(v, path, []).vol)
  {
    hide Safe, Shaped, WriteFile, WriteSlot;
  }

  /** On every empty volume with room for them, a history of 60 writes stores 60 files;
      the 61st is written with success and gone after the next mount. */
  lemma SixtyFirstVanishes(v: Vol, ram: Table) returns (ops: seq<FileOp>, w: Vol)
    requires Safe(v) && NoLeaks(v) && (forall path :: Lookup(v, path) == None) && v.sp.total >= DataStart(v.sp.total) + 64
    requires TailDead(ram)
    ensures History(v, ops, w) && |ops| == 60 && Safe(w) && Shaped(w) && forall i :: 0 <= i < 60 ==> Live(w.table[i])
    ensures var r := WriteFile(w, NameOf(60), []);
            && r.code == 0 && Lookup(r.vol, NameOf(60)) == Some([])
            && |r.vol.disk| == w.sp.total && Lookup(Mount(r.vol.disk, w.sp.total, ram), NameOf(60)) == None
  {
    hide *;
    Sizes();
    FilledStart(v);
    ops, w := FillFrom(v, 0, 60);
    FilledIs(w, 60);
    FilledSlots(w, 60);
    FilledWrite(w, 60);
    UnstoredVanishes(w, NameOf(60), [], ram);
    InRam(w, 60);
  }

  lemma FilledIs(v: Vol, n: nat)
    requires Filled(v, n)
    ensures Safe(v) && Shaped(v) && forall i :: 0 <= i < n ==> Live(v.table[i])
  {
  }

  lemma Sizes()
    ensures STORED == 60 && MAX_FILES == 64 && 0 < TWO31
  {
  }

  lemma InRam(v: Vol, n: nat)
    requires Filled(v, n) && n < 64
    ensures Lookup(WriteFile(v, NameOf(n), []).vol, NameOf(n)) == Some([])
  {
    hide CStr, GetBit, Safe, BitmapSectors, AllocRun, WriteFile, NameOf, PutName;
    FilledWrite(v, n);
    FilledSlots(v, n);
    NameRoundTrip(v.table[n].name, NameOf(n));
    var t := WriteFile(v, NameOf(n), []).vol.table;
    assert Live(t[n]) && CStr(t[n].name) == NameOf(n);
    forall i | 0 <= i < n ensures CStr(t[i].name) != NameOf(n) {
      assert t[i] == v.table[i];
      NamesDiffer(i, n);
    }
    assert FindSlot(t, NameOf(n), 0) == n;
  }
}
