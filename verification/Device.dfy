/** A block device with its allocation state, updated in place. */
module Device {
  import opened Words
  import opened Bitmap
  import opened Spmm
  import opened Volume

  class BlockDevice {
    const sectors: array<Sector>
    const bitmap: array<word>
    var totalBlocks: nat
    var freeBlocks: nat
    var lastFreeBlock: nat
    /** Every sector write since the device was attached, in order. */
    ghost var log: seq<SectorWrite>

    ghost predicate Valid()
      reads this
    {
      totalBlocks <= 64 * bitmap.Length && totalBlocks < 0x1_0000_0000
    }

    ghost function State(): Space
      reads this, bitmap
    {
      Space(bitmap[..], totalBlocks, freeBlocks, lastFreeBlock)
    }

    // ----- bits -----

    method GetBitAt(block: nat) returns (set?: bool)
      requires block / 64 < bitmap.Length
      ensures set? == GetBit(bitmap[..], block)
    {
      set? := Bit(bitmap[block / 64], block % 64);
    }

    method SetBitAt(block: nat)
      requires block / 64 < bitmap.Length
      modifies bitmap
      ensures bitmap[..] == SetBit(old(bitmap[..]), block)
    {
      bitmap[block / 64] := SetWord(bitmap[block / 64], block % 64);
    }

    method ClearBitAt(block: nat)
      requires block / 64 < bitmap.Length
      modifies bitmap
      ensures bitmap[..] == ClearBit(old(bitmap[..]), block)
    {
      bitmap[block / 64] := ClearWord(bitmap[block / 64], block % 64);
    }

    // ----- spmm -----

    /** Adopt a loaded bitmap: count its free blocks. */
    method Init(total: nat)
      requires total <= 64 * bitmap.Length && total < 0x1_0000_0000
      modifies this
      ensures Valid() && State() == Space(bitmap[..], total, CountClear(bitmap[..], total), 1) && log == old(log)
    {
      totalBlocks := total;
      lastFreeBlock := 1;
      var free := 0;
      for b := 0 to total
        modifies {}
        invariant free == CountClear(bitmap[..], b)
      {
        var set? := GetBitAt(b);
        if !set? { free := free + 1; }
      }
      freeBlocks := free;
    }

    /** First free block of word `w`, skipping block 0 and stopping at the end. */
    method ScanWord(w: nat) returns (b: nat)
      requires Valid() && 64 * w < totalBlocks
      ensures 64 * w <= b <= Min(64 * w + 64, totalBlocks)
      ensures b == Scan(bitmap[..], 64 * w, Min(64 * w + 64, totalBlocks))
    {
      var end := Min(64 * w + 64, totalBlocks);
      b := 64 * w;
      while b < end
        invariant 64 * w <= b <= end
        invariant Scan(bitmap[..], 64 * w, end) == Scan(bitmap[..], b, end)
      {
        if b != 0 {
          var set? := GetBitAt(b);
          if !set? { return; }
        }
        b := b + 1;
      }
    }

    /** Words `first` .. `last`-1, full ones skipped at once. */
    method ScanWords(first: nat, last: nat) returns (b: nat)
      requires Valid() && first <= last && 64 * last < totalBlocks + 64
      ensures var end := Min(64 * last, totalBlocks); 64 * first <= end ==> b == Scan(bitmap[..], 64 * first, end)
      ensures 64 * first > Min(64 * last, totalBlocks) ==> b == totalBlocks
    {
      var end := Min(64 * last, totalBlocks);
      if 64 * first > end { return totalBlocks; }
      ghost var words := bitmap[..];
      var w := first;
      while w < last
        invariant first <= w <= last && 64 * first <= Min(64 * w, end)
        invariant Scan(words, 64 * first, end) == Scan(words, Min(64 * w, end), end)
      {
        var next := Min(64 * w + 64, totalBlocks);
        ScanSplit(words, 64 * w, next, end);
        if bitmap[w] == FULL {
          ScanFull(words, w, next);
        } else {
          b := ScanWord(w);
          if b < next { return; }
        }
        w := w + 1;
      }
      b := end;
    }

    method Alloc() returns (block: nat)
      requires Valid() && lastFreeBlock <= totalBlocks
      modifies this`freeBlocks, this`lastFreeBlock, bitmap
      ensures Valid() && (block, State()) == AllocOne(old(State()))
    {
      hide Scan, SetBit;
      if freeBlocks == 0 { return 0; }
      var totalWords := (totalBlocks + 63) / 64;
      var startWord := lastFreeBlock / 64;
      block := ScanWords(startWord, totalWords);
      if block == totalBlocks {
        block := ScanWords(0, startWord);
        if block == 64 * startWord { return 0; }
      }
      SetBitAt(block);
      freeBlocks := freeBlocks - 1;
      lastFreeBlock := block + 1;
    }

    /** Mark all blocks of a run. */
    method MarkRun(start: nat, count: nat)
      requires Valid() && start + count <= totalBlocks
      modifies bitmap
      ensures bitmap[..] == SetRun(old(bitmap[..]), start, count)
    {
      for i := 0 to count
        invariant bitmap[..] == SetRun(old(bitmap[..]), start, i)
      {
        SetBitAt(start + i);
      }
    }

    /** One pass with a running count of consecutive free blocks. */
    method AllocContiguous(count: nat) returns (start: nat)
      requires Valid()
      modifies this`freeBlocks, this`lastFreeBlock, bitmap
      ensures Valid() && (start, State()) == AllocRun(old(State()), count)
    {
      hide GetBit, SetRun, FirstFit;
      if freeBlocks < count || count == 0 { return 0; }
      ghost var words := bitmap[..];
      var runStart, run := 1, 0;
      var b := 1;
      while b < totalBlocks && run < count
        modifies {}
        invariant 1 <= b && run <= count && bitmap[..] == words
        invariant totalBlocks >= 1 ==> b <= totalBlocks
        invariant run > 0 ==> runStart + run == b && runStart >= 1 && RunClear(words, runStart, run)
        invariant run < b && (b - run == 1 || GetBit(words, b - run - 1))
        invariant run < count ==> forall t: nat :: 1 <= t && t + count <= b ==> !RunClear(words, t, count)
        invariant run == count ==> b <= totalBlocks && forall t: nat :: 1 <= t && t + count < b ==> !RunClear(words, t, count)
        decreases totalBlocks - b
      {
        var set? := GetBitAt(b);
        if !set? {
          if run == 0 { runStart := b; }
          run := run + 1;
          RunExtends(words, b, run, count);
        } else {
          run := 0;
          RunBroken(words, b, count);
        }
        b := b + 1;
      }
      if run == count {
        FirstFitIs(words, totalBlocks, count, runStart);
        start := runStart;
        MarkRun(start, count);
        freeBlocks := freeBlocks - count;
        lastFreeBlock := start + count;
      } else {
        NoFit(words, totalBlocks, count);
        start := 0;
      }
    }

    method Free(block: nat)
      requires Valid()
      modifies this`freeBlocks, this`lastFreeBlock, bitmap
      ensures Valid() && State() == FreeBlock(old(State()), block)
    {
      if block == 0 || block >= totalBlocks { return; }
      var set? := GetBitAt(block);
      if set? {
        ClearBitAt(block);
        freeBlocks := freeBlocks + 1;
        if block < lastFreeBlock { lastFreeBlock := block; }
      }
    }

    method FreeContiguous(start: nat, count: nat)
      requires Valid()
      modifies this`freeBlocks, this`lastFreeBlock, bitmap
      ensures Valid() && State() == FreeRun(old(State()), start, count)
    {
      if start == 0 { return; }
      ghost var sp := State();
      for i := 0 to count
        invariant Valid() && State() == FreeRun(sp, start, i)
      {
        Free(start + i);
      }
    }

    method MarkUsed(block: nat)
      requires Valid()
      modifies this`freeBlocks, bitmap
      ensures Valid() && State() == MarkBlock(old(State()), block)
    {
      if block >= totalBlocks { return; }
      var set? := GetBitAt(block);
      if !set? {
        SetBitAt(block);
        if freeBlocks > 0 { freeBlocks := freeBlocks - 1; }
      }
    }

    // ----- sectors -----

    /** Sectors go out one after the other. */
    method WriteSectors(lba: nat, data: seq<Sector>)
      requires lba + |data| <= sectors.Length
      modifies this`log, sectors
      ensures log == old(log) + Writes(lba, data) && sectors[..] == Overwrite(old(sectors[..]), lba, data)
    {
      ghost var before := sectors[..];
      for i := 0 to |data|
        invariant log == old(log) + Writes(lba, data[..i])
        invariant sectors[..] == Overwrite(before, lba, data[..i])
      {
        sectors[lba + i] := data[i];
        assert Writes(lba, data[..i + 1]) == Writes(lba, data[..i]) + [SectorWrite(lba + i, data[i])];
        log := log + [SectorWrite(lba + i, data[i])];
      }
      assert data[..|data|] == data;
    }

    method ReadSectors(lba: nat, count: nat) returns (data: seq<Sector>)
      requires lba + count <= sectors.Length
      ensures data == sectors[lba..lba + count]
    {
      data := sectors[lba..lba + count];
    }
  }

  // ----- facts about the searches -----

  lemma {:induction false} ScanSplit(words: seq<word>, a: nat, b: nat, c: nat)
    requires a <= c && b <= c && (a <= b)
    ensures Scan(words, a, c) == if Scan(words, a, b) < b then Scan(words, a, b) else Scan(words, b, c)
    decreases b - a
  {
    hide GetBit;
    if a < b { ScanSplit(words, a + 1, b, c); }
  }

  lemma ScanFull(words: seq<word>, w: nat, next: nat)
    requires w < |words| && words[w] == FULL && 64 * w <= next <= 64 * w + 64
    ensures Scan(words, 64 * w, next) == next
  {
    hide GetBit;
    FullWordBits(words, w);
    var b := Scan(words, 64 * w, next);
    assert GetBit(words, b) || b >= 64 * w + 64;
  }

  /** A run of `run` clear blocks, begun after a set block, is too short. */
  lemma RunExtends(words: seq<word>, b: nat, run: nat, count: nat)
    requires 1 <= run <= b && (b - run == 0 || GetBit(words, b - run))
    requires forall t: nat :: 1 <= t && t + count <= b ==> !RunClear(words, t, count)
    ensures run < count ==> forall t: nat :: 1 <= t && t + count <= b + 1 ==> !RunClear(words, t, count)
  {
    hide GetBit;
    if run < count {
      forall t: nat | 1 <= t && t + count <= b + 1 ensures !RunClear(words, t, count) {
        assert t + count == b + 1 ==> t <= b - run < t + count;
      }
    }
  }

  /** A set block ends every run. */
  lemma RunBroken(words: seq<word>, b: nat, count: nat)
    requires GetBit(words, b) && count > 0
    requires forall t: nat :: 1 <= t && t + count <= b ==> !RunClear(words, t, count)
    ensures forall t: nat :: 1 <= t && t + count <= b + 1 ==> !RunClear(words, t, count)
  {
    hide GetBit;
  }

  lemma FirstFitIs(words: seq<word>, total: nat, count: nat, s: nat)
    requires 1 <= s && s + count <= total && RunClear(words, s, count)
    requires forall t: nat :: 1 <= t < s ==> !RunClear(words, t, count)
    ensures FirstFit(words, total, count, 1) == s
  {
    hide RunClear;
  }

  lemma NoFit(words: seq<word>, total: nat, count: nat)
    requires forall t: nat :: 1 <= t && t + count <= total ==> !RunClear(words, t, count)
    ensures FirstFit(words, total, count, 1) == 0
  {
    hide RunClear;
  }
}
