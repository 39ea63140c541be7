/**
 Storage block allocation of one device: the bitmap, its free count and the
 search hint, as functions; module Device holds the code that updates them.
 */
module Spmm {
  import opened Words
  import opened Bitmap

  /** Bitmap words, number of blocks, free count, hint. */
  datatype Space = Space(words: seq<word>, total: nat, free: nat, hint: nat)

  /** The bitmap covers all blocks and the count is right. */
  ghost predicate Counted(sp: Space) {
    sp.total <= 64 * |sp.words| && sp.free == CountClear(sp.words, sp.total)
  }

  // ----- contiguous runs -----

  /** Lowest start at or above `from` of `count` clear blocks below `total`, or 0. */
  ghost function FirstFit(words: seq<word>, total: nat, count: nat, from: nat): (s: nat)
    ensures s != 0 ==> from <= s && s + count <= total && RunClear(words, s, count)
    ensures forall t: nat :: from <= t && (s == 0 || t < s) && t + count <= total && t > 0 ==> !RunClear(words, t, count)
    decreases total - from
  {
    if from + count > total then 0
    else if from > 0 && RunClear(words, from, count) then from
    else FirstFit(words, total, count, from + 1)
  }

  /** Marking a clear run takes exactly its length off the free count. */
  lemma {:induction false} SetRunCount(words: seq<word>, start: nat, count: nat, n: nat)
    requires start + count <= n <= 64 * |words| && RunClear(words, start, count)
    ensures CountClear(SetRun(words, start, count), n) == CountClear(words, n) - count
    decreases count
  {
    hide GetBit, SetBit;
    if count > 0 {
      var before := SetRun(words, start, count - 1);
      SetRunCount(words, start, count - 1, n);
      SetRunFacts(words, start, count - 1);
      SetBitFacts(before, start + count - 1);
      CountOne(before, SetBit(before, start + count - 1), n, start + count - 1);
    }
  }

  /** Result of allocating `count` consecutive blocks: first fit, or 0. */
  ghost function AllocRun(sp: Space, count: nat): (r: (nat, Space))
    requires sp.total <= 64 * |sp.words|
  {
    var s := if count == 0 || sp.free < count then 0 else FirstFit(sp.words, sp.total, count, 1);
    if s == 0 then (0, sp)
    else (s, sp.(words := SetRun(sp.words, s, count), free := sp.free - count, hint := s + count))
  }

  /** First fit is complete: allocation fails exactly when no run of that length
      exists (the early exit on the free count hides none), and otherwise returns
      the lowest start, marking just those blocks and keeping the count right. */
  lemma AllocRunComplete(sp: Space, count: nat)
    requires Counted(sp) && count > 0
    ensures var (s, sp') := AllocRun(sp, count);
            && Counted(sp')
            && (s == 0 <==> forall t: nat :: 1 <= t && t + count <= sp.total ==> !RunClear(sp.words, t, count))
            && (s == 0 ==> sp' == sp)
            && (s != 0 ==> s + count <= sp.total && RunClear(sp.words, s, count)
                           && (forall t: nat :: 1 <= t < s ==> !RunClear(sp.words, t, count))
                           && forall j: nat :: GetBit(sp'.words, j) == (s <= j < s + count || GetBit(sp.words, j)))
  {
    hide RunClear;
    var s := FirstFit(sp.words, sp.total, count, 1);
    if s != 0 {
      RunCounts(sp.words, s, count, sp.total);
      SetRunFacts(sp.words, s, count);
      SetRunCount(sp.words, s, count, sp.total);
    } else if sp.free >= count {
    } else {
      forall t: nat | 1 <= t && t + count <= sp.total ensures !RunClear(sp.words, t, count) {
        if RunClear(sp.words, t, count) { RunCounts(sp.words, t, count, sp.total); }
      }
    }
  }

  // ----- freeing and marking -----

  function FreeBlock(sp: Space, b: nat): Space
    requires sp.total <= 64 * |sp.words|
  {
    if b == 0 || b >= sp.total || !GetBit(sp.words, b) then sp
    else sp.(words := ClearBit(sp.words, b), free := sp.free + 1, hint := if b < sp.hint then b else sp.hint)
  }

  function FreeRun(sp: Space, start: nat, count: nat): (r: Space)
    requires sp.total <= 64 * |sp.words|
    ensures r.total == sp.total && |r.words| == |sp.words|
  {
    if start == 0 || count == 0 then sp else FreeBlock(FreeRun(sp, start, count - 1), start + count - 1)
  }

  function MarkBlock(sp: Space, b: nat): Space
    requires sp.total <= 64 * |sp.words|
  {
    if b >= sp.total || GetBit(sp.words, b) then sp
    else sp.(words := SetBit(sp.words, b), free := if sp.free > 0 then sp.free - 1 else 0)
  }

  /** Blocks 0 .. n-1 marked one after the other. */
  function MarkFirst(sp: Space, n: nat): (r: Space)
    requires sp.total <= 64 * |sp.words|
    ensures r.total == sp.total && |r.words| == |sp.words|
  {
    if n == 0 then sp else MarkBlock(MarkFirst(sp, n - 1), n - 1)
  }

  lemma FreeBlockFacts(sp: Space, b: nat)
    requires Counted(sp)
    ensures Counted(FreeBlock(sp, b))
    ensures forall j: nat :: GetBit(FreeBlock(sp, b).words, j) == (GetBit(sp.words, j) && !(j == b && 0 < b < sp.total))
  {
    hide GetBit, SetBit, ClearBit;
    if b != 0 && b < sp.total && GetBit(sp.words, b) {
      SetBitFacts(sp.words, b);
      CountOne(ClearBit(sp.words, b), sp.words, sp.total, b);
    }
  }

  /** Freeing a run clears exactly its blocks below `total`, block 0 excepted. */
  lemma {:induction false} FreeRunFacts(sp: Space, start: nat, count: nat)
    requires Counted(sp) && start > 0
    ensures Counted(FreeRun(sp, start, count))
    ensures forall j: nat :: GetBit(FreeRun(sp, start, count).words, j)
                             == (GetBit(sp.words, j) && !(start <= j < start + count && j < sp.total))
    decreases count
  {
    hide GetBit, FreeBlock;
    if count > 0 {
      FreeRunFacts(sp, start, count - 1);
      FreeBlockFacts(FreeRun(sp, start, count - 1), start + count - 1);
    }
  }

  lemma MarkBlockFacts(sp: Space, b: nat)
    requires Counted(sp)
    ensures Counted(MarkBlock(sp, b))
    ensures forall j: nat :: GetBit(MarkBlock(sp, b).words, j) == (GetBit(sp.words, j) || (j == b && b < sp.total))
  {
    hide GetBit, SetBit, ClearBit;
    if b < sp.total && !GetBit(sp.words, b) {
      SetBitFacts(sp.words, b);
      CountOne(sp.words, SetBit(sp.words, b), sp.total, b);
    }
  }

  lemma {:induction false} MarkFirstFacts(sp: Space, n: nat)
    requires Counted(sp)
    ensures Counted(MarkFirst(sp, n))
    ensures forall j: nat :: GetBit(MarkFirst(sp, n).words, j) == (GetBit(sp.words, j) || (j < n && j < sp.total))
    decreases n
  {
    hide GetBit, MarkBlock;
    if n > 0 {
      MarkFirstFacts(sp, n - 1);
      MarkBlockFacts(MarkFirst(sp, n - 1), n - 1);
    }
  }

  /** What a run released can be taken again: after freeing `n` allocated blocks,
      asking for no more than `n` consecutive ones succeeds. */
  lemma FreedRunFits(sp: Space, start: nat, n: nat, count: nat)
    requires Counted(sp) && 0 < start && start + n <= sp.total && 0 < count <= n
    ensures AllocRun(FreeRun(sp, start, n), count).0 != 0
  {
    hide GetBit;
    FreeRunFacts(sp, start, n);
    var freed := FreeRun(sp, start, n);
    AllocRunComplete(freed, count);
    assert RunClear(freed.words, start, count);
  }

  // ----- single blocks, hinted -----

  /** First clear block b > 0 in [from, end), or `end`. */
  function Scan(words: seq<word>, from: nat, end: nat): (b: nat)
    requires from <= end
    ensures from <= b <= end
    ensures b < end ==> b > 0 && !GetBit(words, b)
    ensures forall j: nat :: from <= j < b ==> j == 0 || GetBit(words, j)
    decreases end - from
  {
    if from == end then end
    else if from > 0 && !GetBit(words, from) then from
    else Scan(words, from + 1, end)
  }

  /** Cyclic search: from the first block of the hint's word to the end, then
      from block 0 up to that word. */
  function Search(sp: Space): (r: nat)
    ensures r == 0 || r < sp.total
  {
    var start := Min(sp.hint / 64 * 64, sp.total);
    var b := Scan(sp.words, start, sp.total);
    if b < sp.total then b
    else
      var c := Scan(sp.words, 0, start);
      if c < start then c else 0
  }

  function AllocOne(sp: Space): (nat, Space)
    requires sp.total <= 64 * |sp.words|
  {
    var b := if sp.free == 0 then 0 else Search(sp);
    if b == 0 then (0, sp)
    else (b, sp.(words := SetBit(sp.words, b), free := sp.free - 1, hint := b + 1))
  }

  /** Fails exactly when no block in [1, total) is free. */
  lemma AllocOneComplete(sp: Space)
    requires Counted(sp)
    ensures var (b, sp') := AllocOne(sp);
            && Counted(sp')
            && (b == 0 <==> forall j: nat :: 1 <= j < sp.total ==> GetBit(sp.words, j))
            && (b == 0 ==> sp' == sp)
            && (b != 0 ==> b < sp.total && !GetBit(sp.words, b)
                           && forall j: nat :: GetBit(sp'.words, j) == (j == b || GetBit(sp.words, j)))
  {
    hide GetBit, SetBit;
    SomeClear(sp.words, sp.total);
    var b := AllocOne(sp).0;
    if b != 0 {
      SetBitFacts(sp.words, b);
      CountOne(sp.words, SetBit(sp.words, b), sp.total, b);
    }
  }

  /** No free block lies below the hint. */
  ghost predicate HintBounds(sp: Space) {
    forall j: nat :: 1 <= j < sp.hint && j < sp.total ==> GetBit(sp.words, j)
  }

  /** With a hint that bounds the free blocks, the search finds the lowest one. */
  lemma AllocOneLowest(sp: Space)
    requires Counted(sp) && HintBounds(sp)
    ensures var (b, sp') := AllocOne(sp);
            && HintBounds(sp')
            && (b != 0 ==> forall j: nat :: 1 <= j < b ==> GetBit(sp.words, j))
  {
    hide GetBit, SetBit, Counted;
    assert sp.total <= 64 * |sp.words| by { CountedCovers(sp); }
    AllocOneComplete(sp);
    var (b, sp') := AllocOne(sp);
    if b != 0 {
      var start := Min(sp.hint / 64 * 64, sp.total);
      forall j: nat | 1 <= j < b ensures GetBit(sp.words, j) {
        if j >= start { }
      }
    }
  }

  lemma CountedCovers(sp: Space)
    requires Counted(sp)
    ensures sp.total <= 64 * |sp.words|
  {
  }

  /** Freeing a block keeps the hint a bound. */
  lemma FreeBlockHint(sp: Space, b: nat)
    requires Counted(sp) && HintBounds(sp)
    ensures HintBounds(FreeBlock(sp, b))
  {
    hide GetBit, ClearBit;
    FreeBlockFacts(sp, b);
  }

  lemma MarkBlockHint(sp: Space, b: nat)
    requires Counted(sp) && HintBounds(sp)
    ensures HintBounds(MarkBlock(sp, b))
  {
    hide GetBit, SetBit;
    MarkBlockFacts(sp, b);
  }

  datatype BlockOp = Take | Release(block: nat) | Mark(block: nat)

  function BlockStep(sp: Space, op: BlockOp): (r: Space)
    requires sp.total <= 64 * |sp.words|
    ensures r.total == sp.total && |r.words| == |sp.words|
  {
    match op
    case Take => AllocOne(sp).1
    case Release(b) => FreeBlock(sp, b)
    case Mark(b) => MarkBlock(sp, b)
  }

  function BlockRun(sp: Space, ops: seq<BlockOp>): (r: Space)
    requires sp.total <= 64 * |sp.words|
    ensures r.total == sp.total && |r.words| == |sp.words|
    decreases |ops|
  {
    if ops == [] then sp else BlockStep(BlockRun(sp, ops[..|ops| - 1]), ops[|ops| - 1])
  }

  /** Over every run of single-block operations the hint stays a lower bound of
      the free blocks, so each allocation returns the lowest free block. */
  lemma {:induction false} HintRuns(sp: Space, ops: seq<BlockOp>)
    requires Counted(sp) && sp.hint == 1
    ensures var r := BlockRun(sp, ops);
            && Counted(r) && HintBounds(r)
            && forall j: nat :: 1 <= j < AllocOne(r).0 ==> GetBit(r.words, j)
    decreases |ops|
  {
    hide GetBit, Counted, HintBounds, AllocOne, FreeBlock, MarkBlock;
    assert sp.total <= 64 * |sp.words| by { CountedCovers(sp); }
    if ops == [] {
      assert HintBounds(sp) by { HintAtOne(sp); }
    } else {
      var before := BlockRun(sp, ops[..|ops| - 1]);
      HintRuns(sp, ops[..|ops| - 1]);
      match ops[|ops| - 1]
      case Take => AllocOneComplete(before); AllocOneLowest(before);
      case Release(b) => FreeBlockFacts(before, b); FreeBlockHint(before, b);
      case Mark(b) => MarkBlockFacts(before, b); MarkBlockHint(before, b);
    }
    AllocOneLowest(BlockRun(sp, ops));
  }

  lemma HintAtOne(sp: Space)
    requires sp.hint == 1
    ensures HintBounds(sp)
  {
  }
}
