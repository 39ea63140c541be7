/** Physical page allocation: a bitmap of 4 KiB pages searched upward from a hint. */
module Pmm {
  import opened Words
  import opened Options
  import opened Bitmap

  const BM_SIZE: nat := 16384
  const MAX_PAGES: nat := 1048576
  const PAGE_SIZE: nat := 4096

  datatype Pages = Pages(words: seq<word>, hint: nat)

  /** First page past the kernel. */
  function KernelPages(kernelEnd: nat): nat {
    (kernelEnd + 4095) / PAGE_SIZE
  }

  /** Whole words below the kernel end are marked; the word it ends in is not. */
  function Initial(kernelEnd: nat): (r: Pages)
    ensures |r.words| == BM_SIZE
  {
    Pages(seq<word>(BM_SIZE, i => if i < KernelPages(kernelEnd) / 64 then FULL else 0), KernelPages(kernelEnd))
  }

  // ----- allocation -----

  /** Lowest run of `n` clear pages starting at `from` or later. */
  ghost function LowestRun(words: seq<word>, n: nat, from: nat): (s: Option<nat>)
    ensures s.Some? ==> from <= s.value && s.value + n <= MAX_PAGES && RunClear(words, s.value, n)
    ensures forall t: nat :: from <= t && t + n <= MAX_PAGES && (s.Some? ==> t < s.value) ==> !RunClear(words, t, n)
    decreases MAX_PAGES - from
  {
    if from + n > MAX_PAGES then None
    else if RunClear(words, from, n) then Some(from)
    else LowestRun(words, n, from + 1)
  }

  /** The address of the run taken, or 0 with nothing changed. */
  ghost function AllocPages(st: Pages, n: int): (r: (nat, Pages))
    requires |st.words| == BM_SIZE
    ensures |r.1.words| == BM_SIZE
  {
    if n <= 0 then (0, st)
    else
      var s := LowestRun(st.words, n, st.hint);
      if s.None? then (0, st) else (s.value * PAGE_SIZE, Pages(SetRun(st.words, s.value, n), s.value + n))
  }

  function FreePage(st: Pages, addr: nat): (r: Pages)
    requires |st.words| == BM_SIZE
    ensures |r.words| == BM_SIZE
  {
    var p := addr / PAGE_SIZE;
    if p >= MAX_PAGES then st
    else Pages(ClearBit(st.words, p), if p < st.hint then p else st.hint)
  }

  // ----- pages in use -----

  /** From page `k` on, a page is marked exactly when it is in `live`; the hint and
      all live pages are past the kernel. */
  ghost predicate Accounted(st: Pages, live: set<nat>, k: nat) {
    && |st.words| == BM_SIZE && 1 <= k <= st.hint
    && (forall p: nat :: p in live ==> k <= p < MAX_PAGES)
    && (forall p: nat :: k <= p < MAX_PAGES ==> (GetBit(st.words, p) <==> p in live))
  }

  predicate InRun(p: nat, start: nat, n: nat) {
    start <= p < start + n
  }

  ghost function RunOf(start: nat, n: nat): set<nat> {
    set p: nat | start <= p < start + n && InRun(p, start, n)
  }

  /** No page of the run is live. */
  ghost predicate Unused(live: set<nat>, start: nat, n: nat) {
    RunOf(start, n) !! live
  }

  lemma InitialAccounted(kernelEnd: nat)
    requires kernelEnd > 0
    ensures Accounted(Initial(kernelEnd), {}, KernelPages(kernelEnd))
  {
    hide Bit;
    var st, k := Initial(kernelEnd), KernelPages(kernelEnd);
    forall p: nat | k <= p < MAX_PAGES ensures !GetBit(st.words, p) {
      NoBits(p % 64);
    }
  }

  /** Allocation returns the lowest run at or above the hint that is disjoint from
      all live pages, and lies past the kernel; it returns 0 exactly when there is
      none, and then nothing changes. Only the run's bits change. */
  lemma AllocPagesLowest(st: Pages, live: set<nat>, k: nat, n: int)
    requires Accounted(st, live, k) && n > 0
    ensures var (addr, st') := AllocPages(st, n);
            && (addr == 0 <==> forall t: nat :: st.hint <= t && t + n <= MAX_PAGES ==> !Unused(live, t, n))
            && (addr == 0 ==> st' == st && Accounted(st', live, k))
            && (addr != 0 ==>
                  var s := addr / PAGE_SIZE;
                  && addr == s * PAGE_SIZE && st.hint <= s && k <= s && s + n <= MAX_PAGES && Unused(live, s, n)
                  && (forall t: nat :: st.hint <= t < s ==> !Unused(live, t, n))
                  && Accounted(st', live + RunOf(s, n), k)
                  && (forall p: nat :: GetBit(st'.words, p) == (p in RunOf(s, n) || GetBit(st.words, p))))
  {
    hide GetBit, SetRun;
    var r := LowestRun(st.words, n, st.hint);
    forall t: nat | st.hint <= t && t + n <= MAX_PAGES
      ensures RunClear(st.words, t, n) <==> Unused(live, t, n)
    {
      ClearMeansUnused(st, live, k, t, n);
    }
    if r.Some? {
      SetRunFacts(st.words, r.value, n);
      RunMembers(r.value, n);
      assert Unused(live, r.value, n);
    }
  }

  lemma RunMembers(start: nat, n: nat)
    ensures forall p: nat :: p in RunOf(start, n) <==> start <= p < start + n
  {
    forall p: nat ensures p in RunOf(start, n) <==> start <= p < start + n {
      assert InRun(p, start, n) == (start <= p < start + n);
    }
  }

  lemma ClearMeansUnused(st: Pages, live: set<nat>, k: nat, t: nat, n: nat)
    requires Accounted(st, live, k) && st.hint <= t && t + n <= MAX_PAGES
    ensures RunClear(st.words, t, n) <==> Unused(live, t, n)
  {
    hide GetBit;
    if Unused(live, t, n) {
      forall p: nat | t <= p < t + n ensures !GetBit(st.words, p) {
        assert InRun(p, t, n) && p in RunOf(t, n);
      }
    } else {
      var p: nat :| p in RunOf(t, n) && p in live;
      assert InRun(p, t, n) && GetBit(st.words, p);
    }
  }

  lemma FreePageAccounted(st: Pages, live: set<nat>, k: nat, addr: nat)
    requires Accounted(st, live, k) && addr / PAGE_SIZE in live
    ensures Accounted(FreePage(st, addr), live - {addr / PAGE_SIZE}, k)
    ensures forall p: nat :: GetBit(FreePage(st, addr).words, p) == (p != addr / PAGE_SIZE && GetBit(st.words, p))
  {
    hide GetBit, ClearBit;
    SetBitFacts(st.words, addr / PAGE_SIZE);
  }

  // ----- runs -----

  datatype PageOp = Take(n: int) | Give(addr: nat)

  datatype Use = Use(pages: Pages, live: set<nat>)

  predicate Allowed(u: Use, op: PageOp) {
    op.Give? ==> op.addr / PAGE_SIZE in u.live
  }

  ghost function PageStep(u: Use, op: PageOp): (r: Use)
    requires |u.pages.words| == BM_SIZE
    ensures |r.pages.words| == BM_SIZE
  {
    match op
    case Take(n) =>
      var (addr, st) := AllocPages(u.pages, n);
      Use(st, if addr == 0 then u.live else u.live + RunOf(addr / PAGE_SIZE, n))
    case Give(addr) => Use(FreePage(u.pages, addr), u.live - {addr / PAGE_SIZE})
  }

  ghost function PageRun(u: Use, ops: seq<PageOp>): (r: Use)
    requires |u.pages.words| == BM_SIZE
    ensures |r.pages.words| == BM_SIZE
    decreases |ops|
  {
    if ops == [] then u else PageStep(PageRun(u, ops[..|ops| - 1]), ops[|ops| - 1])
  }

  /** Every free of the run is of a page live at that point. */
  ghost predicate Disciplined(u: Use, ops: seq<PageOp>)
    requires |u.pages.words| == BM_SIZE
    decreases |ops|
  {
    ops != [] ==> Disciplined(u, ops[..|ops| - 1]) && Allowed(PageRun(u, ops[..|ops| - 1]), ops[|ops| - 1])
  }

  lemma {:induction false} RunAccounted(kernelEnd: nat, ops: seq<PageOp>)
    requires kernelEnd > 0 && Disciplined(Use(Initial(kernelEnd), {}), ops)
    ensures var u := PageRun(Use(Initial(kernelEnd), {}), ops);
            Accounted(u.pages, u.live, KernelPages(kernelEnd))
    decreases |ops|
  {
    hide Accounted, AllocPages, FreePage, Initial, KernelPages;
    var start := Use(Initial(kernelEnd), {});
    if ops == [] {
      InitialAccounted(kernelEnd);
    } else {
      var before, k := PageRun(start, ops[..|ops| - 1]), KernelPages(kernelEnd);
      RunAccounted(kernelEnd, ops[..|ops| - 1]);
      match ops[|ops| - 1]
      case Take(n) =>
        if n > 0 {
          AllocPagesLowest(before.pages, before.live, k, n);
        } else {
          AllocNothing(before.pages, n);
        }
      case Give(addr) => FreePageAccounted(before.pages, before.live, k, addr);
    }
  }

  lemma AllocNothing(st: Pages, n: int)
    requires |st.words| == BM_SIZE && n <= 0
    ensures AllocPages(st, n) == (0, st)
  {
  }

  /** Pages are never handed out twice: in every run whose frees are of live pages,
      the next allocation returns pages that are not live and lie past the kernel. */
  lemma NeverTwice(kernelEnd: nat, ops: seq<PageOp>, n: int)
    requires kernelEnd > 0 && Disciplined(Use(Initial(kernelEnd), {}), ops)
    ensures var u := PageRun(Use(Initial(kernelEnd), {}), ops);
            var addr := AllocPages(u.pages, n).0;
            addr != 0 ==> addr % PAGE_SIZE == 0 && addr >= kernelEnd && addr + n * PAGE_SIZE <= MAX_PAGES * PAGE_SIZE
                          && Unused(u.live, addr / PAGE_SIZE, n)
  {
    hide Accounted, AllocPages, Initial;
    var u := PageRun(Use(Initial(kernelEnd), {}), ops);
    RunAccounted(kernelEnd, ops);
    if n > 0 {
      AllocPagesLowest(u.pages, u.live, KernelPages(kernelEnd), n);
    } else {
      AllocNothing(u.pages, n);
    }
  }

  // ----- runs of single pages -----

  /** No free page past the kernel lies below the hint. */
  ghost predicate HintTight(st: Pages, live: set<nat>, k: nat) {
    forall p: nat :: k <= p < st.hint && p < MAX_PAGES ==> p in live
  }

  predicate SinglePages(ops: seq<PageOp>) {
    forall i :: 0 <= i < |ops| && ops[i].Take? ==> ops[i].n == 1
  }

  /** As long as only single pages are taken, the hint loses no page: allocation
      fails exactly when every page past the kernel is live. With longer runs the
      search may leave free pages below the hint behind. */
  lemma {:induction false} SinglePagesComplete(kernelEnd: nat, ops: seq<PageOp>)
    requires kernelEnd > 0 && Disciplined(Use(Initial(kernelEnd), {}), ops) && SinglePages(ops)
    ensures var u, k := PageRun(Use(Initial(kernelEnd), {}), ops), KernelPages(kernelEnd);
            && HintTight(u.pages, u.live, k)
            && (AllocPages(u.pages, 1).0 == 0 <==> forall p: nat :: k <= p < MAX_PAGES ==> p in u.live)
    decreases |ops|
  {
    hide AllocPages, FreePage, KernelPages, GetBit;
    var start, k := Use(Initial(kernelEnd), {}), KernelPages(kernelEnd);
    var u := PageRun(start, ops);
    RunAccounted(kernelEnd, ops);
    if ops != [] {
      var front := ops[..|ops| - 1];
      var before := PageRun(start, front);
      RunAccounted(kernelEnd, front);
      SinglePagesComplete(kernelEnd, front);
      match ops[|ops| - 1]
      case Take(n) => TakeTight(before.pages, before.live, k);
      case Give(addr) => GiveTight(before.pages, before.live, k, addr);
    }
    OnePageLeft(u.pages, u.live, k);
  }

  lemma TakeTight(st: Pages, live: set<nat>, k: nat)
    requires Accounted(st, live, k) && HintTight(st, live, k)
    ensures var (addr, st') := AllocPages(st, 1);
            HintTight(st', if addr == 0 then live else live + RunOf(addr / PAGE_SIZE, 1), k)
  {
    hide GetBit, SetRun;
    AllocPagesLowest(st, live, k, 1);
    var (addr, st') := AllocPages(st, 1);
    if addr != 0 {
      var s := addr / PAGE_SIZE;
      forall p: nat | k <= p < st'.hint ensures p in live + RunOf(s, 1) {
        if st.hint <= p < s { assert !Unused(live, p, 1); }
      }
    }
  }

  lemma GiveTight(st: Pages, live: set<nat>, k: nat, addr: nat)
    requires Accounted(st, live, k) && HintTight(st, live, k) && addr / PAGE_SIZE in live
    ensures HintTight(FreePage(st, addr), live - {addr / PAGE_SIZE}, k)
  {
    hide GetBit, ClearBit;
  }

  lemma OnePageLeft(st: Pages, live: set<nat>, k: nat)
    requires Accounted(st, live, k) && HintTight(st, live, k)
    ensures AllocPages(st, 1).0 == 0 <==> forall p: nat :: k <= p < MAX_PAGES ==> p in live
  {
    hide GetBit, AllocPages;
    AllocPagesLowest(st, live, k, 1);
    if AllocPages(st, 1).0 == 0 {
      forall p: nat | k <= p < MAX_PAGES ensures p in live {
        if st.hint <= p { assert !Unused(live, p, 1); }
      }
    } else {
      var s := AllocPages(st, 1).0 / PAGE_SIZE;
      RunMembers(s, 1);
      assert s in RunOf(s, 1) && s !in live;
    }
  }

  // ----- pages below the hint -----

  /** A run of `n` pages past the kernel that are all free. */
  ghost predicate FreeRunAt(live: set<nat>, k: nat, n: nat, t: nat) {
    k <= t && t + n <= MAX_PAGES && Unused(live, t, n)
  }

  /** After any run whose frees are of live pages: an allocation overlooks free runs
      exactly when there are some and all of them start below the hint. */
  lemma OverlooksRuns(kernelEnd: nat, ops: seq<PageOp>, n: nat)
    requires kernelEnd > 0 && n > 0 && Disciplined(Use(Initial(kernelEnd), {}), ops)
    ensures var u, k := PageRun(Use(Initial(kernelEnd), {}), ops), KernelPages(kernelEnd);
            var free := exists t: nat :: FreeRunAt(u.live, k, n, t);
            AllocPages(u.pages, n).0 == 0 && free <==> free && forall t: nat :: FreeRunAt(u.live, k, n, t) ==> t < u.pages.hint
  {
    hide AllocPages, Initial, KernelPages, Unused;
    var u, k := PageRun(Use(Initial(kernelEnd), {}), ops), KernelPages(kernelEnd);
    RunAccounted(kernelEnd, ops);
    AllocPagesLowest(u.pages, u.live, k, n);
    var addr := AllocPages(u.pages, n).0;
    if addr != 0 {
      assert FreeRunAt(u.live, k, n, addr / PAGE_SIZE);
    } else {
      forall t: nat | FreeRunAt(u.live, k, n, t) ensures t < u.pages.hint {
      }
    }
  }

  /** Two single pages, the first given back, then two pages at once: the run is taken
      behind the page still in use, and the hint with it. */
  function Skipping(k: nat): seq<PageOp> {
    [Take(1), Take(1), Give(k * PAGE_SIZE), Take(2)]
  }

  lemma TakesRun(st: Pages, live: set<nat>, k: nat, n: nat, s: nat)
    requires Accounted(st, live, k) && n > 0 && st.hint <= s && s + n <= MAX_PAGES && Unused(live, s, n)
    requires forall t: nat :: st.hint <= t < s ==> !Unused(live, t, n)
    ensures var u := PageStep(Use(st, live), Take(n));
            && AllocPages(st, n).0 == s * PAGE_SIZE && u.pages.hint == s + n
            && u.live == live + RunOf(s, n) && Accounted(u.pages, u.live, k)
            && forall p: nat :: p in u.live <==> p in live || s <= p < s + n
  {
    hide GetBit, SetRun, Unused, RunOf;
    AllocPagesLowest(st, live, k, n);
    RunMembers(s, n);
  }

  lemma RunGrows(u: Use, ops: seq<PageOp>, op: PageOp)
    requires |u.pages.words| == BM_SIZE
    ensures PageRun(u, ops + [op]) == PageStep(PageRun(u, ops), op)
    ensures Disciplined(u, ops + [op]) <==> Disciplined(u, ops) && Allowed(PageRun(u, ops), op)
  {
    hide PageStep, Allowed;
    assert (ops + [op])[..|ops|] == ops;
  }

  lemma UnusedMeans(live: set<nat>, s: nat, n: nat)
    ensures Unused(live, s, n) <==> forall p: nat :: s <= p < s + n ==> p !in live
  {
    RunMembers(s, n);
    if Unused(live, s, n) {
      forall p: nat | s <= p < s + n ensures p !in live {
        assert p in RunOf(s, n);
      }
    }
  }

  /** After that run the first page past the kernel is free and below the hint. */
  lemma SkippingLeaves(kernelEnd: nat)
    requires kernelEnd > 0 && KernelPages(kernelEnd) + 5 <= MAX_PAGES
    ensures var k, start := KernelPages(kernelEnd), Use(Initial(kernelEnd), {});
            && Disciplined(start, Skipping(k))
            && var u := PageRun(start, Skipping(k));
            && u.pages.hint == k + 4 && Accounted(u.pages, u.live, k)
            && (forall p: nat :: p in u.live <==> k + 1 <= p < k + 4)
  {
    hide AllocPages, FreePage, Initial, KernelPages, GetBit, Unused, RunOf, PageStep;
    var k, start := KernelPages(kernelEnd), Use(Initial(kernelEnd), {});
    InitialAccounted(kernelEnd);
    InitialHint(kernelEnd);
    var ops0: seq<PageOp> := [];
    assert PageRun(start, ops0) == start && Disciplined(start, ops0);
    UnusedMeans({}, k, 1);
    TakesRun(start.pages, {}, k, 1, k);
    RunGrows(start, [], Take(1));
    var u1 := PageRun(start, [] + [Take(1)]);
    UnusedMeans(u1.live, k + 1, 1);
    TakesRun(u1.pages, u1.live, k, 1, k + 1);
    RunGrows(start, [] + [Take(1)], Take(1));
    var u2 := PageRun(start, [] + [Take(1)] + [Take(1)]);
    var u3 := PageStep(u2, Give(k * PAGE_SIZE));
    assert k * PAGE_SIZE / PAGE_SIZE == k;
    GiveFirst(u2, k);
    RunGrows(start, [] + [Take(1)] + [Take(1)], Give(k * PAGE_SIZE));
    UnusedMeans(u3.live, k, 2);
    UnusedMeans(u3.live, k + 1, 2);
    UnusedMeans(u3.live, k + 2, 2);
    assert k + 1 in u3.live && k + 1 <= k + 1 < k + 2 + 1;
    assert !Unused(u3.live, k, 2) && !Unused(u3.live, k + 1, 2);
    forall t: nat | u3.pages.hint <= t < k + 2 ensures !Unused(u3.live, t, 2) {
      assert t == k || t == k + 1;
    }
    TakesRun(u3.pages, u3.live, k, 2, k + 2);
    RunGrows(start, [] + [Take(1)] + [Take(1)] + [Give(k * PAGE_SIZE)], Take(2));
    assert [] + [Take(1)] + [Take(1)] + [Give(k * PAGE_SIZE)] + [Take(2)] == Skipping(k);
  }

  lemma InitialHint(kernelEnd: nat)
    ensures Initial(kernelEnd).hint == KernelPages(kernelEnd)
  {
  }

  lemma GiveFirst(u: Use, k: nat)
    requires Accounted(u.pages, u.live, k) && k in u.live && u.pages.hint == k + 2
    ensures var v := PageStep(u, Give(k * PAGE_SIZE));
            v.live == u.live - {k} && v.pages.hint == k && Accounted(v.pages, v.live, k)
  {
    hide GetBit, ClearBit;
    assert k * PAGE_SIZE / PAGE_SIZE == k;
    FreePageAccounted(u.pages, u.live, k, k * PAGE_SIZE);
  }

  /** The next single page is not the lowest free one; and once the pages above are
      taken too, single pages are refused although that one is free. */
  lemma FreePageOverlooked(kernelEnd: nat)
    requires kernelEnd > 0 && KernelPages(kernelEnd) + 5 <= MAX_PAGES
    ensures var k, start := KernelPages(kernelEnd), Use(Initial(kernelEnd), {});
            var more := Skipping(k) + [Take(MAX_PAGES - k - 4)];
            && Disciplined(start, Skipping(k)) && Disciplined(start, more)
            && k !in PageRun(start, Skipping(k)).live && AllocPages(PageRun(start, Skipping(k)).pages, 1).0 == (k + 4) * PAGE_SIZE
            && k !in PageRun(start, more).live && AllocPages(PageRun(start, more).pages, 1).0 == 0
  {
    hide AllocPages, FreePage, Initial, KernelPages, GetBit, Unused, RunOf, PageStep, PageRun, Disciplined, Skipping;
    var k, start := KernelPages(kernelEnd), Use(Initial(kernelEnd), {});
    SkippingLeaves(kernelEnd);
    var u, n := PageRun(start, Skipping(k)), MAX_PAGES - k - 4;
    UnusedMeans(u.live, k + 4, 1);
    TakesRun(u.pages, u.live, k, 1, k + 4);
    UnusedMeans(u.live, k + 4, n);
    TakesRun(u.pages, u.live, k, n, k + 4);
    RunGrows(start, Skipping(k), Take(n));
    var v := PageStep(u, Take(n));
    AllocPagesLowest(v.pages, v.live, k, 1);
  }

  // ----- the allocator -----

  class PageAllocator {
    const bitmap: array<word>
    var lastFreePage: nat

    ghost predicate Valid()
      reads this
    {
      bitmap.Length == BM_SIZE
    }

    ghost function State(): Pages
      reads this, bitmap
    {
      Pages(bitmap[..], lastFreePage)
    }

    constructor (kernelEnd: nat)
      ensures Valid() && fresh(bitmap) && State() == Initial(kernelEnd)
    {
      var words := new word[BM_SIZE](i => 0);
      var start := (kernelEnd + 4095) / PAGE_SIZE / 64;
      for i := 0 to BM_SIZE
        invariant forall j :: 0 <= j < i ==> words[j] == if j < start then FULL else 0
      {
        if i < start { words[i] := FULL; } else { words[i] := 0; }
      }
      bitmap := words;
      lastFreePage := (kernelEnd + 4095) / PAGE_SIZE;
      new;
      assert bitmap[..] == Initial(kernelEnd).words;
    }

    /** The search starts over behind every page in use. */
    method Alloc(n: int) returns (addr: nat)
      requires Valid()
      modifies this, bitmap
      ensures Valid() && (addr, State()) == AllocPages(old(State()), n)
    {
      hide GetBit, SetRun, RunClear, LowestRun;
      if n <= 0 { return 0; }
      ghost var words := bitmap[..];
      var start, i := lastFreePage, 0;
      RunNone(words, start);
      while i < n
        modifies {}
        invariant lastFreePage <= start && 0 <= i <= n && RunClear(words, start, i) && bitmap[..] == words
        invariant i > 0 ==> start + i <= MAX_PAGES
        invariant LowestRun(words, n, lastFreePage) == LowestRun(words, n, start)
        decreases MAX_PAGES - start - i
      {
        var page := start + i;
        if page >= MAX_PAGES {
          RunTooHigh(words, n, start);
          return 0;
        }
        if Bit(bitmap[page / 64], page % 64) {
          RunBlocked(words, n, start, page);
          start, i := page + 1, 0;
          RunNone(words, start);
        } else {
          RunLonger(words, start, i);
          i := i + 1;
        }
      }
      RunFound(words, n, start);
      SetNone(words, start);
      for j := 0 to n
        modifies bitmap
        invariant bitmap[..] == SetRun(words, start, j)
      {
        RunSets(words, start, j);
        bitmap[(start + j) / 64] := SetWord(bitmap[(start + j) / 64], (start + j) % 64);
      }
      lastFreePage := start + n;
      addr := start * PAGE_SIZE;
    }

    method Free(addr: nat)
      requires Valid()
      modifies this, bitmap
      ensures Valid() && State() == FreePage(old(State()), addr)
    {
      var p := addr / PAGE_SIZE;
      if p >= MAX_PAGES { return; }
      bitmap[p / 64] := ClearWord(bitmap[p / 64], p % 64);
      if p < lastFreePage { lastFreePage := p; }
    }
  }

  // ----- steps of the search -----

  lemma SetNone(words: seq<word>, start: nat)
    requires start <= 64 * |words|
    ensures SetRun(words, start, 0) == words
  {
  }

  lemma RunNone(words: seq<word>, start: nat)
    ensures RunClear(words, start, 0)
  {
  }

  lemma RunTooHigh(words: seq<word>, n: nat, start: nat)
    requires start + n > MAX_PAGES
    ensures LowestRun(words, n, start).None?
  {
  }

  lemma RunLonger(words: seq<word>, start: nat, i: nat)
    requires RunClear(words, start, i) && (start + i) / 64 < |words| && !Bit(words[(start + i) / 64], (start + i) % 64)
    ensures RunClear(words, start, i + 1)
  {
    hide Bit;
  }

  lemma RunFound(words: seq<word>, n: nat, start: nat)
    requires RunClear(words, start, n) && start + n <= MAX_PAGES
    ensures LowestRun(words, n, start) == Some(start)
  {
  }

  /** A page in use rules out every run that would contain it. */
  lemma {:induction false} RunBlocked(words: seq<word>, n: nat, start: nat, page: nat)
    requires start <= page < start + n && page / 64 < |words| && Bit(words[page / 64], page % 64)
    ensures LowestRun(words, n, start) == LowestRun(words, n, page + 1)
    decreases page - start
  {
    hide Bit;
    assert GetBit(words, page);
    assert !RunClear(words, start, n);
    if start < page { RunBlocked(words, n, start + 1, page); }
    if start + n > MAX_PAGES { RunTooHigh(words, n, page + 1); }
  }

  lemma RunSets(words: seq<word>, start: nat, j: nat)
    requires start + j < 64 * |words|
    ensures SetRun(words, start, j + 1) == SetBit(SetRun(words, start, j), start + j)
  {
  }
}
