/** The page buffers of file transfers: taken as a run, given back by the first page. */
module Transfers {
  import opened Bitmap
  import opened Pmm

  /** Pages of the buffer for a file of that many blocks. */
  function PagesFor(blocks: nat): nat {
    (blocks * 512 + 4095) / 4096
  }

  /** One transfer: the buffer is taken, used, and its address handed to free_page. */
  ghost function Transfer(u: Use, n: nat): (r: (bool, Use))
    requires |u.pages.words| == BM_SIZE
    ensures |r.1.pages.words| == BM_SIZE
  {
    var addr := AllocPages(u.pages, n).0;
    if addr == 0 then (false, u) else (true, PageStep(PageStep(u, Take(n)), Give(addr)))
  }

  ghost function After(u: Use, n: nat, t: nat): (r: Use)
    requires |u.pages.words| == BM_SIZE
    ensures |r.pages.words| == BM_SIZE
  {
    if t == 0 then u else Transfer(After(u, n, t - 1), n).1
  }

  /** A transfer that gets its buffer leaves all but the first page of it in use. */
  lemma TransferLeaks(u: Use, k: nat, n: nat)
    requires Accounted(u.pages, u.live, k) && n > 0
    ensures var (done, v) := Transfer(u, n);
            && Accounted(v.pages, v.live, k)
            && (!done ==> v == u && forall t: nat :: u.pages.hint <= t && t + n <= MAX_PAGES ==> !Unused(u.live, t, n))
            && (done ==>
                  var s := AllocPages(u.pages, n).0 / PAGE_SIZE;
                  && Unused(u.live, s, n) && v.pages.hint == s
                  && forall p: nat :: p in v.live <==> p in u.live || s < p < s + n)
  {
    hide AllocPages, FreePage, GetBit, Unused, RunOf;
    AllocPagesLowest(u.pages, u.live, k, n);
    var addr := AllocPages(u.pages, n).0;
    if addr != 0 {
      var s, w := addr / PAGE_SIZE, PageStep(u, Take(n));
      RunMembers(s, n);
      UnusedMeans(u.live, s, n);
      TakenHint(u.pages, n);
      FreePageAccounted(w.pages, w.live, k, addr);
      FreedHint(w.pages, addr);
    }
  }

  lemma TakenHint(st: Pages, n: nat)
    requires |st.words| == BM_SIZE && AllocPages(st, n).0 != 0
    ensures var (addr, st') := AllocPages(st, n); st'.hint == addr / PAGE_SIZE + n && addr / PAGE_SIZE < MAX_PAGES
  {
    hide SetRun, LowestRun;
  }

  lemma FreedHint(st: Pages, addr: nat)
    requires |st.words| == BM_SIZE && addr / PAGE_SIZE < st.hint && addr / PAGE_SIZE < MAX_PAGES
    ensures FreePage(st, addr).hint == addr / PAGE_SIZE
  {
    hide ClearBit;
  }

  /** No page is lost exactly when the buffer is one page, that is for files of at most
      eight blocks. */
  lemma LeaklessIff(u: Use, k: nat, blocks: nat)
    requires Accounted(u.pages, u.live, k) && blocks > 0
    ensures Transfer(u, PagesFor(blocks)).0 ==> (Transfer(u, PagesFor(blocks)).1.live == u.live <==> blocks <= 8)
  {
    hide AllocPages, Transfer, Unused, GetBit;
    var n := PagesFor(blocks);
    assert n == 1 <==> blocks <= 8;
    TransferLeaks(u, k, n);
    var (done, v) := Transfer(u, n);
    if done {
      var s := AllocPages(u.pages, n).0 / PAGE_SIZE;
      UnusedMeans(u.live, s, n);
      if n == 1 {
        assert v.live == u.live;
      } else {
        assert s + 1 in v.live && s + 1 !in u.live;
      }
    }
  }

  /** Pages in use after `t` buffers of `n` pages: all but the first of each. */
  predicate LostPage(k: nat, n: nat, t: nat, p: nat)
    requires n > 0
  {
    k <= p < k + t * n && (p - k) % n != 0
  }

  ghost predicate AfterLeaks(u: Use, k: nat, n: nat, t: nat)
    requires n > 0
  {
    && Accounted(u.pages, u.live, k) && u.pages.hint == (if t == 0 then k else k + (t - 1) * n)
    && forall p: nat :: p in u.live <==> LostPage(k, n, t, p)
  }

  /** Where the next buffer goes: behind the last one, its first page stays unused. */
  lemma NextBuffer(u: Use, k: nat, n: nat, t: nat)
    requires n >= 2 && AfterLeaks(u, k, n, t)
    ensures forall q: nat :: u.pages.hint <= q < k + t * n ==> !Unused(u.live, q, n)
    ensures Unused(u.live, k + t * n, n)
  {
    hide Accounted, Unused;
    UnusedMeans(u.live, k + t * n, n);
    forall q: nat | u.pages.hint <= q < k + t * n ensures !Unused(u.live, q, n) {
      UnusedMeans(u.live, q, n);
      var h := k + (t - 1) * n;
      Inside(k, n, t, if q == h then q + 1 else q);
      assert (if q == h then q + 1 else q) in u.live;
    }
  }

  /** The pages behind the first one of a buffer. */
  lemma Inside(k: nat, n: nat, t: nat, p: nat)
    requires n >= 2 && t > 0 && k + (t - 1) * n < p < k + t * n
    ensures LostPage(k, n, t, p)
  {
    Remainder(n, t - 1, p - k - (t - 1) * n);
  }

  lemma Remainder(n: nat, t: nat, r: nat)
    requires r < n
    ensures (t * n + r) % n == r
  {
    var m := t * n + r;
    var d := t - m / n;
    assert m == m / n * n + m % n;
    assert d * n == t * n - m / n * n == m % n - r;
    Multiple(d, n);
  }

  lemma Multiple(d: int, n: nat)
    ensures d >= 1 ==> d * n >= n
    ensures d <= -1 ==> d * n <= -(n as int)
  {
  }

  /** One more buffer. */
  lemma LostGrows(k: nat, n: nat, t: nat, p: nat)
    requires n >= 2
    ensures LostPage(k, n, t + 1, p) <==> LostPage(k, n, t, p) || k + t * n < p < k + t * n + n
  {
    assert (t + 1) * n == t * n + n;
    if k + t * n <= p < k + t * n + n { Remainder(n, t, p - k - t * n); }
  }

  /** Transfers of files of more than eight blocks run the kernel out of pages: after
      `t` of them in a fresh allocator `n - 1` pages each are lost, and the next one gets
      a buffer exactly when `t + 1` buffers fit behind the kernel. */
  lemma {:induction false} TransfersRunOut(kernelEnd: nat, n: nat, t: nat)
    requires kernelEnd > 0 && n >= 2 && KernelPages(kernelEnd) + t * n <= MAX_PAGES
    ensures var k, u := KernelPages(kernelEnd), After(Use(Initial(kernelEnd), {}), n, t);
            && AfterLeaks(u, k, n, t)
            && (Transfer(u, n).0 <==> k + (t + 1) * n <= MAX_PAGES)
    decreases t
  {
    hide Accounted, AllocPages, Initial, KernelPages, Transfer, Unused;
    var k, start := KernelPages(kernelEnd), Use(Initial(kernelEnd), {});
    var u := After(start, n, t);
    if t == 0 {
      InitialAccounted(kernelEnd);
      InitialHint(kernelEnd);
    } else {
      assert (t - 1) * n + n == t * n;
      TransfersRunOut(kernelEnd, n, t - 1);
      OneMore(After(start, n, t - 1), k, n, t - 1);
    }
    assert (t + 1) * n == t * n + n;
    NextBuffer(u, k, n, t);
    TransferLeaks(u, k, n);
    if k + (t + 1) * n > MAX_PAGES && Transfer(u, n).0 { BufferFits(u, k, n, t); }
  }

  lemma OneMore(u: Use, k: nat, n: nat, t: nat)
    requires n >= 2 && AfterLeaks(u, k, n, t) && Transfer(u, n).0 && k + (t + 1) * n <= MAX_PAGES
    ensures AfterLeaks(Transfer(u, n).1, k, n, t + 1)
  {
    hide AllocPages, Transfer, Unused, GetBit;
    assert (t + 1) * n == t * n + n;
    NextBuffer(u, k, n, t);
    TransferLeaks(u, k, n);
    BufferAt(u, k, n, t);
    forall p: nat ensures p in Transfer(u, n).1.live <==> LostPage(k, n, t + 1, p) {
      LostGrows(k, n, t, p);
    }
  }

  lemma BufferAt(u: Use, k: nat, n: nat, t: nat)
    requires n >= 2 && AfterLeaks(u, k, n, t) && k + (t + 1) * n <= MAX_PAGES
    ensures AllocPages(u.pages, n).0 == (k + t * n) * PAGE_SIZE
  {
    hide Accounted, AllocPages, Unused;
    assert (t + 1) * n == t * n + n;
    NextBuffer(u, k, n, t);
    TakesRun(u.pages, u.live, k, n, k + t * n);
  }

  lemma BufferFits(u: Use, k: nat, n: nat, t: nat)
    requires n >= 2 && AfterLeaks(u, k, n, t) && Transfer(u, n).0
    ensures k + (t + 1) * n <= MAX_PAGES
  {
    hide Accounted, AllocPages, Unused;
    assert (t + 1) * n == t * n + n;
    NextBuffer(u, k, n, t);
    AllocPagesLowest(u.pages, u.live, k, n);
  }
}
