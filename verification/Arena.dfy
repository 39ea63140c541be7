/** The compiler's memory arena: blocks are handed out upward and never returned. */
module Arena {
  import opened Words
  import opened Options

  const ARENA_SIZE: nat := 524288

  datatype Heap = Heap(mem: seq<byte>, top: nat)

  predicate Sized(h: Heap) {
    |h.mem| == ARENA_SIZE && h.top <= ARENA_SIZE
  }

  function Aligned(n: nat): (r: nat)
    ensures n <= r < n + 8 && r % 8 == 0
  {
    (n + 7) / 8 * 8
  }

  /** `n` zero bytes at `a`. */
  function ZeroedRange(mem: seq<byte>, a: nat, n: nat): (r: seq<byte>)
    requires a + n <= |mem|
    ensures |r| == |mem|
  {
    mem[..a] + seq<byte>(n, _ => 0) + mem[a + n..]
  }

  /** A fresh zeroed block, or None when the arena is exhausted. */
  function Calloc(h: Heap, n: nat): (r: (Option<nat>, Heap))
    requires Sized(h)
    ensures Sized(r.1)
  {
    if h.top + Aligned(n) > ARENA_SIZE then (None, h)
    else (Some(h.top), Heap(ZeroedRange(h.mem, h.top, Aligned(n)), h.top + Aligned(n)))
  }

  /** The first `n` bytes copied upward one by one; the ranges may overlap. */
  function Copied(mem: seq<byte>, dst: nat, src: nat, n: nat): (r: seq<byte>)
    requires dst + n <= |mem| && src + n <= |mem|
    ensures |r| == |mem|
  {
    if n == 0 then mem
    else
      var before := Copied(mem, dst, src, n - 1);
      before[dst + n - 1 := before[src + n - 1]]
  }

  /** A larger block holding the old contents; copies `n` bytes whatever the old
      block's length. */
  function Realloc(h: Heap, ptr: Option<nat>, n: nat): (r: (Option<nat>, Heap))
    requires Sized(h) && (ptr.Some? ==> ptr.value <= h.top)
    ensures Sized(r.1)
  {
    var (q, h1) := Calloc(h, n);
    if q.None? || ptr.None? then (q, h1) else (q, Heap(Copied(h1.mem, q.value, ptr.value, n), h1.top))
  }

  /** `i` modulo `d`. */
  function Wrap(i: nat, d: nat): (r: nat)
    requires d > 0
    ensures r < d && (i < d ==> r == i)
  {
    if i < d then i else Wrap(i - d, d)
  }

  /** A forward copy onto a range above its source repeats the bytes between the two
      starts, and touches nothing else. */
  lemma {:induction false} ForwardCopy(mem: seq<byte>, dst: nat, src: nat, n: nat)
    requires src < dst && dst + n <= |mem|
    ensures var r := Copied(mem, dst, src, n);
            && (forall k :: dst <= k < dst + n ==> r[k] == mem[src + Wrap(k - dst, dst - src)])
            && (forall k :: 0 <= k < |mem| && !(dst <= k < dst + n) ==> r[k] == mem[k])
    decreases n
  {
    hide Wrap;
    if n > 0 {
      var d, before, r := dst - src, Copied(mem, dst, src, n - 1), Copied(mem, dst, src, n);
      ForwardCopy(mem, dst, src, n - 1);
      WrapStep(n - 1, d);
      assert r[dst + n - 1] == before[src + n - 1];
      forall k | dst <= k < dst + n ensures r[k] == mem[src + Wrap(k - dst, d)] {
        if k < dst + n - 1 { assert r[k] == before[k]; }
      }
    }
  }

  lemma WrapStep(i: nat, d: nat)
    requires d > 0
    ensures Wrap(i, d) == if i < d then i else Wrap(i - d, d)
  {
  }

  /** Reallocation keeps what a block held: the new block starts with the old bytes
      although the copy reads past the old block into the new one. Everything stays
      inside the arena and no byte below the old top changes. */
  lemma ReallocKeeps(h: Heap, p: nat, len: nat, n: nat)
    requires Sized(h) && len > 0 && p + len <= h.top
    ensures var (q, h') := Realloc(h, Some(p), n);
            && (q.None? <==> h.top + Aligned(n) > ARENA_SIZE)
            && (q.None? ==> h' == h)
            && (q.Some? ==>
                  && q.value == h.top && q.value + n <= h'.top == h.top + Aligned(n) <= ARENA_SIZE
                  && h'.mem[q.value..q.value + Min(len, n)] == h.mem[p..p + Min(len, n)]
                  && h'.mem[..h.top] == h.mem[..h.top])
  {
    hide Copied, Aligned;
    var (q, h1) := Calloc(h, n);
    if q.Some? {
      var h' := Realloc(h, Some(p), n).1;
      ForwardCopy(h1.mem, q.value, p, n);
      forall k | q.value <= k < q.value + Min(len, n) ensures h'.mem[k] == h.mem[p + (k - q.value)] {
        assert h'.mem[k] == h1.mem[p + (k - q.value)];
      }
      assert h'.mem[..h.top] == h1.mem[..h.top];
      assert h1.mem[..h.top] == h.mem[..h.top];
    }
  }

  class CompilerArena {
    const arena: array<byte>
    var offset: nat

    ghost predicate Valid()
      reads this
    {
      arena.Length == ARENA_SIZE && offset <= ARENA_SIZE
    }

    ghost function State(): Heap
      reads this, arena
    {
      Heap(arena[..], offset)
    }

    constructor ()
      ensures Valid() && offset == 0 && fresh(arena)
    {
      arena := new byte[ARENA_SIZE];
      offset := 0;
    }

    method MemSet(a: nat, n: nat)
      requires Valid() && a + n <= ARENA_SIZE
      modifies arena
      ensures arena[..] == ZeroedRange(old(arena[..]), a, n)
    {
      for i := 0 to n
        invariant forall j :: a <= j < a + i ==> arena[j] == 0
        invariant forall j :: 0 <= j < ARENA_SIZE && !(a <= j < a + i) ==> arena[j] == old(arena[j])
      {
        arena[a + i] := 0;
      }
    }

    method MemCopy(dst: nat, src: nat, n: nat)
      requires Valid() && dst + n <= ARENA_SIZE && src + n <= ARENA_SIZE
      modifies arena
      ensures arena[..] == Copied(old(arena[..]), dst, src, n)
    {
      for i := 0 to n
        invariant arena[..] == Copied(old(arena[..]), dst, src, i)
      {
        arena[dst + i] := arena[src + i];
      }
    }

    method CompCalloc(n: nat) returns (ptr: Option<nat>)
      requires Valid()
      modifies this, arena
      ensures Valid() && (ptr, State()) == Calloc(old(State()), n)
    {
      var total := (n + 7) / 8 * 8;
      if offset + total > ARENA_SIZE { return None; }
      ptr := Some(offset);
      offset := offset + total;
      MemSet(ptr.value, total);
    }

    method CompRealloc(ptr: Option<nat>, n: nat) returns (q: Option<nat>)
      requires Valid() && (ptr.Some? ==> ptr.value <= offset)
      modifies this, arena
      ensures Valid() && (q, State()) == Realloc(old(State()), ptr, n)
    {
      q := CompCalloc(n);
      if q.None? { return; }
      if ptr.Some? { MemCopy(q.value, ptr.value, n); }
    }
  }
}
