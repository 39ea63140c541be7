/** Byte memory with little-endian 4- and 8-byte accesses. */
module Memory {
  import opened Words

  /** A finite set of written bytes; every other byte reads zero. */
  type Mem = map<int, byte>

  function Get(m: Mem, a: int): byte {
    if a in m then m[a] else 0
  }

  function Load(m: Mem, a: int, n: nat): nat
    decreases n
  {
    if n == 0 then 0 else Get(m, a) + 256 * Load(m, a + 1, n - 1)
  }

  function Store(m: Mem, a: int, n: nat, v: nat): Mem
    decreases n
  {
    if n == 0 then m else Store(m[a := v % 256], a + 1, n - 1, v / 256)
  }

  function Pow256(n: nat): nat {
    if n == 0 then 1 else 256 * Pow256(n - 1)
  }

  lemma {:induction false} StoreFrame(m: Mem, a: int, n: nat, v: nat, x: int)
    requires x < a || a + n <= x
    ensures Get(Store(m, a, n, v), x) == Get(m, x)
    decreases n
  {
    if n > 0 {
      StoreFrame(m[a := v % 256], a + 1, n - 1, v / 256, x);
    }
  }

  lemma {:induction false} LoadStore(m: Mem, a: int, n: nat, v: nat)
    requires v < Pow256(n)
    ensures Load(Store(m, a, n, v), a, n) == v
    decreases n
  {
    if n > 0 {
      LoadStore(m[a := v % 256], a + 1, n - 1, v / 256);
      StoreFrame(m[a := v % 256], a + 1, n - 1, v / 256, a);
    }
  }

  lemma {:induction false} LoadBound(m: Mem, a: int, n: nat)
    ensures Load(m, a, n) < Pow256(n)
    decreases n
  {
    if n > 0 {
      LoadBound(m, a + 1, n - 1);
    }
  }

  /** Two memories agree on the addresses in [lo, hi). */
  ghost predicate Agree(m: Mem, m': Mem, lo: int, hi: int) {
    forall x :: lo <= x < hi ==> Get(m', x) == Get(m, x)
  }

  lemma {:induction false} LoadAgree(m: Mem, m': Mem, a: int, n: nat)
    requires Agree(m, m', a, a + n)
    ensures Load(m', a, n) == Load(m, a, n)
    decreases n
  {
    if n > 0 {
      assert Get(m', a) == Get(m, a);
      LoadAgree(m, m', a + 1, n - 1);
    }
  }

  function Load64(m: Mem, a: int): (w: word) {
    LoadBound(m, a, 8);
    Load(m, a, 8)
  }

  function Store64(m: Mem, a: int, w: word): Mem {
    Store(m, a, 8, w)
  }

  function Load32(m: Mem, a: int): (w: u32) {
    LoadBound(m, a, 4);
    Load(m, a, 4)
  }

  function Store32(m: Mem, a: int, w: u32): Mem {
    Store(m, a, 4, w)
  }

  /** What an 8-byte store does to later reads. */
  lemma Store64Facts(m: Mem, a: int, w: word)
    ensures Load64(Store64(m, a, w), a) == w
    ensures forall x :: x < a || a + 8 <= x ==> Get(Store64(m, a, w), x) == Get(m, x)
  {
    assert Pow256(8) == TWO64;
    LoadStore(m, a, 8, w);
    forall x | x < a || a + 8 <= x ensures Get(Store64(m, a, w), x) == Get(m, x) {
      StoreFrame(m, a, 8, w, x);
    }
  }

  lemma Store32Facts(m: Mem, a: int, w: u32)
    ensures Load32(Store32(m, a, w), a) == w
    ensures forall x :: x < a || a + 4 <= x ==> Get(Store32(m, a, w), x) == Get(m, x)
  {
    LoadStore(m, a, 4, w);
    forall x | x < a || a + 4 <= x ensures Get(Store32(m, a, w), x) == Get(m, x) {
      StoreFrame(m, a, 4, w, x);
    }
  }

  lemma Load64Agree(m: Mem, m': Mem, a: int)
    requires Agree(m, m', a, a + 8)
    ensures Load64(m', a) == Load64(m, a)
  {
    LoadAgree(m, m', a, 8);
  }

  lemma Load32Agree(m: Mem, m': Mem, a: int)
    requires Agree(m, m', a, a + 4)
    ensures Load32(m', a) == Load32(m, a)
  {
    LoadAgree(m, m', a, 4);
  }
}
