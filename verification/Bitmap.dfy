/** Bit sets kept in 64-bit words, one bit per block or page. */
module Bitmap {
  import opened Words

  /** Bit `k` of a number. */
  function Bit(w: nat, k: nat): bool
    decreases k
  {
    if k == 0 then w % 2 == 1 else Bit(w / 2, k - 1)
  }

  /** w | (1 << k). */
  function WithBit(w: nat, k: nat): nat
    decreases k
  {
    if k == 0 then w / 2 * 2 + 1 else WithBit(w / 2, k - 1) * 2 + w % 2
  }

  /** w & ~(1 << k). */
  function WithoutBit(w: nat, k: nat): nat
    decreases k
  {
    if k == 0 then w / 2 * 2 else WithoutBit(w / 2, k - 1) * 2 + w % 2
  }

  function Pow2(n: nat): nat {
    if n == 0 then 1 else 2 * Pow2(n - 1)
  }

  lemma {:induction false} WithBitFacts(w: nat, k: nat, j: nat)
    ensures Bit(WithBit(w, k), j) == (j == k || Bit(w, j))
    ensures Bit(WithoutBit(w, k), j) == (j != k && Bit(w, j))
    decreases k
  {
    BitStep(w, j);
    BitStep(WithBit(w, k), j);
    BitStep(WithoutBit(w, k), j);
    if k > 0 && j > 0 { WithBitFacts(w / 2, k - 1, j - 1); }
  }

  lemma {:induction false} WithBitBound(w: nat, k: nat, n: nat)
    requires k < n && w < Pow2(n)
    ensures WithBit(w, k) < Pow2(n) && WithoutBit(w, k) < Pow2(n)
    decreases n
  {
    if k > 0 { WithBitBound(w / 2, k - 1, n - 1); }
  }

  lemma BitStep(w: nat, k: nat)
    ensures Bit(w, k) == if k == 0 then w % 2 == 1 else Bit(w / 2, k - 1)
  {
  }

  ghost predicate AllSet(w: nat, n: nat) {
    forall k: nat :: k < n ==> Bit(w, k)
  }

  /** A number below 2^n has all n bits set exactly when it is 2^n - 1. */
  lemma {:induction false} AllOnes(w: nat, n: nat)
    requires w < Pow2(n)
    ensures w == Pow2(n) - 1 <==> AllSet(w, n)
    decreases n
  {
    hide Bit;
    if n > 0 {
      var h := w / 2;
      assert h < Pow2(n - 1);
      AllOnes(h, n - 1);
      BitStep(w, 0);
      if w == Pow2(n) - 1 {
        assert h == Pow2(n - 1) - 1 && w % 2 == 1;
        forall k: nat | k < n ensures Bit(w, k) {
          BitStep(w, k);
        }
      } else if AllSet(w, n) {
        assert Bit(w, 0);
        forall k: nat | k < n - 1 ensures Bit(h, k) {
          BitStep(w, k + 1);
        }
        assert false;
      }
    }
  }

  lemma {:induction false} NoBits(k: nat)
    ensures !Bit(0, k)
    decreases k
  {
    if k > 0 { NoBits(k - 1); }
  }

  const FULL: word := 0xFFFF_FFFF_FFFF_FFFF

  lemma {:induction false} Pow2Add(m: nat, n: nat)
    ensures Pow2(m + n) == Pow2(m) * Pow2(n)
    decreases m
  {
    if m > 0 { Pow2Add(m - 1, n); }
  }

  lemma Pow2Of64()
    ensures Pow2(64) == TWO64
  {
    Pow2Add(8, 8);
    Pow2Add(16, 16);
    Pow2Add(32, 32);
    assert Pow2(8) == 256 by { assert Pow2(4) == 16; Pow2Add(4, 4); }
  }

  function SetWord(w: word, k: nat): word
    requires k < 64
  {
    Pow2Of64();
    WithBitBound(w, k, 64);
    WithBit(w, k)
  }

  function ClearWord(w: word, k: nat): word
    requires k < 64
  {
    Pow2Of64();
    WithBitBound(w, k, 64);
    WithoutBit(w, k)
  }

  lemma FullWord(w: word)
    ensures w == FULL <==> AllSet(w, 64)
  {
    Pow2Of64();
    AllOnes(w, 64);
  }

  // ----- arrays of words -----

  function GetBit(words: seq<word>, b: nat): bool {
    b / 64 < |words| && Bit(words[b / 64], b % 64)
  }

  function SetBit(words: seq<word>, b: nat): (r: seq<word>)
    requires b / 64 < |words|
    ensures |r| == |words|
  {
    words[b / 64 := SetWord(words[b / 64], b % 64)]
  }

  function ClearBit(words: seq<word>, b: nat): (r: seq<word>)
    requires b / 64 < |words|
    ensures |r| == |words|
  {
    words[b / 64 := ClearWord(words[b / 64], b % 64)]
  }

  /** Changing one bit changes no other. */
  lemma SetBitFacts(words: seq<word>, b: nat)
    requires b / 64 < |words|
    ensures forall j: nat :: GetBit(SetBit(words, b), j) == (j == b || GetBit(words, j))
    ensures forall j: nat :: GetBit(ClearBit(words, b), j) == (j != b && GetBit(words, j))
  {
    hide Bit, WithBit, WithoutBit;
    forall j: nat
      ensures GetBit(SetBit(words, b), j) == (j == b || GetBit(words, j))
      ensures GetBit(ClearBit(words, b), j) == (j != b && GetBit(words, j))
    {
      if j / 64 == b / 64 {
        WithBitFacts(words[b / 64], b % 64, j % 64);
        assert j == b <==> j % 64 == b % 64;
      }
    }
  }

  /** A word is full exactly when its 64 bits are set. */
  lemma FullWordBits(words: seq<word>, w: nat)
    requires w < |words|
    ensures words[w] == FULL <==> forall b: nat :: 64 * w <= b < 64 * w + 64 ==> GetBit(words, b)
  {
    hide Bit;
    FullWord(words[w]);
    if words[w] == FULL {
      forall b: nat | 64 * w <= b < 64 * w + 64 ensures GetBit(words, b) {
        assert b / 64 == w && Bit(words[w], b % 64);
      }
    } else {
      var k: nat :| k < 64 && !Bit(words[w], k);
      assert (64 * w + k) / 64 == w && (64 * w + k) % 64 == k;
      assert !GetBit(words, 64 * w + k);
    }
  }

  /** Clear bits among the first `n`. */
  function CountClear(words: seq<word>, n: nat): nat {
    if n == 0 then 0 else CountClear(words, n - 1) + if GetBit(words, n - 1) then 0 else 1
  }

  lemma {:induction false} CountSame(a: seq<word>, b: seq<word>, n: nat)
    requires forall j: nat :: j < n ==> GetBit(a, j) == GetBit(b, j)
    ensures CountClear(a, n) == CountClear(b, n)
    decreases n
  {
    hide GetBit;
    if n > 0 { CountSame(a, b, n - 1); }
  }

  lemma {:induction false} CountOne(a: seq<word>, b: seq<word>, n: nat, x: nat)
    requires x < n && !GetBit(a, x) && GetBit(b, x)
    requires forall j: nat :: j < n && j != x ==> GetBit(a, j) == GetBit(b, j)
    ensures CountClear(a, n) == CountClear(b, n) + 1
    decreases n
  {
    hide GetBit;
    if x == n - 1 { CountSame(a, b, n - 1); } else { CountOne(a, b, n - 1, x); }
  }

  /** Blocks start .. start+count-1 are all clear. */
  ghost predicate RunClear(words: seq<word>, start: nat, count: nat) {
    forall j: nat :: start <= j < start + count ==> !GetBit(words, j)
  }

  function SetRun(words: seq<word>, start: nat, count: nat): (r: seq<word>)
    requires start + count <= 64 * |words|
    ensures |r| == |words|
  {
    if count == 0 then words else SetBit(SetRun(words, start, count - 1), start + count - 1)
  }

  lemma {:induction false} SetRunFacts(words: seq<word>, start: nat, count: nat)
    requires start + count <= 64 * |words|
    ensures forall j: nat :: GetBit(SetRun(words, start, count), j) == (start <= j < start + count || GetBit(words, j))
    decreases count
  {
    hide GetBit, SetBit;
    if count > 0 {
      SetRunFacts(words, start, count - 1);
      SetBitFacts(SetRun(words, start, count - 1), start + count - 1);
    }
  }

  lemma {:induction false} RunCounts(words: seq<word>, start: nat, count: nat, n: nat)
    requires RunClear(words, start, count) && start + count <= n
    ensures CountClear(words, n) >= count
    decreases n
  {
    hide GetBit;
    if count > 0 {
      if start + count == n {
        RunCounts(words, start, count - 1, n - 1);
      } else {
        RunCounts(words, start, count, n - 1);
      }
    }
  }

  lemma {:induction false} SomeClear(words: seq<word>, n: nat)
    ensures CountClear(words, n) > 0 <==> exists b: nat :: b < n && !GetBit(words, b)
    decreases n
  {
    hide GetBit;
    if n > 0 {
      SomeClear(words, n - 1);
      if CountClear(words, n) > 0 {
        if GetBit(words, n - 1) {
          var b: nat :| b < n - 1 && !GetBit(words, b);
        } else {
          assert !GetBit(words, n - 1);
        }
      } else {
        assert CountClear(words, n - 1) == 0;
      }
    }
  }
}
