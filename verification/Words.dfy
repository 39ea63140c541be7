/** Machine words: bytes, 32- and 64-bit two's complement, little-endian encoding. */
module Words {
  const TWO7 := 0x80
  const TWO31 := 0x8000_0000
  const TWO32 := 0x1_0000_0000
  const TWO63 := 0x8000_0000_0000_0000
  const TWO64 := 0x1_0000_0000_0000_0000

  type byte = x: int | 0 <= x < 256
  type u32 = x: int | 0 <= x < 0x1_0000_0000
  type word = x: int | 0 <= x < 0x1_0000_0000_0000_0000

  type i32 = x: int | -0x8000_0000 <= x < 0x8000_0000

  /** The 64-bit pattern of any integer. */
  function ToWord(x: int): word {
    x % 0x1_0000_0000_0000_0000
  }

  /** The signed reading of a 64-bit pattern. */
  function Signed(w: word): int {
    if w < TWO63 then w else w - TWO64
  }

  predicate IsLong(x: int) {
    -TWO63 <= x < TWO63
  }

  predicate IsInt(x: int) {
    -TWO31 <= x < TWO31
  }

  /** Reduce to the range of a signed 64-bit long, two's complement. */
  function WrapLong(x: int): int {
    Signed(ToWord(x))
  }

  function ToU32(x: int): u32 {
    x % 0x1_0000_0000
  }

  /** The signed reading of a 32-bit pattern. */
  function SignedInt(x: u32): i32 {
    if x < TWO31 then x else x - TWO32
  }

  /** Reduce to the range of a signed 32-bit int, two's complement. */
  function WrapInt(x: int): i32 {
    SignedInt(ToU32(x))
  }

  function Abs(x: int): nat {
    if x < 0 then -x else x
  }

  function Min(a: int, b: int): int {
    if a < b then a else b
  }

  function Max(a: int, b: int): int {
    if a < b then b else a
  }

  /** Division truncating toward zero, as idiv and C divide. */
  function TruncDiv(a: int, b: int): int
    requires b != 0
  {
    if (a < 0) == (b < 0) then Abs(a) / Abs(b) else -(Abs(a) / Abs(b))
  }

  /** Little-endian bytes of a number, `n` of them. */
  function LittleEndian(v: nat, n: nat): (s: seq<byte>)
    ensures |s| == n
    decreases n
  {
    if n == 0 then [] else [v % 256] + LittleEndian(v / 256, n - 1)
  }

  function Bytes32(u: u32): (s: seq<byte>)
    ensures |s| == 4
  {
    [u % 256, u / 256 % 256, u / 65536 % 256, u / 16777216 % 256]
  }

  function Bytes64(w: word): (s: seq<byte>)
    ensures |s| == 8
  {
    Bytes32(w % TWO32) + Bytes32(w / TWO32)
  }

  function Digits(a: int, b: int, c: int, d: int): int {
    a + 256 * b + 65536 * c + 16777216 * d
  }

  /** The number stored little-endian in four bytes. */
  function Read32(s: seq<byte>): u32
    requires |s| == 4
  {
    Digits(s[0], s[1], s[2], s[3])
  }

  function Read64(s: seq<byte>): word
    requires |s| == 8
  {
    Read32(s[..4]) + TWO32 * Read32(s[4..])
  }

  lemma SignedToWord(x: int)
    requires IsLong(x)
    ensures Signed(ToWord(x)) == x
  {
  }

  lemma ToWordSigned(w: word)
    ensures IsLong(Signed(w)) && ToWord(Signed(w)) == w
  {
  }

  lemma WrapLongCongruent(x: int)
    ensures IsLong(WrapLong(x)) && ToWord(WrapLong(x)) == ToWord(x)
  {
  }

  /** Reading back what was written. */
  lemma Read32Bytes32(u: u32)
    ensures Read32(Bytes32(u)) == u
  {
    var a := u / 256;
    var b := a / 256;
    assert u / 65536 == b;
    var c := b / 256;
    assert u / 16777216 == c;
    assert u == 256 * a + u % 256;
    assert a == 256 * b + a % 256;
    assert b == 256 * c + b % 256;
  }

  /** Four bytes are exactly the encoding of the number they hold. */
  lemma Bytes32Read32(s: seq<byte>)
    requires |s| == 4
    ensures Bytes32(Read32(s)) == s
  {
    DigitsApart(s[0], s[1], s[2], s[3]);
  }

  lemma DigitsApart(x: int, y: int, z: int, t: int)
    requires 0 <= x < 256 && 0 <= y < 256 && 0 <= z < 256 && 0 <= t < 256
    ensures var u := Digits(x, y, z, t);
            u % 256 == x && u / 256 % 256 == y && u / 65536 % 256 == z && u / 16777216 % 256 == t
  {
    var u := Digits(x, y, z, t);
    var c := z + 256 * t;
    var b := y + 256 * c;
    DigitOff(x, b);
    DigitOff(y, c);
    DigitOff(z, t);
    DivTwice(u, 256);
    DivTwice(u, 65536);
  }

  lemma DigitOff(x: int, rest: int)
    requires 0 <= x < 256 && 0 <= rest
    ensures (x + 256 * rest) % 256 == x && (x + 256 * rest) / 256 == rest
  {
  }

  lemma DivTwice(u: int, k: int)
    requires 0 <= u && (k == 256 || k == 65536)
    ensures u / (k * 256) == u / k / 256
  {
  }

  lemma Read64Bytes64(w: word)
    ensures Read64(Bytes64(w)) == w
  {
    hide Read32, Bytes32;
    var s := Bytes64(w);
    assert s[..4] == Bytes32(w % TWO32);
    assert s[4..] == Bytes32(w / TWO32);
    Read32Bytes32(w % TWO32);
    Read32Bytes32(w / TWO32);
  }

  lemma Bytes64Read64(s: seq<byte>)
    requires |s| == 8
    ensures Bytes64(Read64(s)) == s
  {
    hide Read32, Bytes32;
    Bytes32Read32(s[..4]);
    Bytes32Read32(s[4..]);
    assert s == s[..4] + s[4..];
    var lo, hi := Read32(s[..4]), Read32(s[4..]);
    assert Read64(s) % TWO32 == lo;
    assert Read64(s) / TWO32 == hi;
  }
}
