/** The lexer as it runs: a scan over the text that pushes tokens into an array which
    doubles inside the arena when it is nearly full. */
module LexerRun {
  import opened Words
  import opened Options
  import opened Arena
  import opened Lexing

  const TOKEN_SIZE: nat := 16
  const FIRST_CAP: nat := 128

  /** A token record: four integers. */
  function EncodeToken(t: Lexeme): (s: seq<byte>)
    ensures |s| == TOKEN_SIZE
  {
    Bytes32(ToU32(t.kind)) + Bytes32(ToU32(t.ind)) + Bytes32(ToU32(t.len)) + Bytes32(ToU32(t.line))
  }

  function DecodeToken(s: seq<byte>): Lexeme
    requires |s| == TOKEN_SIZE
  {
    Lexeme(Read32(s[..4]), Read32(s[4..8]), Read32(s[8..12]), Read32(s[12..]))
  }

  function EncodeAll(ts: seq<Lexeme>): (s: seq<byte>)
    ensures |s| == TOKEN_SIZE * |ts|
  {
    if ts == [] then [] else EncodeAll(ts[..|ts| - 1]) + EncodeToken(ts[|ts| - 1])
  }

  predicate Fits(t: Lexeme) {
    t.kind < TWO32 && t.ind < TWO32 && t.len < TWO32 && t.line < TWO32
  }

  lemma DecodeEncode(t: Lexeme)
    requires Fits(t)
    ensures DecodeToken(EncodeToken(t)) == t
  {
    hide Bytes32, Read32;
    var s := EncodeToken(t);
    assert s[..4] == Bytes32(t.kind) && s[4..8] == Bytes32(t.ind) && s[8..12] == Bytes32(t.len) && s[12..] == Bytes32(t.line);
    Read32Bytes32(t.kind);
    Read32Bytes32(t.ind);
    Read32Bytes32(t.len);
    Read32Bytes32(t.line);
  }

  /** Every token can be read back at its place in the array. */
  lemma {:induction false} TokenReadBack(ts: seq<Lexeme>, i: nat)
    requires i < |ts| && Fits(ts[i])
    ensures DecodeToken(EncodeAll(ts)[TOKEN_SIZE * i..TOKEN_SIZE * i + TOKEN_SIZE]) == ts[i]
    decreases |ts|
  {
    hide EncodeToken, DecodeToken;
    var front := ts[..|ts| - 1];
    if i == |ts| - 1 {
      DecodeEncode(ts[i]);
      assert EncodeAll(ts)[TOKEN_SIZE * i..TOKEN_SIZE * i + TOKEN_SIZE] == EncodeToken(ts[i]);
    } else {
      TokenReadBack(front, i);
      assert EncodeAll(ts)[TOKEN_SIZE * i..TOKEN_SIZE * i + TOKEN_SIZE] == EncodeAll(front)[TOKEN_SIZE * i..TOKEN_SIZE * i + TOKEN_SIZE];
    }
  }

  /** The tokens so far in front of the rest. */
  function AfterTokens(done: seq<Lexeme>, rest: Option<seq<Lexeme>>): Option<seq<Lexeme>> {
    if rest.None? then None else Some(done + rest.value)
  }

  // ----- single steps -----

  lemma LexBlank(code: string, p: nat, line: nat)
    requires p < |code| && IsBlank(code[p])
    ensures LexFrom(code, p, line) == LexFrom(code, p + 1, if code[p] == '\n' then line + 1 else line)
  {
  }

  lemma LexComment(code: string, p: nat, line: nat)
    requires p < |code| && CommentAt(code, p) && !IsBlank(code[p])
    ensures p + 2 <= |code| && LexFrom(code, p, line) == LexFrom(code, LineEnd(code, p + 2), line)
  {
  }

  lemma LexToken(code: string, p: nat, line: nat)
    requires p < |code| && !CommentAt(code, p) && !IsBlank(code[p]) && LexFrom(code, p, line).Some?
    ensures var l := FindLen(code, p);
            && p + l <= |code|
            && LexFrom(code, p, line) == AfterTokens([Lexeme(KindOf(code, p, l), p, l, line)], LexFrom(code, p + l, line))
  {
    hide FindLen, KindOf;
  }

  lemma AfterTwice(done: seq<Lexeme>, t: Lexeme, rest: Option<seq<Lexeme>>)
    ensures AfterTokens(done, AfterTokens([t], rest)) == AfterTokens(done + [t], rest)
  {
    if rest.Some? { assert done + ([t] + rest.value) == done + [t] + rest.value; }
  }

  /** Length of the token at `i`, found by scanning. */
  method FindLength(code: string, i: nat) returns (l: nat)
    requires i < |code|
    ensures l == FindLen(code, i)
  {
    var c := code[i];
    if IsPair(c, CharAt(code, i + 1)) { return 2; }
    if c in "(){};" { return 1; }
    if c == '"' || c == '\'' {
      l := 1;
      while i + l < |code| && code[i + l] != c
        invariant l >= 1 && QuotedLen(code, i, c, 1) == QuotedLen(code, i, c, l)
        decreases |code| - i - l
      {
        l := l + 1;
      }
      return l + 1;
    }
    if IsDigit(c) {
      l := 0;
      while IsDigit(CharAt(code, i + l))
        invariant i + l <= |code| && DigitsLen(code, i) == l + DigitsLen(code, i + l)
        decreases |code| - i - l
      {
        l := l + 1;
      }
      return;
    }
    if IsAlpha(c) || c == '_' {
      l := 0;
      while IsWord(CharAt(code, i + l))
        invariant i + l <= |code| && WordLen(code, i) == l + WordLen(code, i + l)
        decreases |code| - i - l
      {
        l := l + 1;
      }
      return;
    }
    l := 1;
  }

  /** An integer stored little-endian at `a`. */
  function PutInt(mem: seq<byte>, a: nat, v: nat): (r: seq<byte>)
    requires a + 4 <= |mem|
    ensures |r| == |mem|
  {
    mem[..a] + Bytes32(ToU32(v)) + mem[a + 4..]
  }

  lemma PutNext(mem: seq<byte>, a: nat, front: seq<byte>, v: nat)
    requires a + |front| + 4 <= |mem|
    ensures PutInt(mem[..a] + front + mem[a + |front|..], a + |front|, v)
         == mem[..a] + (front + Bytes32(ToU32(v))) + mem[a + |front| + 4..]
  {
    hide Bytes32;
  }

  lemma FourInts(mem: seq<byte>, a: nat, t: Lexeme)
    requires a + TOKEN_SIZE <= |mem|
    ensures PutInt(PutInt(PutInt(PutInt(mem, a, t.kind), a + 4, t.ind), a + 8, t.len), a + 12, t.line)
         == mem[..a] + EncodeToken(t) + mem[a + TOKEN_SIZE..]
  {
    hide Bytes32;
    var f := Bytes32(ToU32(t.kind));
    PutNext(mem, a, f, t.ind);
    PutNext(mem, a, f + Bytes32(ToU32(t.ind)), t.len);
    PutNext(mem, a, f + Bytes32(ToU32(t.ind)) + Bytes32(ToU32(t.len)), t.line);
  }

  /** A record stored behind the tokens of an array appends a token. */
  lemma TokenAppended(mem: seq<byte>, mem': seq<byte>, base: nat, a: nat, ts: seq<Lexeme>, t: Lexeme)
    requires base <= a && a + TOKEN_SIZE <= |mem| && a == base + TOKEN_SIZE * |ts| && mem[base..a] == EncodeAll(ts)
    requires mem' == mem[..a] + EncodeToken(t) + mem[a + TOKEN_SIZE..]
    ensures mem'[base..base + TOKEN_SIZE * (|ts| + 1)] == EncodeAll(ts + [t]) && mem'[..base] == mem[..base]
  {
    hide EncodeToken, EncodeAll;
    EncodeAppend(ts, t);
    Spliced(mem, mem', base, a, EncodeToken(t));
  }

  lemma Spliced(mem: seq<byte>, mem': seq<byte>, base: nat, a: nat, s: seq<byte>)
    requires base <= a && a + |s| <= |mem| && mem' == mem[..a] + s + mem[a + |s|..]
    ensures mem'[base..a + |s|] == mem[base..a] + s && mem'[..base] == mem[..base]
  {
  }

  lemma SameFront(m: seq<byte>, a: nat, n: seq<byte>, b: nat, len: nat, used: nat)
    requires used <= len && a + len <= |m| && b + len <= |n| && m[a..a + len] == n[b..b + len]
    ensures m[a..a + used] == n[b..b + used]
  {
    assert m[a..a + used] == m[a..a + len][..used];
    assert n[b..b + used] == n[b..b + len][..used];
  }

  lemma EncodeAppend(ts: seq<Lexeme>, t: Lexeme)
    ensures EncodeAll(ts + [t]) == EncodeAll(ts) + EncodeToken(t)
  {
    hide EncodeToken;
    assert (ts + [t])[..|ts|] == ts;
  }

  /** Too little room for `n` tokens and the next doubling from `base` on. */
  predicate Crowded(base: nat, n: nat) {
    base + 4 * TOKEN_SIZE * (n + 1) > ARENA_SIZE + TOKEN_SIZE * FIRST_CAP
  }

  class Lexer {
    const heap: CompilerArena
    var tokens: nat
    var tp: nat
    var cap: nat
    ghost var pushed: seq<Lexeme>

    /** The array holds exactly the tokens pushed, inside its block of the arena. */
    ghost predicate Stored()
      reads this, heap, heap.arena
    {
      && heap.Valid() && tokens + TOKEN_SIZE * cap <= heap.offset && tp == |pushed| <= cap
      && heap.arena[tokens..tokens + TOKEN_SIZE * tp] == EncodeAll(pushed)
    }

    /** There is room for one more token and the one after it. */
    ghost predicate Valid()
      reads this, heap, heap.arena
    {
      Stored() && tp + 1 < cap
    }

    /** Blocks of 128, 256, ... slots lie in the arena from `base` on. */
    ghost predicate Doubled(base: nat)
      reads this, heap
    {
      heap.offset == base + TOKEN_SIZE * (2 * cap - FIRST_CAP)
    }

    constructor (heap: CompilerArena)
      ensures this.heap == heap
    {
      this.heap := heap;
      tokens, tp, cap, pushed := 0, 0, 0, [];
    }

    method WriteInt(a: nat, v: nat)
      requires heap.Valid() && a + 4 <= ARENA_SIZE
      modifies heap.arena
      ensures heap.arena[..] == PutInt(old(heap.arena[..]), a, v)
    {
      var s := Bytes32(ToU32(v));
      heap.arena[a], heap.arena[a + 1], heap.arena[a + 2], heap.arena[a + 3] := s[0], s[1], s[2], s[3];
    }

    method WriteToken(t: Lexeme)
      requires Stored() && tp < cap
      modifies heap.arena
      ensures heap.arena[tokens..tokens + TOKEN_SIZE * (tp + 1)] == EncodeAll(pushed + [t])
      ensures heap.arena[..tokens] == old(heap.arena[..tokens])
    {
      hide EncodeToken, EncodeAll, PutInt, Bytes32;
      var a := tokens + TOKEN_SIZE * tp;
      ghost var before := heap.arena[..];
      StoredBytes();
      WriteInt(a, t.kind);
      WriteInt(a + 4, t.ind);
      WriteInt(a + 8, t.len);
      WriteInt(a + 12, t.line);
      FourInts(before, a, t);
      TokenAppended(before, heap.arena[..], tokens, a, pushed, t);
    }

    lemma StoredBytes()
      requires Stored() && tp < cap
      ensures heap.Valid() && heap.arena.Length == ARENA_SIZE && tokens + TOKEN_SIZE * tp + TOKEN_SIZE <= ARENA_SIZE
      ensures heap.arena[..][tokens..tokens + TOKEN_SIZE * tp] == EncodeAll(pushed) && tp == |pushed|
    {
    }

    /** The array doubles before its last slot is used; false when the arena cannot
        hold the larger one. */
    method PushToken(t: Lexeme) returns (ok: bool)
      requires Valid()
      modifies this, heap, heap.arena
      ensures pushed == old(pushed) + [t] && heap.Valid()
      ensures ok ==> Valid()
      ensures ok <==> |pushed| + 1 < old(cap) || old(heap.offset) + TOKEN_SIZE * 2 * old(cap) <= ARENA_SIZE
      ensures forall base: nat :: old(Doubled(base)) ==> if ok then Doubled(base) else Crowded(base, |pushed|)
    {
      hide EncodeAll, EncodeToken;
      WriteToken(t);
      pushed := pushed + [t];
      tp := tp + 1;
      ok := true;
      if tp + 1 >= cap { ok := Grow(); }
    }

    method Grow() returns (ok: bool)
      requires Stored() && tp + 1 == cap
      modifies this, heap, heap.arena
      ensures pushed == old(pushed) && heap.Valid() && cap == 2 * old(cap)
      ensures ok ==> Valid() && heap.offset == old(heap.offset) + TOKEN_SIZE * cap
      ensures !ok ==> old(heap.offset) + TOKEN_SIZE * cap > ARENA_SIZE && heap.offset == old(heap.offset)
    {
      hide EncodeAll, Calloc, Copied;
      ghost var h, len := heap.State(), TOKEN_SIZE * cap;
      ReallocKeeps(h, tokens, len, 2 * len);
      cap := cap * 2;
      var q := heap.CompRealloc(Some(tokens), TOKEN_SIZE * cap);
      AlignedExact(TOKEN_SIZE * cap);
      if q.None? { return false; }
      ghost var oldTokens, used := tokens, TOKEN_SIZE * tp;
      tokens := q.value;
      ok := true;
      SameFront(heap.State().mem, tokens, h.mem, oldTokens, len, used);
    }

    /** The token at `p` is pushed; the scan goes on behind it. */
    method NextToken(code: string, p: nat, line: nat) returns (ok: bool, q: nat)
      requires Valid() && p < |code| && !CommentAt(code, p) && !IsBlank(code[p]) && LexFrom(code, p, line).Some?
      modifies this, heap, heap.arena
      ensures p < q <= |code| && (ok ==> Valid()) && pushed != [] && pushed[..|pushed| - 1] == old(pushed)
      ensures forall base: nat :: old(Doubled(base)) ==> if ok then Doubled(base) else Crowded(base, |pushed|)
      ensures AfterTokens(pushed, LexFrom(code, q, line)) == AfterTokens(old(pushed), LexFrom(code, p, line))
    {
      hide LexFrom, EncodeAll, FindLen, KindOf, Stored, CommentAt, IsBlank;
      LexToken(code, p, line);
      var l := FindLength(code, p);
      var t := Lexeme(KindOf(code, p, l), p, l, line);
      AfterTwice(pushed, t, LexFrom(code, p + l, line));
      ok := PushToken(t);
      q := p + l;
    }

    /** An empty array of 128 slots. */
    method Start() returns (ok: bool)
      requires heap.Valid()
      modifies this, heap, heap.arena
      ensures ok == (old(heap.offset) + TOKEN_SIZE * FIRST_CAP <= ARENA_SIZE)
      ensures ok ==> Valid() && pushed == [] && cap == FIRST_CAP && heap.offset == old(heap.offset) + TOKEN_SIZE * FIRST_CAP
    {
      hide EncodeAll;
      AlignedExact(TOKEN_SIZE * FIRST_CAP);
      var first := heap.CompCalloc(TOKEN_SIZE * FIRST_CAP);
      if first.None? { return false; }
      tokens, tp, cap, pushed := first.value, 0, FIRST_CAP, [];
      NoTokens();
      ok := true;
    }

    /** Cuts the whole text into tokens. */
    method InitLexer(code: string) returns (ok: bool)
      requires heap.Valid() && Lex(code).Some?
      modifies this, heap, heap.arena
      ensures ok ==> Valid() && Some(pushed) == Lex(code)
      ensures old(heap.offset) + TOKEN_SIZE * FIRST_CAP <= ARENA_SIZE && !Crowded(old(heap.offset), |Lex(code).value|) ==> ok
    {
      hide LexFrom, EncodeAll, FindLen, KindOf, Stored;
      ghost var base := heap.offset;
      ok := Start();
      if !ok { return; }
      var p, line := 0, 1;
      if LexFrom(code, p, line).Some? { assert [] + LexFrom(code, p, line).value == LexFrom(code, p, line).value; }
      while p < |code|
        modifies this, heap, heap.arena
        invariant p <= |code| && Valid() && Doubled(base)
        invariant Lex(code) == AfterTokens(pushed, LexFrom(code, p, line))
        decreases |code| - p
      {
        if IsBlank(code[p]) {
          LexBlank(code, p, line);
          if code[p] == '\n' { line := line + 1; }
          p := p + 1;
        } else if CommentAt(code, p) {
          LexComment(code, p, line);
          p := EndOfLine(code, p + 2);
        } else {
          ok, p := NextToken(code, p, line);
          if !ok { return; }
        }
      }
      LexEnd(code, line);
      ok := PushToken(Lexeme(T_EOF, p, 1, line));
    }
  }

  method EndOfLine(code: string, p: nat) returns (e: nat)
    requires p <= |code|
    ensures e == LineEnd(code, p)
  {
    e := p;
    while e < |code| && code[e] != '\n'
      invariant p <= e <= |code| && LineEnd(code, p) == LineEnd(code, e)
    {
      e := e + 1;
    }
  }

  lemma AlignedExact(n: nat)
    requires n % 16 == 0
    ensures Aligned(n) == n
  {
  }

  lemma NoTokens()
    ensures EncodeAll([]) == []
  {
  }

  lemma LexEnd(code: string, line: nat)
    ensures LexFrom(code, |code|, line) == Some([Lexeme(T_EOF, |code|, 1, line)])
  {
  }
}
