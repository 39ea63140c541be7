/** From source text to tokens: blanks and comments are skipped, everything else is
    cut into tokens by maximal munch. */
module Lexing {
  import opened Options

  datatype Lexeme = Lexeme(kind: nat, ind: nat, len: nat, line: nat)

  const T_EOF: nat := 0
  const T_IDENTIFIER: nat := 256
  const T_INT: nat := 257
  const T_CHAR: nat := 260
  const T_LEQ: nat := 263
  const T_NEQ: nat := 264
  const T_GEQ: nat := 265
  const T_EQ: nat := 266
  const T_ARROW: nat := 267
  const T_INC: nat := 268
  const T_DEC: nat := 269
  const K_IF: nat := 270
  const K_INT: nat := 272
  const K_FOR: nat := 273
  const K_VOID: nat := 274
  const K_CHAR: nat := 275
  const K_ELSE: nat := 276
  const K_WHILE: nat := 281
  const K_RETURN: nat := 286

  /** Plain ASCII without terminator. */
  predicate IsSource(code: string) {
    forall i :: 0 <= i < |code| ==> 0 < code[i] as int < 128
  }

  /** The character at `i`; the text is followed by its terminator. */
  function CharAt(code: string, i: nat): char {
    if i < |code| then code[i] else '\0'
  }

  predicate IsDigit(c: char) {
    '0' <= c <= '9'
  }

  predicate IsAlpha(c: char) {
    'a' <= c <= 'z' || 'A' <= c <= 'Z'
  }

  predicate IsWord(c: char) {
    IsAlpha(c) || IsDigit(c) || c == '_'
  }

  predicate IsBlank(c: char) {
    c == ' ' || c == '\t' || c == '\r' || c == '\n'
  }

  // ----- blanks and comments -----

  predicate CommentAt(code: string, p: nat) {
    CharAt(code, p) == '/' && CharAt(code, p + 1) == '/'
  }

  /** End of the line of `p`: its newline or the end of the text. */
  function LineEnd(code: string, p: nat): (e: nat)
    requires p <= |code|
    ensures p <= e <= |code| && (e < |code| ==> code[e] == '\n')
    ensures forall i :: p <= i < e ==> code[i] != '\n'
    decreases |code| - p
  {
    if p == |code| || code[p] == '\n' then p else LineEnd(code, p + 1)
  }

  /** Where the next token begins, and its line. */
  function Skip(code: string, p: nat, line: nat): (r: (nat, nat))
    requires p <= |code|
    ensures p <= r.0 <= |code|
    decreases |code| - p
  {
    if p == |code| then (p, line)
    else if code[p] == '\n' then Skip(code, p + 1, line + 1)
    else if IsBlank(code[p]) then Skip(code, p + 1, line)
    else if CommentAt(code, p) then Skip(code, LineEnd(code, p + 2), line)
    else (p, line)
  }

  /** Nothing but blanks and whole comments between `a` and `b`. */
  predicate Gap(code: string, a: nat, b: nat)
    decreases b - a
  {
    a <= b <= |code| &&
    (a == b
     || (IsBlank(code[a]) && Gap(code, a + 1, b))
     || (a + 2 <= b && CommentAt(code, a) && LineEnd(code, a + 2) <= b && Gap(code, LineEnd(code, a + 2), b)))
  }

  lemma {:induction false} SkipIsGap(code: string, p: nat, line: nat)
    requires p <= |code|
    ensures var q := Skip(code, p, line).0;
            Gap(code, p, q) && (q < |code| ==> !IsBlank(code[q]) && !CommentAt(code, q))
    decreases |code| - p
  {
    if p < |code| {
      if code[p] == '\n' {
        SkipIsGap(code, p + 1, line + 1);
      } else if IsBlank(code[p]) {
        SkipIsGap(code, p + 1, line);
      } else if CommentAt(code, p) {
        SkipIsGap(code, LineEnd(code, p + 2), line);
      }
    }
  }

  // ----- token lengths -----

  /** Length of the quoted token that began with `quote`; `l` characters seen. */
  function QuotedLen(code: string, i: nat, quote: char, l: nat): (r: nat)
    requires i < |code| && l >= 1
    ensures r > l
    decreases |code| - i - l
  {
    if i + l >= |code| || code[i + l] == quote then l + 1 else QuotedLen(code, i, quote, l + 1)
  }

  function DigitsLen(code: string, i: nat): (l: nat)
    requires i <= |code|
    ensures i + l <= |code| && forall k :: i <= k < i + l ==> IsDigit(code[k])
    ensures !IsDigit(CharAt(code, i + l))
    decreases |code| - i
  {
    if IsDigit(CharAt(code, i)) then 1 + DigitsLen(code, i + 1) else 0
  }

  function WordLen(code: string, i: nat): (l: nat)
    requires i <= |code|
    ensures i + l <= |code| && forall k :: i <= k < i + l ==> IsWord(code[k])
    ensures !IsWord(CharAt(code, i + l))
    decreases |code| - i
  {
    if IsWord(CharAt(code, i)) then 1 + WordLen(code, i + 1) else 0
  }

  predicate IsPair(c: char, d: char) {
    || (c == '-' && d == '>')
    || (c in "<>=!+-" && d == '=')
    || (c == '+' && d == '+') || (c == '-' && d == '-') || (c == '>' && d == '>') || (c == '<' && d == '<')
  }

  function FindLen(code: string, i: nat): (l: nat)
    requires i < |code|
    ensures l >= 1
  {
    var c := code[i];
    if IsPair(c, CharAt(code, i + 1)) then 2
    else if c in "(){};" then 1
    else if c == '"' || c == '\'' then QuotedLen(code, i, c, 1)
    else if IsDigit(c) then DigitsLen(code, i)
    else if IsAlpha(c) || c == '_' then WordLen(code, i)
    else 1
  }

  // ----- token kinds -----

  function Keyword(s: string): nat {
    if s == "if" then K_IF
    else if s == "do" then 271
    else if s == "int" then K_INT
    else if s == "for" then K_FOR
    else if s == "void" then K_VOID
    else if s == "char" then K_CHAR
    else if s == "else" then K_ELSE
    else if s == "case" then 277
    else if s == "goto" then 278
    else if s == "long" then 279
    else if s == "auto" then 280
    else if s == "while" then K_WHILE
    else if s == "break" then 282
    else if s == "continue" then 283
    else if s == "short" then 284
    else if s == "const" then 285
    else if s == "return" then K_RETURN
    else if s == "extern" then 287
    else if s == "static" then 288
    else if s == "struct" then 289
    else if s == "switch" then 290
    else if s == "signed" then 291
    else if s == "default" then 292
    else if s == "typedef" then 293
    else if s == "volatile" then 295
    else if s == "unsigned" then 294
    else if s == "register" then 296
    else T_IDENTIFIER
  }

  /** The keywords the parser knows have codes of their own. */
  lemma KeywordCodes(s: string)
    ensures Keyword(s) >= 256
    ensures (Keyword(s) == K_IF <==> s == "if") && (Keyword(s) == K_ELSE <==> s == "else")
    ensures (Keyword(s) == K_WHILE <==> s == "while") && (Keyword(s) == K_FOR <==> s == "for")
    ensures (Keyword(s) == K_RETURN <==> s == "return") && (Keyword(s) == K_INT <==> s == "int")
    ensures (Keyword(s) == K_VOID <==> s == "void") && (Keyword(s) == K_CHAR <==> s == "char")
  {
  }

  lemma KeywordGap(s: string)
    ensures Keyword(s) == T_IDENTIFIER || Keyword(s) >= 270
  {
  }

  function KindOf(code: string, p: nat, l: nat): nat
    requires p < |code|
  {
    var c, d := code[p], CharAt(code, p + 1);
    if c == '+' && d == '+' then T_INC
    else if c == '-' && d == '-' then T_DEC
    else if c == '-' && d == '>' then T_ARROW
    else if IsDigit(c) then T_INT
    else if c == '<' && d == '=' then T_LEQ
    else if c == '>' && d == '=' then T_GEQ
    else if c == '=' && d == '=' then T_EQ
    else if c == '!' && d == '=' then T_NEQ
    else if (IsAlpha(c) || c == '_') && p + l <= |code| then Keyword(code[p..p + l])
    else if c == '\'' then T_CHAR
    else c as nat
  }

  // ----- the token list -----

  /** Tokens from `p` on; None when an unclosed quote makes the scan run past the
      end of the text. */
  function LexFrom(code: string, p: nat, line: nat): Option<seq<Lexeme>>
    requires p <= |code|
    decreases |code| - p
  {
    var (q, n) := Skip(code, p, line);
    if q == |code| then Some([Lexeme(T_EOF, q, 1, n)])
    else
      var l := FindLen(code, q);
      if q + l > |code| then None
      else
        var rest := LexFrom(code, q + l, n);
        if rest.None? then None else Some([Lexeme(KindOf(code, q, l), q, l, n)] + rest.value)
  }

  function Lex(code: string): Option<seq<Lexeme>> {
    LexFrom(code, 0, 1)
  }

  /** Tokens in order, apart, with nothing but blanks and comments before each one,
      the last an end marker behind the text and no other end marker. */
  ghost predicate Tiles(code: string, ts: seq<Lexeme>, from: nat)
    decreases |ts|
  {
    && ts != [] && Gap(code, from, ts[0].ind)
    && (if |ts| == 1 then ts[0].kind == T_EOF && ts[0].ind == |code|
        else ts[0].kind != T_EOF && ts[0].len > 0 && ts[0].ind + ts[0].len <= |code| && Whole(code, ts[0])
             && Tiles(code, ts[1..], ts[0].ind + ts[0].len))
  }

  /** Words and numbers are taken as far as they go; a token starts with no blank. */
  predicate Whole(code: string, t: Lexeme)
    requires t.len > 0 && t.ind + t.len <= |code|
  {
    var c, after := code[t.ind], CharAt(code, t.ind + t.len);
    && !IsBlank(c)
    && (IsDigit(c) ==> t.kind == T_INT && !IsDigit(after) && forall k :: t.ind <= k < t.ind + t.len ==> IsDigit(code[k]))
    && (IsAlpha(c) || c == '_' ==>
          t.kind == Keyword(code[t.ind..t.ind + t.len]) && !IsWord(after) && forall k :: t.ind <= k < t.ind + t.len ==> IsWord(code[k]))
    && (c == '"' || c == '\'' ==> t.len >= 2 && code[t.ind + t.len - 1] == c
                                  && forall k :: t.ind < k < t.ind + t.len - 1 ==> code[k] != c)
  }

  lemma {:induction false} QuotedCloses(code: string, i: nat, l: nat)
    requires i < |code| && l >= 1 && forall k :: i < k < i + l && k < |code| ==> code[k] != code[i]
    ensures var r := QuotedLen(code, i, code[i], l);
            i + r <= |code| ==> r >= 2 && code[i + r - 1] == code[i] && forall k :: i < k < i + r - 1 ==> code[k] != code[i]
    decreases |code| - i - l
  {
    if i + l < |code| && code[i + l] != code[i] { QuotedCloses(code, i, l + 1); }
  }

  lemma KeywordKind(s: string)
    ensures Keyword(s) != T_EOF
  {
  }

  lemma TokenWhole(code: string, q: nat, line: nat)
    requires IsSource(code) && q < |code| && !IsBlank(code[q]) && q + FindLen(code, q) <= |code|
    ensures var l := FindLen(code, q); var t := Lexeme(KindOf(code, q, l), q, l, line);
            t.kind != T_EOF && Whole(code, t)
  {
    hide DigitsLen, WordLen, QuotedLen, Keyword, CharAt;
    var c, l := code[q], FindLen(code, q);
    QuotedCloses(code, q, 1);
    KeywordKind(code[q..q + l]);
    if IsAlpha(c) || c == '_' {
      assert l == WordLen(code, q) && KindOf(code, q, l) == Keyword(code[q..q + l]);
    } else if IsDigit(c) {
      assert l == DigitsLen(code, q) && KindOf(code, q, l) == T_INT;
    }
  }

  /** For every source whose quotes are closed the tokens cover the text: they are
      disjoint and in order, and only blanks and comments lie between them. */
  lemma {:induction false} LexTiles(code: string, p: nat, line: nat)
    requires IsSource(code) && p <= |code| && LexFrom(code, p, line).Some?
    ensures Tiles(code, LexFrom(code, p, line).value, p)
    decreases |code| - p
  {
    hide Skip, Gap, FindLen, KindOf, Whole;
    SkipIsGap(code, p, line);
    var (q, n) := Skip(code, p, line);
    if q < |code| {
      var l := FindLen(code, q);
      TokenWhole(code, q, n);
      LexTiles(code, q + l, n);
      var ts := LexFrom(code, p, line).value;
      assert ts[1..] == LexFrom(code, q + l, n).value;
    }
  }

  /** Tokens never overlap and never go back. */
  lemma {:induction false} TilesOrdered(code: string, ts: seq<Lexeme>, from: nat, i: nat, j: nat)
    requires Tiles(code, ts, from) && i < j < |ts|
    ensures from <= ts[i].ind && ts[i].ind + ts[i].len <= ts[j].ind <= |code|
    decreases |ts|
  {
    hide Whole;
    GapOrder(code, from, ts[0].ind);
    var rest := ts[1..];
    if i > 0 {
      TilesOrdered(code, rest, ts[0].ind + ts[0].len, i - 1, j - 1);
    } else {
      GapOrder(code, ts[0].ind + ts[0].len, rest[0].ind);
      if j > 1 { TilesOrdered(code, rest, ts[0].ind + ts[0].len, 0, j - 1); }
      if j == 1 && |rest| > 1 { assert rest[0].ind + rest[0].len <= |code|; }
    }
  }

  lemma GapOrder(code: string, a: nat, b: nat)
    requires Gap(code, a, b)
    ensures a <= b <= |code|
  {
  }
}
