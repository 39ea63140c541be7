/** From lexemes to the tokens the parser matches on: their kind alone decides. */
module FrontEnd {
  import opened Options
  import opened Lexing
  import Ast
  import Parser

  function Spelling(code: string, t: Lexeme): string {
    if t.ind + t.len <= |code| then code[t.ind..t.ind + t.len] else ""
  }

  /** None for kinds the parser model leaves out. */
  function ToToken(code: string, t: Lexeme): Option<Parser.Token> {
    var s := Spelling(code, t);
    if t.kind == T_EOF then Some(Parser.Eof)
    else if t.kind == T_IDENTIFIER then Some(Parser.Ident(s))
    else if t.kind == T_INT then Some(Parser.Number(s))
    else if t.kind == T_CHAR then Some(Parser.CharTok(s))
    else if t.kind == '"' as nat then Some(Parser.StrTok(s))
    else if t.kind == '+' as nat then Some(Parser.OpTok(Ast.Add))
    else if t.kind == '-' as nat then Some(Parser.OpTok(Ast.Sub))
    else if t.kind == '*' as nat then Some(Parser.OpTok(Ast.Mul))
    else if t.kind == '/' as nat then Some(Parser.OpTok(Ast.Div))
    else if t.kind == '%' as nat then Some(Parser.OpTok(Ast.Mod))
    else if t.kind == '<' as nat then Some(Parser.OpTok(Ast.Lt))
    else if t.kind == '>' as nat then Some(Parser.OpTok(Ast.Gt))
    else if t.kind == T_LEQ then Some(Parser.OpTok(Ast.Leq))
    else if t.kind == T_GEQ then Some(Parser.OpTok(Ast.Geq))
    else if t.kind == T_EQ then Some(Parser.OpTok(Ast.Eq))
    else if t.kind == T_NEQ then Some(Parser.OpTok(Ast.Neq))
    else if t.kind == '(' as nat then Some(Parser.LPar)
    else if t.kind == ')' as nat then Some(Parser.RPar)
    else if t.kind == '{' as nat then Some(Parser.LBrace)
    else if t.kind == '}' as nat then Some(Parser.RBrace)
    else if t.kind == ',' as nat then Some(Parser.Comma)
    else if t.kind == ';' as nat then Some(Parser.Semi)
    else if t.kind == '=' as nat then Some(Parser.Becomes)
    else if t.kind == K_IF then Some(Parser.KIf)
    else if t.kind == K_ELSE then Some(Parser.KElse)
    else if t.kind == K_WHILE then Some(Parser.KWhile)
    else if t.kind == K_FOR then Some(Parser.KFor)
    else if t.kind == K_RETURN then Some(Parser.KReturn)
    else if t.kind == K_INT || t.kind == K_CHAR || t.kind == K_VOID then Some(Parser.Type(s))
    else None
  }

  lemma OnlyEndIsEof(code: string, t: Lexeme)
    ensures ToToken(code, t) == Some(Parser.Eof) <==> t.kind == T_EOF
  {
  }

  /** The only tokens longer than what the parser takes them for: += -= << >>. */
  predicate Compound(s: string) {
    s == "+=" || s == "-=" || s == "<<" || s == ">>"
  }

  /** What it means for a token that its parser text is what its characters spell. */
  predicate Spells(code: string, t: Lexeme) {
    var s, tok := Spelling(code, t), ToToken(code, t);
    tok.Some? ==> Parser.Text(tok.value) == if Compound(s) then s[..1] else s
  }

  /** A lexed token means to the parser what its characters spell. */
  lemma TokenSpells(code: string, p: nat, line: nat)
    requires IsSource(code) && p < |code| && !IsBlank(code[p]) && p + FindLen(code, p) <= |code|
    ensures Spells(code, Lexeme(KindOf(code, p, FindLen(code, p)), p, FindLen(code, p), line))
  {
    hide Spells, QuotedLen, DigitsLen, WordLen, Keyword;
    var c, l := code[p], FindLen(code, p);
    var t := Lexeme(KindOf(code, p, l), p, l, line);
    if IsAlpha(c) || c == '_' {
      WordSpells(code, t);
    } else if IsDigit(c) || c == '\'' || c == '"' {
      LiteralSpells(code, t);
    } else if l == 2 {
      PairSpells(code, t);
    } else {
      SingleSpells(code, t);
    }
  }

  lemma WordSpells(code: string, t: Lexeme)
    requires t.ind + t.len <= |code| && t.len > 0 && (IsAlpha(code[t.ind]) || code[t.ind] == '_')
    requires t.kind == Keyword(Spelling(code, t))
    ensures Spells(code, t)
  {
    hide Keyword;
    var s := Spelling(code, t);
    assert s[0] == code[t.ind];
    KeywordCodes(s);
    KeywordGap(s);
  }

  lemma LiteralSpells(code: string, t: Lexeme)
    requires t.ind + t.len <= |code| && t.len > 0
    requires var c := code[t.ind];
             (IsDigit(c) && t.kind == T_INT) || (c == '\'' && t.kind == T_CHAR) || (c == '"' && t.kind == '"' as nat)
    ensures Spells(code, t)
  {
    assert Spelling(code, t)[0] == code[t.ind];
  }

  lemma PairSpells(code: string, t: Lexeme)
    requires t.ind + 2 <= |code| && t.len == 2 && IsPair(code[t.ind], code[t.ind + 1]) && t.kind == KindOf(code, t.ind, 2)
    requires !IsAlpha(code[t.ind]) && !IsDigit(code[t.ind])
    ensures Spells(code, t)
  {
    hide Spells, KindOf;
    var s := Spelling(code, t);
    assert s == [code[t.ind], code[t.ind + 1]];
    PairKinds(code, t.ind);
    PairSpelling(code, t);
  }

  lemma PairKinds(code: string, p: nat)
    requires p + 2 <= |code| && IsPair(code[p], code[p + 1])
    ensures var s, k := [code[p], code[p + 1]], KindOf(code, p, 2);
            || (s == "<=" && k == T_LEQ) || (s == ">=" && k == T_GEQ) || (s == "==" && k == T_EQ) || (s == "!=" && k == T_NEQ)
            || k == T_INC || k == T_DEC || k == T_ARROW || (Compound(s) && k == s[0] as nat)
  {
    hide Keyword;
  }

  lemma PairSpelling(code: string, t: Lexeme)
    requires var s, k := Spelling(code, t), t.kind;
             || (s == "<=" && k == T_LEQ) || (s == ">=" && k == T_GEQ) || (s == "==" && k == T_EQ) || (s == "!=" && k == T_NEQ)
             || k == T_INC || k == T_DEC || k == T_ARROW || (Compound(s) && k == s[0] as nat)
    ensures Spells(code, t)
  {
  }

  lemma SingleSpells(code: string, t: Lexeme)
    requires IsSource(code) && t.ind < |code| && t.len == 1 && t.kind == code[t.ind] as nat
    requires !IsAlpha(code[t.ind]) && !IsDigit(code[t.ind]) && code[t.ind] != '"' && code[t.ind] != '\''
    ensures Spells(code, t)
  {
    assert Spelling(code, t) == [code[t.ind]];
  }

  function ToTokens(code: string, ts: seq<Lexeme>): Option<seq<Parser.Token>> {
    if ts == [] then Some([])
    else
      var t, rest := ToToken(code, ts[0]), ToTokens(code, ts[1..]);
      if t.None? || rest.None? then None else Some([t.value] + rest.value)
  }

  /** What the parser needs of its input: every token list the lexer cuts from a
      source ends in the one end marker it holds. */
  lemma LexedTokensEnd(code: string)
    requires IsSource(code) && Lex(code).Some? && ToTokens(code, Lex(code).value).Some?
    ensures Parser.Ended(ToTokens(code, Lex(code).value).value)
    ensures |ToTokens(code, Lex(code).value).value| == |Lex(code).value|
  {
    LexTiles(code, 0, 1);
    TilesEnd(code, Lex(code).value, 0);
  }

  lemma {:induction false} TilesEnd(code: string, ts: seq<Lexeme>, from: nat)
    requires Tiles(code, ts, from) && ToTokens(code, ts).Some?
    ensures Parser.Ended(ToTokens(code, ts).value) && |ToTokens(code, ts).value| == |ts|
    decreases |ts|
  {
    hide ToToken, Whole, Gap;
    OnlyEndIsEof(code, ts[0]);
    var r := ToTokens(code, ts).value;
    if |ts| == 1 {
      assert ToTokens(code, ts[1..]) == Some([]);
    } else {
      var rest := ToTokens(code, ts[1..]).value;
      TilesEnd(code, ts[1..], ts[0].ind + ts[0].len);
      assert r == [r[0]] + rest;
      forall i | 0 <= i < |r| - 1 ensures r[i] != Parser.Eof {
        if i > 0 { assert r[i] == rest[i - 1]; }
      }
    }
  }
}
