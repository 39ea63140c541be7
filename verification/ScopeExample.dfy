/** A source text that uses a name after the block that declared it anew is over: the
    machine code returns the inner variable. */
module ScopeExample {
  import opened Words
  import opened Memory
  import opened Machine
  import opened Options
  import opened Ast
  import opened Layout
  import opened Codegen
  import opened Placement
  import opened Leftovers
  import opened Compiler
  import opened Lexing
  import opened FrontEnd
  import opened Lowering
  import opened Scoping
  import opened Pipeline
  import opened Patching
  import CMeaning
  import E = SourceExample
  import F = Factorial
  import P = Parser
  import Simulation

  function Source(): string {
    First() + Second() + Third()
  }

  function First(): string {
    "int f(){int x = 1;"
  }

  function Second(): string {
    "{int x = 2;}"
  }

  function Third(): string {
    "return x;}"
  }

  // ----- tokens -----

  lemma FirstChars()
    ensures var c := First();
            && |c| == 18 && IsSource(c) && c[0] == 'i' && c[1] == 'n' && c[2] == 't' && c[3] == ' ' && c[4] == 'f' && c[5] == '(' && c[6] == ')'
            && c[7] == '{' && c[8] == 'i' && c[9] == 'n' && c[10] == 't' && c[11] == ' ' && c[12] == 'x' && c[13] == ' ' && c[14] == '='
            && c[15] == ' ' && c[16] == '1' && c[17] == ';'
  {
  }

  lemma SecondChars()
    ensures var c := Second();
            && |c| == 12 && IsSource(c) && c[0] == '{' && c[1] == 'i' && c[2] == 'n' && c[3] == 't' && c[4] == ' ' && c[5] == 'x' && c[6] == ' '
            && c[7] == '=' && c[8] == ' ' && c[9] == '2' && c[10] == ';' && c[11] == '}'
  {
  }

  lemma ThirdChars()
    ensures var c := Third();
            && |c| == 10 && IsSource(c) && c[0] == 'r' && c[1] == 'e' && c[2] == 't' && c[3] == 'u' && c[4] == 'r' && c[5] == 'n' && c[6] == ' '
            && c[7] == 'x' && c[8] == ';' && c[9] == '}'
  {
  }

  lemma SourceChars()
    ensures |Source()| == 40 && IsSource(Source())
    ensures forall k :: 0 <= k < 40 ==> Source()[k] == if k < 18 then First()[k] else if k < 30 then Second()[k - 18] else Third()[k - 30]
  {
    hide First, Second, Third;
    FirstChars();
    SecondChars();
    ThirdChars();
  }

  /** The characters of the text. */
  lemma Chars()
    ensures var c := Source();
            && |c| == 40 && IsSource(c) && c[0] == 'i' && c[1] == 'n' && c[2] == 't' && c[3] == ' ' && c[4] == 'f' && c[5] == '(' && c[6] == ')'
            && c[7] == '{' && c[8] == 'i' && c[9] == 'n' && c[10] == 't' && c[11] == ' ' && c[12] == 'x' && c[13] == ' ' && c[14] == '='
            && c[15] == ' ' && c[16] == '1' && c[17] == ';'
            && c[18] == '{' && c[19] == 'i' && c[20] == 'n' && c[21] == 't' && c[22] == ' ' && c[23] == 'x' && c[24] == ' ' && c[25] == '='
            && c[26] == ' ' && c[27] == '2' && c[28] == ';' && c[29] == '}'
            && c[30] == 'r' && c[31] == 'e' && c[32] == 't' && c[33] == 'u' && c[34] == 'r' && c[35] == 'n' && c[36] == ' '
            && c[37] == 'x' && c[38] == ';' && c[39] == '}'
  {
    hide First, Second, Third, Source;
    FirstChars();
    SecondChars();
    ThirdChars();
    SourceChars();
  }

  lemma Spellings()
    ensures var c := Source();
            && |c| == 40 && c[0..3] == "int" && c[4..5] == "f" && c[8..11] == "int" && c[12..13] == "x" && c[16..17] == "1"
            && c[19..22] == "int" && c[23..24] == "x" && c[27..28] == "2" && c[30..36] == "return" && c[37..38] == "x"
  {
    hide Source;
    Chars();
  }

  /** An equals sign between spaces. */
  lemma Equals(code: string, p: nat, rest: seq<Lexeme>)
    requires p + 2 < |code| && code[p] == ' ' && code[p + 1] == '=' && code[p + 2] == ' ' && LexFrom(code, p + 2, 1) == Some(rest)
    ensures LexFrom(code, p, 1) == Some([Lexeme('=' as nat, p + 1, 1, 1)] + rest)
  {
    hide Keyword;
    E.OneToken(code, p, p + 1, 1, '=' as nat, rest);
  }

  /** " x = 1;" and the tokens behind it. */
  lemma Declarator(code: string, p: nat, rest: seq<Lexeme>)
    requires p + 7 <= |code| && code[p] == ' ' && code[p + 1] == 'x' && code[p + 2] == ' ' && code[p + 3] == '=' && code[p + 4] == ' '
    requires IsDigit(code[p + 5]) && code[p + 6] == ';' && LexFrom(code, p + 7, 1) == Some(rest)
    ensures LexFrom(code, p, 1) == Some(DeclaratorLexemes(p) + rest)
  {
    hide LexFrom, Keyword;
    E.Mark(code, p + 6, rest);
    var t3 := [Lexeme(';' as nat, p + 6, 1, 1)] + rest;
    E.Digit(code, p + 4, t3);
    var t2 := [Lexeme(T_INT, p + 5, 1, 1)] + t3;
    Equals(code, p + 2, t2);
    var t1 := [Lexeme('=' as nat, p + 3, 1, 1)] + t2;
    E.Word(code, p, p + 1, 1, t1);
    assert code[p + 1..p + 2] == "x";
    WordKinds();
    assert [Lexeme(T_IDENTIFIER, p + 1, 1, 1)] + t1 == DeclaratorLexemes(p) + rest;
  }

  function DeclaratorLexemes(p: nat): seq<Lexeme> {
    [Lexeme(T_IDENTIFIER, p + 1, 1, 1), Lexeme('=' as nat, p + 3, 1, 1), Lexeme(T_INT, p + 5, 1, 1), Lexeme(';' as nat, p + 6, 1, 1)]
  }

  function Lexed(): seq<Lexeme> {
    [Lexeme(K_INT, 0, 3, 1), Lexeme(T_IDENTIFIER, 4, 1, 1), Lexeme('(' as nat, 5, 1, 1), Lexeme(')' as nat, 6, 1, 1), Lexeme('{' as nat, 7, 1, 1),
     Lexeme(K_INT, 8, 3, 1), Lexeme(T_IDENTIFIER, 12, 1, 1), Lexeme('=' as nat, 14, 1, 1), Lexeme(T_INT, 16, 1, 1), Lexeme(';' as nat, 17, 1, 1),
     Lexeme('{' as nat, 18, 1, 1),
     Lexeme(K_INT, 19, 3, 1), Lexeme(T_IDENTIFIER, 23, 1, 1), Lexeme('=' as nat, 25, 1, 1), Lexeme(T_INT, 27, 1, 1), Lexeme(';' as nat, 28, 1, 1),
     Lexeme('}' as nat, 29, 1, 1),
     Lexeme(K_RETURN, 30, 6, 1), Lexeme(T_IDENTIFIER, 37, 1, 1), Lexeme(';' as nat, 38, 1, 1), Lexeme('}' as nat, 39, 1, 1), Lexeme(T_EOF, 40, 1, 1)]
  }

  lemma SourceLexes()
    ensures IsSource(Source()) && Lex(Source()) == Some(Lexed())
  {
    hide LexFrom, Source, Keyword;
    Chars();
    var tail := InnerLexes();
    Declarator(Source(), 11, tail);
    HeadLexes(DeclaratorLexemes(11) + tail);
    assert HeadLexemes() + (DeclaratorLexemes(11) + tail) == Lexed();
  }

  /** The inner block and what follows it. */
  lemma InnerLexes() returns (ts: seq<Lexeme>)
    ensures |Source()| == 40 && LexFrom(Source(), 18, 1) == Some(ts) && ts == Lexed()[10..]
  {
    hide LexFrom, Source, Keyword;
    var c := Source();
    Chars();
    Spellings();
    WordKinds();
    var tail := TailLexes();
    E.Mark(c, 29, tail);
    Declarator(c, 22, [Lexeme('}' as nat, 29, 1, 1)] + tail);
    var t1 := DeclaratorLexemes(22) + ([Lexeme('}' as nat, 29, 1, 1)] + tail);
    E.Word(c, 19, 19, 3, t1);
    E.Mark(c, 18, [Lexeme(K_INT, 19, 3, 1)] + t1);
    ts := [Lexeme('{' as nat, 18, 1, 1)] + ([Lexeme(K_INT, 19, 3, 1)] + t1);
  }

  lemma WordKinds()
    ensures Keyword("int") == K_INT && Keyword("f") == T_IDENTIFIER && Keyword("x") == T_IDENTIFIER && Keyword("return") == K_RETURN
  {
    KeywordCodes("int");
    KeywordCodes("return");
  }

  function HeadLexemes(): seq<Lexeme> {
    [Lexeme(K_INT, 0, 3, 1), Lexeme(T_IDENTIFIER, 4, 1, 1), Lexeme('(' as nat, 5, 1, 1), Lexeme(')' as nat, 6, 1, 1), Lexeme('{' as nat, 7, 1, 1),
     Lexeme(K_INT, 8, 3, 1)]
  }

  lemma HeadLexes(rest: seq<Lexeme>)
    requires |Source()| == 40 && LexFrom(Source(), 11, 1) == Some(rest)
    ensures LexFrom(Source(), 0, 1) == Some(HeadLexemes() + rest)
  {
    hide LexFrom, Source, Keyword;
    var c := Source();
    Chars();
    Spellings();
    WordKinds();
    E.Word(c, 8, 8, 3, rest);
    var t4 := [Lexeme(K_INT, 8, 3, 1)] + rest;
    E.Mark(c, 7, t4);
    var t3 := [Lexeme('{' as nat, 7, 1, 1)] + t4;
    E.Mark(c, 6, t3);
    var t2 := [Lexeme(')' as nat, 6, 1, 1)] + t3;
    E.Mark(c, 5, t2);
    var t1 := [Lexeme('(' as nat, 5, 1, 1)] + t2;
    E.Word(c, 3, 4, 1, t1);
    var t0 := [Lexeme(T_IDENTIFIER, 4, 1, 1)] + t1;
    E.Word(c, 0, 0, 3, t0);
    assert [Lexeme(K_INT, 0, 3, 1)] + t0 == HeadLexemes() + rest;
  }

  lemma TailLexes() returns (ts: seq<Lexeme>)
    ensures |Source()| == 40 && LexFrom(Source(), 30, 1) == Some(ts)
    ensures ts == [Lexeme(K_RETURN, 30, 6, 1), Lexeme(T_IDENTIFIER, 37, 1, 1), Lexeme(';' as nat, 38, 1, 1), Lexeme('}' as nat, 39, 1, 1), Lexeme(T_EOF, 40, 1, 1)]
  {
    hide LexFrom, Source, Keyword;
    var c := Source();
    Chars();
    Spellings();
    WordKinds();
    E.EndOf(c);
    var last := [Lexeme(T_EOF, 40, 1, 1)];
    E.Mark(c, 39, last);
    E.Mark(c, 38, [Lexeme('}' as nat, 39, 1, 1)] + last);
    var t1 := [Lexeme(';' as nat, 38, 1, 1)] + ([Lexeme('}' as nat, 39, 1, 1)] + last);
    E.Word(c, 36, 37, 1, t1);
    E.Word(c, 30, 30, 6, [Lexeme(T_IDENTIFIER, 37, 1, 1)] + t1);
    ts := [Lexeme(K_RETURN, 30, 6, 1)] + ([Lexeme(T_IDENTIFIER, 37, 1, 1)] + t1);
  }

  function Tokens(): seq<P.Token> {
    [P.Type("int"), P.Ident("f"), P.LPar, P.RPar, P.LBrace,
     P.Type("int"), P.Ident("x"), P.Becomes, P.Number("1"), P.Semi,
     P.LBrace, P.Type("int"), P.Ident("x"), P.Becomes, P.Number("2"), P.Semi, P.RBrace,
     P.KReturn, P.Ident("x"), P.Semi, P.RBrace, P.Eof]
  }

  /** Token `i` of the text and the list from it on. */
  lemma TokenFrom(i: nat)
    requires i <= 22
    ensures ToTokens(Source(), Lexed()[i..]) == Some(Tokens()[i..])
    decreases 22 - i
  {
    hide ToTokens, Source, Lexed, Tokens, ToToken;
    Lengths();
    if i == 22 {
      E.NoTokens(Source(), Lexed()[22..]);
      assert Tokens()[22..] == [];
    } else {
      TokenFrom(i + 1);
      assert Lexed()[i..][1..] == Lexed()[i + 1..] && Lexed()[i..][0] == Lexed()[i];
      TokenIs(i);
      E.TokensOf(Source(), Lexed()[i..]);
      assert Tokens()[i..] == [Tokens()[i]] + Tokens()[i + 1..];
    }
  }

  lemma Lengths()
    ensures |Lexed()| == 22 == |Tokens()|
  {
  }

  lemma TokenIs(i: nat)
    requires i < 22
    ensures ToToken(Source(), Lexed()[i]) == Some(Tokens()[i])
  {
    hide Source;
    Spellings();
  }

  // ----- tree -----

  function Number(s: string): P.Tree {
    P.Lit(P.Number(s))
  }

  function Declares(slot: int, s: string): P.STree {
    P.SDecl("x", slot, Some(Number(s)))
  }

  /** The use of x behind the block has the slot of the inner x. */
  function Items(): P.STrees {
    P.STCons(Declares(0, "1"), P.STCons(P.SBlock(P.One(Declares(4, "2"))), P.One(P.SReturn(Some(P.Id("x", P.Local(4)))))))
  }

  function ParsedSource(): P.FuncTree {
    P.FuncTree("f", [], Some(P.One(P.SBlock(Items()))), 8)
  }

  function Outer(): P.Scope {
    P.Scope([P.Symbol("f", 0, true)], 0)
  }

  function WithX(): P.Scope {
    P.Scope([P.Symbol("f", 0, true), P.Symbol("x", 0, false)], 4)
  }

  function WithBoth(): P.Scope {
    P.Scope([P.Symbol("f", 0, true), P.Symbol("x", 0, false), P.Symbol("x", 4, false)], 8)
  }

  lemma TokensEnd()
    ensures P.Ended(Tokens())
  {
  }

  /** A declaration with a literal as initial value. */
  lemma DeclParses(ts: seq<P.Token>, c: P.Scope, i: nat, s: string)
    requires P.Ended(ts) && i + 5 < |ts| && ts[i].Type? && ts[i + 1] == P.Ident("x") && ts[i + 2] == P.Becomes
    requires ts[i + 3] == P.Number(s) && ts[i + 4] == P.Semi
    ensures P.ParseStmt(ts, c, i) == P.Ok(P.Piece(P.One(Declares(c.bp, s)), P.Declare(c, "x")), i + 5)
  {
    var k := P.Declare(c, "x");
    assert P.Nud(ts, k.syms, i + 3) == P.Ok(Number(s), i + 4);
    assert P.Climb(ts, k.syms, Number(s), i + 4, 0) == P.Ok(Number(s), i + 4);
    assert P.ParseExpr(ts, k.syms, i + 3, 0) == P.Ok(Number(s), i + 4);
    assert P.ParseInit(ts, k.syms, i + 2) == P.Ok(Some(Number(s)), i + 4);
    assert P.SkipStars(ts, i + 1) == i + 1;
    assert P.ParseDecls(ts, c, i + 1) == P.Ok(P.Piece(P.One(Declares(c.bp, s)), k), i + 5);
  }

  lemma ReturnParses()
    ensures P.Ended(Tokens())
    ensures P.ParseStmt(Tokens(), WithBoth(), 17) == P.Ok(P.Piece(P.One(P.SReturn(Some(P.Id("x", P.Local(4))))), WithBoth()), 20)
  {
    TokensEnd();
    var ts, c, x := Tokens(), WithBoth(), P.Id("x", P.Local(4));
    assert P.FindSymbol(c.syms, "x") == 2;
    assert P.Nud(ts, c.syms, 18) == P.Ok(x, 19);
    assert P.Climb(ts, c.syms, x, 19, 0) == P.Ok(x, 19);
    assert P.ParseExpr(ts, c.syms, 18, 0) == P.Ok(x, 19);
    assert P.ParseReturn(ts, c, 17) == P.Ok(P.Piece(P.One(P.SReturn(Some(x))), c), 20);
  }

  lemma InnerItemsParse()
    ensures P.Ended(Tokens()) && P.ParseItems(Tokens(), WithX(), 11) == P.Ok(P.Piece(P.One(Declares(4, "2")), WithBoth()), 17)
  {
    hide P.ParseStmt;
    TokensEnd();
    var ts := Tokens();
    DeclParses(ts, WithX(), 11, "2");
    assert P.Declare(WithX(), "x") == WithBoth();
    assert P.ParseItems(ts, WithBoth(), 16) == P.Ok(P.Piece(P.STNil, WithBoth()), 17);
    assert P.Append(P.One(Declares(4, "2")), P.STNil) == P.One(Declares(4, "2"));
  }

  lemma InnerParses()
    ensures P.Ended(Tokens())
    ensures P.ParseStmt(Tokens(), WithX(), 10) == P.Ok(P.Piece(P.One(P.SBlock(P.One(Declares(4, "2")))), WithBoth()), 17)
  {
    hide P.ParseItems;
    InnerItemsParse();
    TokensEnd();
    assert P.ParseBlock(Tokens(), WithX(), 10) == P.Ok(P.Piece(P.One(P.SBlock(P.One(Declares(4, "2")))), WithBoth()), 17);
  }

  lemma BodyParses()
    ensures P.Ended(Tokens())
    ensures P.ParseBlock(Tokens(), Outer(), 4) == P.Ok(P.Piece(P.One(P.SBlock(Items())), WithBoth()), 21)
  {
    hide P.ParseStmt;
    TokensEnd();
    var ts := Tokens();
    DeclParses(ts, Outer(), 5, "1");
    assert P.Declare(Outer(), "x") == WithX();
    InnerParses();
    ReturnParses();
    var last := P.One(P.SReturn(Some(P.Id("x", P.Local(4)))));
    var inner := P.One(P.SBlock(P.One(Declares(4, "2"))));
    assert P.ParseItems(ts, WithBoth(), 20) == P.Ok(P.Piece(P.STNil, WithBoth()), 21);
    assert P.Append(last, P.STNil) == last;
    assert P.ParseItems(ts, WithBoth(), 17) == P.Ok(P.Piece(last, WithBoth()), 21);
    assert P.Append(inner, last) == P.STCons(inner.head, last);
    assert P.ParseItems(ts, WithX(), 10) == P.Ok(P.Piece(P.STCons(inner.head, last), WithBoth()), 21);
    assert P.Append(P.One(Declares(0, "1")), P.STCons(inner.head, last)) == Items();
    assert P.ParseItems(ts, Outer(), 5) == P.Ok(P.Piece(Items(), WithBoth()), 21);
  }

  lemma FirstTokens()
    ensures P.Ended(Tokens()) && |Tokens()| == 22
    ensures var ts := Tokens();
            ts[0] == P.Type("int") && ts[1] == P.Ident("f") && ts[2] == P.LPar && ts[3] == P.RPar && ts[4] == P.LBrace
  {
  }

  lemma FunctionParses()
    ensures P.Ended(Tokens()) && Tokens()[0].Type? && FunctionAt(Tokens(), 0)
    ensures P.ParseFunction(Tokens(), [], 0, 0) == P.Ok(P.ParsedFunc(ParsedSource(), WithBoth()), 21)
  {
    hide P.ParseBlock, Tokens, Items;
    FirstTokens();
    var ts := Tokens();
    var c := P.Scope([P.Symbol("f", 0, true)], -12);
    assert P.ParamsEnd(ts, 3) && P.ParseParams(ts, c, 3) == P.Ok(P.Params([], c), 4);
    BodyParses();
    var none: seq<P.Symbol> := [];
    assert none + [P.Symbol("f", 0, true)] == c.syms;
    assert ts[0].Type? && ts[1] == P.Ident("f") && ts[2] == P.LPar && ts[4] == P.LBrace;
  }

  lemma UnitParses()
    ensures P.Ended(Tokens()) && ParseUnit(Tokens(), [], 0, 0) == Some([ParsedSource()])
  {
    hide P.ParseFunction, FunctionAt, ParsedSource;
    FunctionParses();
    var none: seq<P.Symbol> := [];
    assert ParseUnit(Tokens(), WithBoth().syms, 1, 21) == Some([]);
    var rest: seq<P.FuncTree> := [];
    assert [ParsedSource()] + rest == [ParsedSource()];
    assert ParseUnit(Tokens(), none, 0, 0) == Some([ParsedSource()]);
  }

  lemma SourceParses()
    ensures IsSource(Source()) && Parsed(Source()) == Some([ParsedSource()])
  {
    hide ParseUnit, Source, Lex, ToTokens;
    SourceLexes();
    TokenFrom(0);
    assert Lexed()[0..] == Lexed() && Tokens()[0..] == Tokens();
    UnitParses();
  }

  // ----- program -----

  function Inner(): Stmt {
    Block(SCons(Decl(4, Some(Int(2))), SNil))
  }

  function Body(): Stmt {
    Block(SCons(Decl(0, Some(Int(1))), SCons(Inner(), SCons(Return(Some(Var(4))), SNil))))
  }

  function Unit(): (p: Program)
    ensures |p| == 1
  {
    [Func("f", 8, Some(Body()))]
  }

  lemma Numbers()
    ensures Atoi("1", 0) == 1 && Atoi("2", 0) == 2 && Decimal("1", 0) == 1 && Decimal("2", 0) == 2
  {
    assert "1"[1..] == [] && "2"[1..] == [];
    assert Atoi("1"[1..], 1) == 1 && Atoi("2"[1..], 2) == 2 && Decimal("1"[1..], 1) == 1 && Decimal("2"[1..], 2) == 2;
  }

  lemma ItemsLower()
    ensures ScalarAll(Items()) && Block(LowerAll(Items())) == Body()
  {
    Numbers();
    var last := P.One(P.SReturn(Some(P.Id("x", P.Local(4)))));
    var inner := P.SBlock(P.One(Declares(4, "2")));
    assert Scalar(Number("1")) && LowerE(Number("1")) == Int(1);
    assert Scalar(Number("2")) && LowerE(Number("2")) == Int(2);
    assert ScalarAll(last) && LowerAll(last) == SCons(Return(Some(Var(4))), SNil);
    assert ScalarAll(P.One(Declares(4, "2"))) && LowerAll(P.One(Declares(4, "2"))) == Inner().items;
    assert ScalarS(inner) && LowerS(inner) == Inner();
    assert ScalarAll(P.STCons(inner, last)) && LowerAll(P.STCons(inner, last)) == SCons(Inner(), SCons(Return(Some(Var(4))), SNil));
  }

  lemma ItemsPlain()
    ensures UsesAll(ParsedSource().body.value, {}) && KnownAll(ParsedSource().body.value, {}) == {"x"}
  {
    var last := P.One(P.SReturn(Some(P.Id("x", P.Local(4)))));
    var inner := P.SBlock(P.One(Declares(4, "2")));
    assert UsesAll(last, {"x"}) && KnownAll(last, {"x"}) == {"x"};
    assert UsesS(inner, {"x"}) && Known(inner, {"x"}) == {"x"} by {
      assert UsesAll(P.One(Declares(4, "2")), {"x"}) && KnownAll(P.One(Declares(4, "2")), {"x"}) == {"x"};
    }
    assert UsesAll(P.STCons(inner, last), {"x"}) && KnownAll(P.STCons(inner, last), {"x"}) == {"x"};
    assert {} + {"x"} == {"x"};
    assert UsesAll(Items(), {}) && KnownAll(Items(), {}) == {"x"};
  }

  lemma BlockScalar()
    ensures ScalarAll(ParsedSource().body.value) <==> ScalarAll(Items())
  {
    hide Items;
  }

  lemma SourceCompiles()
    ensures IsSource(Source()) && Compilable(Source()) && Lowerable(ParsedSource())
    ensures Parsed(Source()) == Some([ParsedSource()])
    ensures LowerUnit([ParsedSource()]) == Unit()
  {
    hide Parsed, Source, UsesAll, KnownAll, LowerAll, ScalarAll, Items;
    BlockScalar();
    SourceParses();
    ItemsPlain();
    ItemsLower();
    assert NameSet([]) == {};
    assert LowerHead(ParsedSource().body.value) == Body();
  }

  // ----- the two meanings -----

  /** In C the function returns the x of its own block. */
  lemma MeaningInC()
    ensures CMeaning.CApply([ParsedSource()], 0, "f", [], true) == V(1)
    ensures CMeaning.PlainStmts(ParsedSource().body.value) && !FreshAll(ParsedSource().body.value, {})
  {
    hide CMeaning.CAll, Items;
    var fs := [ParsedSource()];
    ItemsMean(fs);
    BlockEnds(fs);
    assert CMeaning.Passed([], []) == [];
    ItemsStale();
  }

  lemma InnerMeans(fs: seq<P.FuncTree>)
    ensures var st := [CMeaning.Cell("x", true, Some(1))];
            CMeaning.CExec(fs, 0, st, P.SBlock(P.One(Declares(4, "2"))), true) == CMeaning.Runs(st)
  {
    Numbers();
    var st1, st2 := [CMeaning.Cell("x", true, Some(1))], [CMeaning.Cell("x", true, Some(1)), CMeaning.Cell("x", true, Some(2))];
    DeclMeans(fs, st1, 4, "2", 2);
    assert st1 + [CMeaning.Cell("x", true, Some(2))] == st2;
    assert CMeaning.CAll(fs, 0, st1, P.One(Declares(4, "2")), true) == CMeaning.Runs(st2) by { hide CMeaning.CExec; }
    assert st2[..1] == st1;
  }

  lemma ItemsMean(fs: seq<P.FuncTree>)
    ensures CMeaning.CAll(fs, 0, [], Items(), true) == CMeaning.Ends(V(1))
  {
    Numbers();
    var none: seq<CMeaning.Cell> := [];
    var st1 := [CMeaning.Cell("x", true, Some(1))];
    var last, inner := P.One(P.SReturn(Some(P.Id("x", P.Local(4))))), P.SBlock(P.One(Declares(4, "2")));
    DeclMeans(fs, none, 0, "1", 1);
    assert none + [CMeaning.Cell("x", true, Some(1))] == st1;
    InnerMeans(fs);
    assert CMeaning.CExec(fs, 0, st1, last.head, true) == CMeaning.Ends(V(1));
    hide CMeaning.CExec;
    assert CMeaning.CAll(fs, 0, st1, last, true) == CMeaning.Ends(V(1));
    assert CMeaning.CAll(fs, 0, st1, P.STCons(inner, last), true) == CMeaning.Ends(V(1));
  }

  lemma BlockEnds(fs: seq<P.FuncTree>)
    requires CMeaning.CAll(fs, 0, [], Items(), true) == CMeaning.Ends(V(1))
    ensures CMeaning.CAll(fs, 0, [], ParsedSource().body.value, true) == CMeaning.Ends(V(1))
  {
    hide Items;
    assert CMeaning.CExec(fs, 0, [], P.SBlock(Items()), true) == CMeaning.Ends(V(1));
  }

  lemma DeclMeans(fs: seq<P.FuncTree>, st: seq<CMeaning.Cell>, slot: int, s: string, n: nat)
    requires CMeaning.CNumber(s) == n < TWO31
    ensures CMeaning.CExec(fs, 0, st, Declares(slot, s), true) == CMeaning.Runs(st + [CMeaning.Cell("x", true, Some(n))])
  {
    var st1 := st + [CMeaning.Cell("x", true, None)];
    assert CMeaning.CEval(fs, 0, st1, Number(s), true) == V(n);
    assert CMeaning.Index(st1, "x") == |st|;
    assert st1[|st| := CMeaning.Cell("x", true, Some(n))] == st + [CMeaning.Cell("x", true, Some(n))];
  }

  /** The text is plain but for the one stale use. */
  lemma ItemsStale()
    ensures CMeaning.PlainStmts(ParsedSource().body.value) && !FreshAll(ParsedSource().body.value, {})
  {
    Numbers();
    var last := P.One(P.SReturn(Some(P.Id("x", P.Local(4)))));
    var inner := P.SBlock(P.One(Declares(4, "2")));
    assert DeclNames(inner) == {"x"} by { assert DeclNamesAll(P.One(Declares(4, "2"))) == {"x"}; }
    assert !FreshAll(last, {"x"});
    assert StaleAfter(inner, {}) == {"x"};
    assert !FreshAll(P.STCons(inner, last), {});
    assert StaleAfter(Declares(0, "1"), {}) == {};
    assert !FreshAll(Items(), {});
    assert CMeaning.PlainStmts(last) && CMeaning.PlainStmts(P.One(Declares(4, "2")));
    assert CMeaning.PlainStmts(P.STCons(inner, last));
    assert CMeaning.PlainStmts(Items());
  }

  lemma MeaningOfCode()
    ensures Apply(Unit(), 0, "f", []) == V(2)
  {
    var p, env := Unit(), Env(map[], []);
    var env1 := Env(map[0 := 1], []);
    var env2 := Env(map[0 := 1, 4 := 2], []);
    assert ExecItem(p, 0, env, Decl(0, Some(Int(1)))) == Normal(env1);
    assert ExecItem(p, 0, env1, Decl(4, Some(Int(2)))) == Normal(env2);
    assert ExecItems(p, 0, env1, Inner().items) == Normal(env2);
    assert ExecItem(p, 0, env1, Inner()) == Normal(env2);
    var last := SCons(Return(Some(Var(4))), SNil);
    assert ExecItems(p, 0, env2, last) == Returned(2);
    assert ExecItems(p, 0, env1, SCons(Inner(), last)) == Returned(2);
    assert ExecItems(p, 0, env, Body().items) == Returned(2);
  }

  // ----- the image -----

  /** The statements take code alone: no label, no record, no string. */
  ghost predicate CodeOnly(funcs: seq<FuncSym>, ss: Stmts, n: nat) {
    var c := ItemsCost(funcs, ss);
    && c.code <= n && c.labels == 0 && c.fixups == 0 && c.strs == 0 && c.pool == 0 && GoodStmts(ss, 8)
    && forall a: int :: ItemsJumps(funcs, ss, a) == []
  }

  /** One statement of a block, likewise. */
  ghost predicate ItemOnly(funcs: seq<FuncSym>, s: Stmt, n: nat) {
    var c := ItemCost(funcs, s);
    && c.code <= n && c.labels == 0 && c.fixups == 0 && c.strs == 0 && c.pool == 0 && GoodStmt(s, 8)
    && forall a: int :: ItemJumps(funcs, s, a) == []
  }

  lemma {:induction false} ItemsFacts(funcs: seq<FuncSym>, s: Stmt, rest: Stmts, a: int)
    ensures ItemsCost(funcs, SCons(s, rest)) == Plus(ItemCost(funcs, s), ItemsCost(funcs, rest))
    ensures ItemsJumps(funcs, SCons(s, rest), a) == ItemJumps(funcs, s, a) + ItemsJumps(funcs, rest, a + ItemSize(s))
    ensures GoodStmts(SCons(s, rest), 8) <==> GoodStmt(s, 8) && GoodStmts(rest, 8)
  {
    hide ItemCost, ItemJumps, GoodStmt, ItemSize;
  }

  lemma {:induction false} OneMore(funcs: seq<FuncSym>, s: Stmt, rest: Stmts, m: nat, n: nat)
    requires ItemOnly(funcs, s, m) && CodeOnly(funcs, rest, n)
    ensures CodeOnly(funcs, SCons(s, rest), m + n)
  {
    hide ItemCost, ItemsCost, ItemJumps, ItemsJumps, GoodStmt, GoodStmts, ItemSize;
    ItemsFacts(funcs, s, rest, 0);
    forall a: int ensures ItemsJumps(funcs, SCons(s, rest), a) == [] {
      ItemsFacts(funcs, s, rest, a);
    }
  }

  lemma {:induction false} NoItems(funcs: seq<FuncSym>)
    ensures CodeOnly(funcs, SNil, 0)
  {
    assert ItemsCost(funcs, SNil) == NOTHING && GoodStmts(SNil, 8);
    assert forall a: int :: ItemsJumps(funcs, SNil, a) == [];
  }

  lemma {:induction false} DeclItem(funcs: seq<FuncSym>, slot: int, n: int)
    requires slot == 0 || slot == 4
    ensures ItemOnly(funcs, Decl(slot, Some(Int(n))), 20)
  {
    assert ExprCost(funcs, Int(n)) == Bytes(11);
  }

  lemma {:induction false} ReturnItem(funcs: seq<FuncSym>)
    ensures ItemOnly(funcs, Return(Some(Var(4))), 20)
  {
    hide ExprCost, Plus, Bytes, Directs;
    var r := Return(Some(Var(4)));
    VarCost(funcs);
    PlusBound(ExprCost(funcs, Var(4)), Bytes(3));
    assert ItemCost(funcs, r) == StmtCost(funcs, r) == Plus(ExprCost(funcs, Var(4)), Bytes(3));
    forall a: int ensures ItemJumps(funcs, r, a) == [] {
      NoDirects();
      assert ItemJumps(funcs, r, a) == StmtJumps(funcs, r, a) == Directs(0);
    }
  }

  lemma PlusBound(a: Cost, b: Cost)
    requires a.code <= 8 && a.labels == 0 && a.fixups == 0 && a.strs == 0 && a.pool == 0 && b == Bytes(3)
    ensures var c := Plus(a, b); c.code <= 20 && c.labels == 0 && c.fixups == 0 && c.strs == 0 && c.pool == 0
  {
  }

  lemma NoDirects()
    ensures Directs(0) == []
  {
  }

  lemma {:induction false} VarCost(funcs: seq<FuncSym>)
    ensures var c := ExprCost(funcs, Var(4)); c.code <= 8 && c.labels == 0 && c.fixups == 0 && c.strs == 0 && c.pool == 0
  {
  }

  lemma {:induction false} BlockItem(funcs: seq<FuncSym>, items: Stmts, n: nat)
    requires CodeOnly(funcs, items, n)
    ensures ItemOnly(funcs, Block(items), n) && ItemCost(funcs, Block(items)) == StmtCost(funcs, Block(items))
    ensures forall a: int :: StmtJumps(funcs, Block(items), a) == []
  {
    hide ItemsCost, ItemsJumps, GoodStmts;
    assert ItemCost(funcs, Block(items)) == StmtCost(funcs, Block(items));
    forall a: int ensures ItemJumps(funcs, Block(items), a) == StmtJumps(funcs, Block(items), a) == [] {
      assert StmtJumps(funcs, Block(items), a) == ItemsJumps(funcs, items, a);
    }
  }

  lemma ItemMeans(funcs: seq<FuncSym>, s: Stmt, n: nat)
    requires ItemOnly(funcs, s, n)
    ensures GoodStmt(s, 8)
    ensures var c := ItemCost(funcs, s); c.code <= n && c.labels == 0 && c.fixups == 0 && c.strs == 0 && c.pool == 0
  {
    hide ItemCost, GoodStmt;
  }

  lemma {:induction false} BodyFits(funcs: seq<FuncSym>)
    ensures GoodStmt(Body(), 8) && forall a: int :: StmtJumps(funcs, Body(), a) == []
    ensures var c := StmtCost(funcs, Body()); c.code <= 80 && c.labels == 0 && c.fixups == 0 && c.strs == 0 && c.pool == 0
  {
    hide StmtCost, ItemsCost, StmtJumps, ItemsJumps, GoodStmt, GoodStmts, CodeOnly, ItemCost, ItemJumps;
    var last := SCons(Return(Some(Var(4))), SNil);
    NoItems(funcs);
    ReturnItem(funcs);
    OneMore(funcs, Return(Some(Var(4))), SNil, 20, 0);
    DeclItem(funcs, 4, 2);
    OneMore(funcs, Decl(4, Some(Int(2))), SNil, 20, 0);
    BlockItem(funcs, Inner().items, 20);
    OneMore(funcs, Inner(), last, 20, 20);
    DeclItem(funcs, 0, 1);
    OneMore(funcs, Decl(0, Some(Int(1))), SCons(Inner(), last), 20, 40);
    BlockItem(funcs, Body().items, 60);
    ItemMeans(funcs, Body(), 60);
  }

  lemma UnitFits(table: seq<Fixup>)
    ensures GoodProgram(Unit()) && WithinLimits(Unit()) && HarmlessTable(table, Unit())
    ensures Find(Unit(), "f") == 0 < |Unit()| && EntryOf(Unit(), "f") == HEADER_SIZE
  {
    hide StmtCost, Symbols, ProgramCost, GoodStmt, StmtJumps, Body, Harmless;
    BodyFits(Symbols(Unit(), 1));
    F.CostOfOne(Unit());
    E.NoTests(table, Unit());
  }

  /** From the characters of the text to the register: C gives the call of f the value
      1, the machine code leaves 2 in rax. */
  lemma ScopeExampleRuns(header: seq<byte>, table: seq<Fixup>, base: word, m: State) returns (m': State)
    requires |header| == HEADER_SIZE && |table| == MAX_FIXUPS && base + 0x1_0000 < TWO64
    requires m.rip == HEADER_SIZE && m.rsp + 8 < TWO64 && m.rsp + 8 >= ApplyDepth(Unit(), 0, "f", [])
    ensures IsSource(Source()) && Compilable(Source()) && Parsed(Source()) == Some([ParsedSource()]) && Lowerable(ParsedSource())
    ensures var fin := GenProgram(header, table, Meaning(Source()));
            SitesInside(fin, |fin.code|) && Section(fin) >= 0 && Reaches(Image(Linked(fin), base), m, m')
    ensures m'.rax == 2 && CMeaning.CApply([ParsedSource()], 0, "f", [], true) == V(1)
    ensures CMeaning.PlainStmts(ParsedSource().body.value) && !FreshAll(ParsedSource().body.value, {})
  {
    hide *;
    SourceCompiles();
    MeaningInC();
    MeaningOfCode();
    MeaningIs();
    UnitFits(table);
    CalledIs(header, table, base, m);
    m' := SourceRuns(Source(), header, table, base, 0, "f", [], m);
    LeftTwo(base, m, m');
  }

  lemma MeaningIs()
    requires IsSource(Source()) && Parsed(Source()) == Some([ParsedSource()]) && Lowerable(ParsedSource())
    ensures Meaning(Source()) == LowerUnit([ParsedSource()])
  {
    hide Parsed, Source, ParsedSource, LowerUnit;
  }

  lemma CalledIs(header: seq<byte>, table: seq<Fixup>, base: word, m: State)
    requires |header| == HEADER_SIZE && |table| == MAX_FIXUPS && base + 0x1_0000 < TWO64
    requires m.rip == HEADER_SIZE && m.rsp + 8 < TWO64 && m.rsp + 8 >= ApplyDepth(Unit(), 0, "f", [])
    requires HarmlessTable(table, Unit()) && WithinLimits(Unit())
    requires Find(Unit(), "f") == 0 < |Unit()| && EntryOf(Unit(), "f") == HEADER_SIZE
    ensures Called(Unit(), header, table, base, 0, "f", [], m)
  {
    hide HarmlessTable, WithinLimits, Find, EntryOf, ApplyDepth, Unit;
  }

  lemma LeftTwo(base: word, m: State, m': State)
    requires Simulation.Left(Image([], base), [], V(2), m, m')
    ensures m'.rax == 2
  {
  }
}
