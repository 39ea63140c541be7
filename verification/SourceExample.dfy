/** A source text followed through the whole compiler, so that the conditions of the
    pipeline theorem are seen to be met. */
module SourceExample {
  import opened Words
  import opened Memory
  import opened Machine
  import opened Options
  import opened Ast
  import opened Layout
  import opened Codegen
  import opened Placement
  import opened Leftovers
  import opened Compiler
  import opened Lexing
  import opened FrontEnd
  import opened Lowering
  import opened Pipeline
  import opened Miscompiled
  import opened Scoping
  import CMeaning
  import P = Parser
  import opened Patching
  import Simulation

  function Source(): string {
    "int f(){return 7;}"
  }

  // ----- tokens -----

  lemma SourceChars()
    ensures var c := Source();
            && |c| == 18 && IsSource(c)
            && c[0] == 'i' && c[1] == 'n' && c[2] == 't' && c[3] == ' ' && c[4] == 'f' && c[5] == '(' && c[6] == ')' && c[7] == '{'
            && c[8] == 'r' && c[9] == 'e' && c[10] == 't' && c[11] == 'u' && c[12] == 'r' && c[13] == 'n' && c[14] == ' '
            && c[15] == '7' && c[16] == ';' && c[17] == '}'
  {
  }

  lemma Spellings()
    ensures Source()[0..3] == "int" && Source()[4..5] == "f" && Source()[8..14] == "return" && Source()[15..16] == "7"
  {
  }

  /** The token at `q` and the list behind it. */
  lemma OneToken(code: string, p: nat, q: nat, l: nat, kind: nat, rest: seq<Lexeme>)
    requires p <= q < |code| && Skip(code, p, 1) == (q, 1) && FindLen(code, q) == l && KindOf(code, q, l) == kind
    requires q + l <= |code| && LexFrom(code, q + l, 1) == Some(rest)
    ensures LexFrom(code, p, 1) == Some([Lexeme(kind, q, l, 1)] + rest)
  {
    hide Skip, FindLen, KindOf;
  }

  /** A mark is a token of its own. */
  lemma Mark(code: string, p: nat, rest: seq<Lexeme>)
    requires p < |code| && code[p] in "(){};" && LexFrom(code, p + 1, 1) == Some(rest)
    ensures LexFrom(code, p, 1) == Some([Lexeme(code[p] as nat, p, 1, 1)] + rest)
  {
    hide Keyword;
    OneToken(code, p, p, 1, code[p] as nat, rest);
  }

  lemma {:induction false} WordEnds(code: string, i: nat, n: nat)
    requires i + n < |code| && (forall k :: i <= k < i + n ==> IsWord(code[k])) && !IsWord(code[i + n])
    ensures WordLen(code, i) == n
    decreases n
  {
    if n > 0 { WordEnds(code, i + 1, n - 1); }
  }

  lemma Word(code: string, p: nat, q: nat, n: nat, rest: seq<Lexeme>)
    requires p <= q < |code| && (q == p || (q == p + 1 && code[p] == ' ')) && 0 < n && q + n < |code| && IsAlpha(code[q])
    requires (forall k :: q <= k < q + n ==> IsWord(code[k])) && !IsWord(code[q + n])
    requires LexFrom(code, q + n, 1) == Some(rest)
    ensures LexFrom(code, p, 1) == Some([Lexeme(Keyword(code[q..q + n]), q, n, 1)] + rest)
  {
    hide Keyword, WordLen;
    WordEnds(code, q, n);
    OneToken(code, p, q, n, Keyword(code[q..q + n]), rest);
  }

  lemma Digit(code: string, p: nat, rest: seq<Lexeme>)
    requires p + 2 < |code| && code[p] == ' ' && IsDigit(code[p + 1]) && !IsDigit(code[p + 2]) && LexFrom(code, p + 2, 1) == Some(rest)
    ensures LexFrom(code, p, 1) == Some([Lexeme(T_INT, p + 1, 1, 1)] + rest)
  {
    hide Keyword;
    assert DigitsLen(code, p + 2) == 0;
    OneToken(code, p, p + 1, 1, T_INT, rest);
  }

  function Lexed(): seq<Lexeme> {
    [Lexeme(K_INT, 0, 3, 1), Lexeme(T_IDENTIFIER, 4, 1, 1), Lexeme('(' as nat, 5, 1, 1), Lexeme(')' as nat, 6, 1, 1),
     Lexeme('{' as nat, 7, 1, 1), Lexeme(K_RETURN, 8, 6, 1), Lexeme(T_INT, 15, 1, 1), Lexeme(';' as nat, 16, 1, 1),
     Lexeme('}' as nat, 17, 1, 1), Lexeme(T_EOF, 18, 1, 1)]
  }

  lemma SourceLexes()
    ensures IsSource(Source()) && Lex(Source()) == Some(Lexed())
  {
    hide LexFrom, Source, Keyword;
    var c := Source();
    SourceChars();
    Spellings();
    Keywords();
    var last := [Lexeme(T_EOF, 18, 1, 1)];
    EndOf(c);
    Mark(c, 17, last);
    Mark(c, 16, [Lexeme('}' as nat, 17, 1, 1)] + last);
    var t7 := [Lexeme(';' as nat, 16, 1, 1)] + ([Lexeme('}' as nat, 17, 1, 1)] + last);
    Digit(c, 14, t7);
    var t6 := [Lexeme(T_INT, 15, 1, 1)] + t7;
    Word(c, 8, 8, 6, t6);
    var t5 := [Lexeme(K_RETURN, 8, 6, 1)] + t6;
    Mark(c, 7, t5);
    var t4 := [Lexeme('{' as nat, 7, 1, 1)] + t5;
    Mark(c, 6, t4);
    var t3 := [Lexeme(')' as nat, 6, 1, 1)] + t4;
    Mark(c, 5, t3);
    var t2 := [Lexeme('(' as nat, 5, 1, 1)] + t3;
    Word(c, 3, 4, 1, t2);
    var t1 := [Lexeme(T_IDENTIFIER, 4, 1, 1)] + t2;
    Word(c, 0, 0, 3, t1);
    assert [Lexeme(K_INT, 0, 3, 1)] + t1 == Lexed();
  }

  lemma Keywords()
    ensures Keyword("int") == K_INT && Keyword("f") == T_IDENTIFIER && Keyword("return") == K_RETURN
  {
    KeywordCodes("int");
    KeywordCodes("return");
  }

  lemma EndOf(code: string)
    ensures LexFrom(code, |code|, 1) == Some([Lexeme(T_EOF, |code|, 1, 1)])
  {
  }

  function Tokens(): seq<P.Token> {
    [P.Type("int"), P.Ident("f"), P.LPar, P.RPar, P.LBrace, P.KReturn, P.Number("7"), P.Semi, P.RBrace, P.Eof]
  }

  lemma TokensOf(code: string, ts: seq<Lexeme>)
    requires ts != [] && ToToken(code, ts[0]).Some? && ToTokens(code, ts[1..]).Some?
    ensures ToTokens(code, ts) == Some([ToToken(code, ts[0]).value] + ToTokens(code, ts[1..]).value)
  {
    hide ToToken;
  }

  /** Token `i` of the text and the list from it on. */
  lemma TokenFrom(i: nat)
    requires i <= 10
    ensures ToTokens(Source(), Lexed()[i..]) == Some(Tokens()[i..])
    decreases 10 - i
  {
    hide ToTokens, Source;
    SourceChars();
    Spellings();
    if i == 10 {
      NoTokens(Source(), Lexed()[10..]);
      assert Tokens()[10..] == [];
    } else {
      TokenFrom(i + 1);
      assert Lexed()[i..][1..] == Lexed()[i + 1..] && Lexed()[i..][0] == Lexed()[i];
      TokenIs(i);
      TokensOf(Source(), Lexed()[i..]);
      assert Tokens()[i..] == [Tokens()[i]] + Tokens()[i + 1..];
    }
  }

  lemma NoTokens(code: string, ts: seq<Lexeme>)
    requires ts == []
    ensures ToTokens(code, ts) == Some([])
  {
  }

  lemma TokenIs(i: nat)
    requires i < 10
    ensures ToToken(Source(), Lexed()[i]) == Some(Tokens()[i])
  {
    hide Source;
    SourceChars();
    Spellings();
  }

  // ----- tree -----

  function Answer(): P.STrees {
    P.One(P.SReturn(Some(P.Lit(P.Number("7")))))
  }

  function ParsedSource(): P.FuncTree {
    P.FuncTree("f", [], Some(P.One(P.SBlock(Answer()))), 0)
  }

  lemma TokensEnd()
    ensures P.Ended(Tokens())
  {
  }

  lemma ReturnParses(c: P.Scope)
    ensures P.Ended(Tokens()) && P.ParseStmt(Tokens(), c, 5) == P.Ok(P.Piece(Answer(), c), 8)
  {
    TokensEnd();
    var ts := Tokens();
    assert P.Nud(ts, c.syms, 6) == P.Ok(P.Lit(P.Number("7")), 7);
    assert P.Climb(ts, c.syms, P.Lit(P.Number("7")), 7, 0) == P.Ok(P.Lit(P.Number("7")), 7);
    assert P.ParseExpr(ts, c.syms, 6, 0) == P.Ok(P.Lit(P.Number("7")), 7);
    assert P.ParseReturn(ts, c, 5) == P.Ok(P.Piece(Answer(), c), 8);
  }

  lemma BodyParses(c: P.Scope)
    ensures P.Ended(Tokens()) && P.ParseBlock(Tokens(), c, 4) == P.Ok(P.Piece(P.One(P.SBlock(Answer())), c), 9)
  {
    hide P.ParseStmt;
    TokensEnd();
    ReturnParses(c);
    assert P.ParseItems(Tokens(), c, 8) == P.Ok(P.Piece(P.STNil, c), 9);
    assert P.Append(Answer(), P.STNil) == Answer();
    assert P.ParseItems(Tokens(), c, 5) == P.Ok(P.Piece(Answer(), c), 9);
  }

  lemma SourceParses()
    ensures IsSource(Source()) && Parsed(Source()) == Some([ParsedSource()])
  {
    hide P.ParseBlock, Source, Lex, ToTokens;
    SourceLexes();
    TokenFrom(0);
    assert Lexed()[0..] == Lexed() && Tokens()[0..] == Tokens();
    TokensEnd();
    FunctionParses();
    var ts := Tokens();
    var none: seq<P.Symbol> := [];
    assert ParseUnit(ts, [P.Symbol("f", 0, true)], 1, 9) == Some([]);
    var rest: seq<P.FuncTree> := [];
    assert FunctionAt(ts, 0) && [ParsedSource()] + rest == [ParsedSource()];
    assert ParseUnit(ts, none, 0, 0) == Some([ParsedSource()]);
  }

  lemma NothingSkipped()
    ensures P.Ended(Tokens()) && Unskipped(Tokens(), [], 0, 0)
  {
    hide P.ParseBlock, P.ParseFunction;
    TokensEnd();
    var ts := Tokens();
    FunctionParses();
    assert ts[0].Type? && FunctionAt(ts, 0);
    assert Unskipped(ts, [P.Symbol("f", 0, true)], 1, 9);
  }

  lemma FunctionParses()
    ensures P.Ended(Tokens()) && FunctionAt(Tokens(), 0)
    ensures P.ParseFunction(Tokens(), [], 0, 0) == P.Ok(P.ParsedFunc(ParsedSource(), P.Scope([P.Symbol("f", 0, true)], 0)), 9)
  {
    hide P.ParseBlock;
    TokensEnd();
    var ts := Tokens();
    var c := P.Scope([P.Symbol("f", 0, true)], -12);
    assert P.ParamsEnd(ts, 3) && P.ParseParams(ts, c, 3) == P.Ok(P.Params([], c), 4);
    BodyParses(P.Scope(c.syms, 0));
    var none: seq<P.Symbol> := [];
    assert none + [P.Symbol("f", 0, true)] == c.syms;
    assert ts[0].Type? && ts[1] == P.Ident("f") && ts[2] == P.LPar && ts[4] == P.LBrace;
  }

  // ----- program -----

  lemma SourceCompiles()
    ensures IsSource(Source()) && Compilable(Source()) && Lowerable(ParsedSource())
    ensures Parsed(Source()) == Some([ParsedSource()])
    ensures LowerUnit([ParsedSource()]) == Unit(Block(SCons(Give(7), SNil)))
  {
    hide Parsed, Source, UsesAll;
    SourceParses();
    assert UsesAll(ParsedSource().body.value, {}) && KnownAll(ParsedSource().body.value, {}) == {} by { NothingUsed(); }
    assert NameSet([]) == {};
    assert Scalar(P.Lit(P.Number("7"))) && Atoi("7", 0) == 7 by { Seven(); }
    assert LowerAll(Answer()) == SCons(Give(7), SNil);
    assert ScalarAll(ParsedSource().body.value);
    assert LowerHead(ParsedSource().body.value) == Block(SCons(Give(7), SNil));
  }

  lemma Seven()
    ensures Atoi("7", 0) == 7 == Decimal("7", 0)
  {
    assert "7"[1..] == [];
    assert Atoi("7"[1..], 7) == 7 == Decimal("7"[1..], 7);
  }

  /** The text lies in the common part of C and the compiler's language. */
  lemma SourceIsPortable()
    ensures IsSource(Source()) && Portable(Source())
  {
    hide Source, Parsed, Compilable, UsesAll, ToTokens, Lex, Unskipped, ReadsAsC, PlainBody;
    SourceCompiles();
    NothingSkipped();
    SourceLexes();
    TokenFrom(0);
    assert Lexed()[0..] == Lexed() && Tokens()[0..] == Tokens();
    SourceReads();
    BodyIsPlain();
  }

  lemma SourceReads()
    requires IsSource(Source()) && Parsed(Source()).Some?
    requires Lex(Source()) == Some(Lexed()) && ToTokens(Source(), Lexed()) == Some(Tokens())
    requires P.Ended(Tokens()) && Unskipped(Tokens(), [], 0, 0)
    ensures ReadsAsC(Source())
  {
    hide Source, Parsed, Lex, ToTokens, Unskipped;
    SourceChars();
    forall i | 0 <= i < |Lexed()| ensures !Compound(Spelling(Source(), Lexed()[i])) {
      NotCompound(i);
    }
  }

  lemma NotCompound(i: nat)
    requires i < 10
    ensures !Compound(Spelling(Source(), Lexed()[i]))
  {
    hide Source;
    SourceChars();
    Spellings();
  }

  lemma BodyIsPlain()
    ensures PlainBody(ParsedSource().body.value)
  {
    Seven();
    assert CMeaning.PlainStmts(Answer()) && FreshAll(Answer(), {});
  }

  lemma NothingUsed()
    ensures UsesAll(ParsedSource().body.value, {}) && KnownAll(ParsedSource().body.value, {}) == {}
  {
    assert UsesAll(Answer(), {}) && KnownAll(Answer(), {}) == {};
  }

  function Body(): Stmt {
    Block(SCons(Give(7), SNil))
  }

  lemma {:induction false} BodyFacts(funcs: seq<FuncSym>, a: int)
    ensures GoodStmt(Body(), 0) && Small(StmtCost(funcs, Body())) && StmtJumps(funcs, Body(), a) == []
  {
    hide StmtCost, Plus;
    GiveCost(funcs, 7);
    PlusFacts(Bytes(14), NOTHING, NOTHING, 0, 0);
    assert ItemsCost(funcs, SNil) == NOTHING;
    assert ItemCost(funcs, Give(7)) == StmtCost(funcs, Give(7));
    assert ItemsCost(funcs, SCons(Give(7), SNil)) == Bytes(14);
    assert StmtCost(funcs, Body()) == ItemsCost(funcs, SCons(Give(7), SNil)) by { BlockCost(funcs, SCons(Give(7), SNil)); }
    assert ItemsJumps(funcs, SNil, a + ItemSize(Give(7))) == [];
    assert ItemJumps(funcs, Give(7), a) == [];
  }

  lemma BlockCost(funcs: seq<FuncSym>, items: Stmts)
    ensures StmtCost(funcs, Block(items)) == ItemsCost(funcs, items)
  {
  }

  lemma ProgramFits(table: seq<Fixup>)
    ensures Compiles(Body()) && HarmlessTable(table, Unit(Body()))
  {
    hide StmtCost, Symbols, Small, Body, Compiles, GoodStmt, StmtJumps, BodyStart, Harmless;
    BodyFacts(Symbols(Unit(Body()), 1), BodyStart(Unit(Body()), 0));
    UnitCompiles(Body());
    NoTests(table, Unit(Body()));
  }

  /** A unit without test jumps is safe from any table. */
  lemma {:induction false} NoTests(table: seq<Fixup>, p: Program)
    requires |p| == 1 && p[0].body.Some? && StmtJumps(Symbols(p, 1), p[0].body.value, BodyStart(p, 0)) == []
    ensures HarmlessTable(table, p)
  {
    hide StmtJumps, Symbols, BodyStart, Harmless;
    assert ProgramJumps(p, 0) == [];
  }

  lemma BodyMeans()
    ensures Apply(Unit(Body()), 0, "f", []) == V(7)
  {
    hide Exec;
    var p, env := Unit(Body()), Env(map[], []);
    GiveMeans(p, 0, env, 7);
    assert Exec(p, 0, env, Body()) == Returned(7) by { BodyReturns(p, env); }
    assert Find(p, "f") == 0;
  }

  lemma BodyReturns(p: Program, env: Env)
    ensures Exec(p, 0, env, Body()) == Returned(7)
  {
    GiveMeans(p, 0, env, 7);
    assert ExecItems(p, 0, env, SCons(Give(7), SNil)) == Returned(7);
  }

  /** From the characters of the text to the register: all conditions of the pipeline
      theorem hold for it, and a call of f leaves 7 in rax. */
  lemma SourceExampleRuns(header: seq<byte>, table: seq<Fixup>, base: word, m: State) returns (m': State)
    requires |header| == HEADER_SIZE && |table| == MAX_FIXUPS && base + 0x1_0000 < TWO64
    requires m.rip == HEADER_SIZE && m.rsp + 8 < TWO64 && m.rsp + 8 >= ApplyDepth(Unit(Body()), 0, "f", [])
    ensures IsSource(Source()) && Compilable(Source()) && Parsed(Source()) == Some([ParsedSource()]) && Lowerable(ParsedSource())
    ensures var fin := GenProgram(header, table, Meaning(Source()));
            SitesInside(fin, |fin.code|) && Section(fin) >= 0 && Reaches(Image(Linked(fin), base), m, m')
    ensures m'.rax == 7
  {
    hide *;
    SourceCompiles();
    BodyIs();
    MeaningIs();
    ProgramFits(table);
    CompilesIs(Body());
    FirstEntry(Body());
    BodyMeans();
    CalledIs(header, table, base, m);
    m' := SourceRuns(Source(), header, table, base, 0, "f", [], m);
    LeftSeven(base, m, m');
  }

  lemma BodyIs()
    ensures Body() == Block(SCons(Give(7), SNil))
  {
  }

  lemma MeaningIs()
    requires IsSource(Source()) && Parsed(Source()) == Some([ParsedSource()]) && Lowerable(ParsedSource())
    ensures Meaning(Source()) == LowerUnit([ParsedSource()])
  {
    hide Parsed, Source, ParsedSource, LowerUnit;
  }

  lemma CalledIs(header: seq<byte>, table: seq<Fixup>, base: word, m: State)
    requires |header| == HEADER_SIZE && |table| == MAX_FIXUPS && base + 0x1_0000 < TWO64
    requires m.rip == HEADER_SIZE && m.rsp + 8 < TWO64 && m.rsp + 8 >= ApplyDepth(Unit(Body()), 0, "f", [])
    requires HarmlessTable(table, Unit(Body())) && WithinLimits(Unit(Body()))
    requires Find(Unit(Body()), "f") == 0 < |Unit(Body())| && EntryOf(Unit(Body()), "f") == HEADER_SIZE
    ensures Called(Unit(Body()), header, table, base, 0, "f", [], m)
  {
    hide HarmlessTable, WithinLimits, Find, EntryOf, ApplyDepth, Body, Unit;
  }

  lemma LeftSeven(base: word, m: State, m': State)
    requires Simulation.Left(Image([], base), [], V(7), m, m')
    ensures m'.rax == 7
  {
  }
}
