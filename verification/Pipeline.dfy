/** The whole compiler: from source text to machine code that computes what the
    source means. */
module Pipeline {
  import opened Words
  import opened Memory
  import opened Options
  import opened Machine
  import opened Ast
  import opened Codegen
  import opened Patching
  import opened Compiler
  import opened Simulation
  import opened IntSemantics
  import opened Slots
  import opened Lowering
  import opened Scoping
  import opened StatementPrinting
  import CMeaning
  import CAgreement
  import P = Parser
  import Lexing
  import FrontEnd

  // ----- units of functions -----

  /** Functions one after the other; tokens that start no declaration are skipped.
      No result when the compilation aborts, would loop on a malformed parameter
      list, or meets a global variable. */
  function ParseUnit(ts: seq<P.Token>, syms: seq<P.Symbol>, count: nat, i: nat): Option<seq<P.FuncTree>>
    requires P.Ended(ts) && i < |ts|
    decreases |ts| - i
  {
    if ts[i] == P.Eof then Some([])
    else if !ts[i].Type? then ParseUnit(ts, syms, count, i + 1)
    else if !FunctionAt(ts, i) then None
    else
      var f := P.ParseFunction(ts, syms, count, i);
      if f.Abort? then None
      else
        var rest := ParseUnit(ts, f.value.scope.syms, count + 1, f.next);
        if rest.None? then None else Some([f.value.fn] + rest.value)
  }

  predicate FunctionAt(ts: seq<P.Token>, i: nat)
    requires P.Ended(ts) && i < |ts| && ts[i].Type?
  {
    ts[i + 1].Ident? && ts[i + 2] == P.LPar && P.ParamsEnd(ts, i + 3)
  }

  /** A function the compiler theorem speaks of: defined, over its own scalar
      variables, declared before use, with names that fit the symbol table. */
  predicate Plain(f: P.FuncTree) {
    && f.body.Some? && UsesAll(f.body.value, NameSet(f.params))
    && (forall name :: name in KnownAll(f.body.value, NameSet(f.params)) ==> |name| <= 63)
    && |f.params| <= 32 && f.localBytes <= 0x7000_0000
  }

  lemma PlainParts(f: P.FuncTree)
    requires Plain(f)
    ensures f.body.Some? && UsesAll(f.body.value, NameSet(f.params)) && |f.params| <= 32 && f.localBytes <= 0x7000_0000
  {
  }

  predicate Lowerable(f: P.FuncTree) {
    f.body.Some? && f.body.value.STCons? && ScalarAll(f.body.value) && f.localBytes >= 0
  }

  lemma {:induction false} UnitGood(ts: seq<P.Token>, syms: seq<P.Symbol>, count: nat, i: nat)
    requires P.Ended(ts) && i < |ts| && ParseUnit(ts, syms, count, i).Some?
    requires forall k :: 0 <= k < |ParseUnit(ts, syms, count, i).value| ==> Plain(ParseUnit(ts, syms, count, i).value[k])
    ensures var fs := ParseUnit(ts, syms, count, i).value;
            forall k :: 0 <= k < |fs| ==> Lowerable(fs[k]) && GoodFunc(LowerFunc(fs[k]))
    decreases |ts| - i
  {
    hide P.ParseFunction, UsesAll, ScalarAll, GoodFunc, LowerFunc, P.ParamsEnd, KnownAll, NameSet, Plain;
    if ts[i] == P.Eof {
    } else if !ts[i].Type? {
      UnitGood(ts, syms, count, i + 1);
    } else {
      var fs := ParseUnit(ts, syms, count, i).value;
      var f := P.ParseFunction(ts, syms, count, i);
      var rest := ParseUnit(ts, f.value.scope.syms, count + 1, f.next).value;
      assert Plain(fs[0]);
      PlainParts(fs[0]);
      ParsedFunctionGood(ts, syms, count, i);
      assert forall k :: 0 <= k < |rest| ==> rest[k] == fs[k + 1] && Plain(rest[k]);
      UnitGood(ts, f.value.scope.syms, count + 1, f.next);
    }
  }

  function LowerUnit(fs: seq<P.FuncTree>): (p: Program)
    requires forall k :: 0 <= k < |fs| ==> Lowerable(fs[k])
    ensures |p| == |fs| && forall k :: 0 <= k < |fs| ==> Lowerable(fs[k]) && p[k] == LowerFunc(fs[k])
  {
    if fs == [] then []
    else
      assert Lowerable(fs[|fs| - 1]);
      LowerUnit(fs[..|fs| - 1]) + [LowerFunc(fs[|fs| - 1])]
  }

  // ----- from text to machine -----

  /** The parsed functions of a source text. */
  function Parsed(code: string): Option<seq<P.FuncTree>>
    requires Lexing.IsSource(code)
  {
    if Lexing.Lex(code).None? || FrontEnd.ToTokens(code, Lexing.Lex(code).value).None? then None
    else
      FrontEnd.LexedTokensEnd(code);
      ParseUnit(FrontEnd.ToTokens(code, Lexing.Lex(code).value).value, [], 0, 0)
  }

  /** The text is a unit of plain functions. */
  ghost predicate Compilable(code: string)
    requires Lexing.IsSource(code)
  {
    Parsed(code).Some? && forall k :: 0 <= k < |Parsed(code).value| ==> Plain(Parsed(code).value[k])
  }

  lemma CompilableGood(code: string)
    requires Lexing.IsSource(code) && Compilable(code)
    ensures forall k :: 0 <= k < |Parsed(code).value| ==> Lowerable(Parsed(code).value[k])
    ensures GoodProgram(LowerUnit(Parsed(code).value))
  {
    hide ParseUnit, Plain, Lowerable, GoodFunc, FrontEnd.ToTokens;
    FrontEnd.LexedTokensEnd(code);
    var ts := FrontEnd.ToTokens(code, Lexing.Lex(code).value).value;
    UnitGood(ts, [], 0, 0);
    var fs := Parsed(code).value;
    NamesKept(fs);
  }

  lemma NamesKept(fs: seq<P.FuncTree>)
    requires forall k :: 0 <= k < |fs| ==> Lowerable(fs[k])
    ensures forall k :: 0 <= k < |fs| ==> LowerUnit(fs)[k].name == fs[k].name
  {
    hide Lowerable, LowerHead;
  }

  /** The program a source text means. */
  function Meaning(code: string): Program
    requires Lexing.IsSource(code) && Parsed(code).Some?
    requires forall k :: 0 <= k < |Parsed(code).value| ==> Lowerable(Parsed(code).value[k])
  {
    LowerUnit(Parsed(code).value)
  }

  /** Machine and compiler are set up for a call of function `name`: all tables
      suffice, leftovers of earlier compilations are harmless, and the machine has just
      called the function with these arguments and the stack that it needs. */
  ghost predicate Called(p: Program, header: seq<byte>, table: seq<Fixup>, base: word, fuel: nat, name: string, vals: seq<int>, m: State) {
    && |header| == HEADER_SIZE && |table| == MAX_FIXUPS && HarmlessTable(table, p)
    && WithinLimits(p) && base + 0x1_0000 < TWO64
    && |vals| <= 32 && Find(p, name) < |p|
    && m.rip == EntryOf(p, name) && m.rsp + 8 + 8 * |vals| < TWO64
    && m.rsp + 8 >= ApplyDepth(p, fuel, name, vals)
    && forall k :: 0 <= k < |vals| ==> IsLong(vals[k]) && Load64(m.mem, m.rsp + 8 + 8 * k) == ToWord(vals[k])
  }

  /** From text to machine: the linked image of a compilable source text, loaded
      anywhere, runs any of its functions to the result the source gives it, and
      returns to the caller with rbp and rsp as they were and nothing above the
      frame changed but the parameter cells. */
  lemma SourceRuns(code: string, header: seq<byte>, table: seq<Fixup>, base: word,
                   fuel: nat, name: string, vals: seq<int>, m: State) returns (m': State)
    requires Lexing.IsSource(code) && Compilable(code)
    requires forall k :: 0 <= k < |Parsed(code).value| ==> Lowerable(Parsed(code).value[k])
    requires Called(Meaning(code), header, table, base, fuel, name, vals, m)
    requires !Apply(Meaning(code), fuel, name, vals).Fail?
    ensures var fin := GenProgram(header, table, Meaning(code));
            SitesInside(fin, |fin.code|) && Section(fin) >= 0 && Reaches(Image(Linked(fin), base), m, m')
    ensures Left(Image([], base), vals, Apply(Meaning(code), fuel, name, vals), m, m')
  {
    hide Parsed, Lowerable, Plain, Apply, ApplyDepth, WithinLimits, GoodProgram, GenProgram, Linked, Load64, Reaches, EntryOf, Find, HarmlessTable;
    CompilableGood(code);
    m' := CompiledCallCorrect(header, table, Meaning(code), base, fuel, name, vals, m);
  }

  /** The same for the int meaning of the parsed trees: whenever it gives the call of a
      function on ints a result, and no negative number is ever stored in a local on the
      way, the machine comes back with that int in rax. */
  lemma SourceRunsOnInts(code: string, header: seq<byte>, table: seq<Fixup>, base: word,
                         fuel: nat, name: string, vals: seq<int>, m: State) returns (m': State)
    requires Lexing.IsSource(code) && Compilable(code)
    requires forall k :: 0 <= k < |Parsed(code).value| ==> Lowerable(Parsed(code).value[k])
    requires Called(Meaning(code), header, table, base, fuel, name, vals, m)
    requires (forall k :: 0 <= k < |vals| ==> IsInt(vals[k])) && ApplyInt(Meaning(code), fuel, name, vals, true).V?
    ensures var fin := GenProgram(header, table, Meaning(code));
            SitesInside(fin, |fin.code|) && Section(fin) >= 0 && Reaches(Image(Linked(fin), base), m, m')
    ensures m'.rax == ToWord(ApplyInt(Meaning(code), fuel, name, vals, true).v) && m'.rsp == m.rsp + 8 && m'.rbp == m.rbp
  {
    hide Parsed, Lowerable, Plain, Apply, ApplyInt, ApplyDepth, WithinLimits, GenProgram, Linked, Load64, Reaches, EntryOf, Find, HarmlessTable, Called;
    ApplyAgrees(Meaning(code), fuel, name, vals);
    m' := SourceRuns(code, header, table, base, fuel, name, vals, m);
  }

  // ----- texts that mean the same in C -----

  /** Function after function: no token between them is skipped, as that of a
      specifier the parser does not know would be. */
  predicate Unskipped(ts: seq<P.Token>, syms: seq<P.Symbol>, count: nat, i: nat)
    requires P.Ended(ts) && i < |ts|
    decreases |ts| - i
  {
    ts[i] == P.Eof ||
    (ts[i].Type? && FunctionAt(ts, i)
     && var f := P.ParseFunction(ts, syms, count, i);
        f.Ok? && Unskipped(ts, f.value.scope.syms, count + 1, f.next))
  }

  /** The parser takes the characters as C does: none of += -= << >>, of which it sees
      the first only; no line ends in a backslash; no block comment begins; variables
      are int and no pointers; nothing stands between the functions; and there is one,
      so that a call of a negated name names no function. */
  ghost predicate ReadsAsC(code: string)
    requires Lexing.IsSource(code) && Parsed(code).Some?
  {
    FrontEnd.LexedTokensEnd(code);
    var ls := Lexing.Lex(code).value;
    var ts := FrontEnd.ToTokens(code, ls).value;
    && (forall i :: 0 <= i < |ls| ==> !FrontEnd.Compound(FrontEnd.Spelling(code, ls[i])))
    && (forall i :: 0 <= i < |code| - 1 && code[i] == '\\' ==> code[i + 1] != '\n')
    && (forall i :: 0 <= i < |ts| - 1 ==> !(ts[i] == P.OpTok(Div) && ts[i + 1] == P.OpTok(Mul)))
    && (forall i :: 0 <= i < |ts| ==> ts[i] != P.Type("char"))
    && (forall i :: 0 <= i < |ts| - 1 && (ts[i].Type? || ts[i] == P.Comma) ==> ts[i + 1] != P.OpTok(Mul))
    && ts[0].Type? && Unskipped(ts, [], 0, 0)
  }

  /** A compilable text that the parser reads as C does, all of whose functions have
      different names and lie in the part of C the generator serves: plain literals,
      comparisons only on top of conditions and nothing but + - * / elsewhere, single
      statements as branches, one declaration in a for; and no name is used whose latest
      declaration was in a block that is over. */
  ghost predicate Portable(code: string)
    requires Lexing.IsSource(code)
  {
    && Compilable(code) && ReadsAsC(code)
    && (forall k :: 0 <= k < |Parsed(code).value| ==>
          Parsed(code).value[k].body.Some? && PlainBody(Parsed(code).value[k].body.value))
    && forall j, k :: 0 <= j < k < |Parsed(code).value| ==> Parsed(code).value[j].name != Parsed(code).value[k].name
  }

  predicate PlainBody(body: P.STrees) {
    CMeaning.PlainStmts(body) && FreshAll(body, {})
  }

  /** Every function of a unit was read in some scope, and its body is one block. */
  lemma {:induction false} UnitRead(ts: seq<P.Token>, syms: seq<P.Symbol>, count: nat, i: nat)
    requires P.Ended(ts) && i < |ts| && ParseUnit(ts, syms, count, i).Some?
    requires forall k :: 0 <= k < |ParseUnit(ts, syms, count, i).value| ==> ParseUnit(ts, syms, count, i).value[k].body.Some?
    ensures forall k :: 0 <= k < |ParseUnit(ts, syms, count, i).value| ==> WasRead(ParseUnit(ts, syms, count, i).value[k])
    decreases |ts| - i
  {
    hide P.ParseFunction, ReadIn, P.ParamsEnd, WasRead;
    if ts[i] == P.Eof {
    } else if !ts[i].Type? {
      UnitRead(ts, syms, count, i + 1);
    } else {
      var f := P.ParseFunction(ts, syms, count, i);
      var fs, rest := ParseUnit(ts, syms, count, i).value, ParseUnit(ts, f.value.scope.syms, count + 1, f.next).value;
      assert fs[0].body.Some?;
      var c := FunctionReadIn(ts, syms, count, i);
      FunctionIsBlock(ts, syms, count, i);
      ReadIs(fs[0], c, P.FirstText(ts));
      assert forall k :: 0 <= k < |rest| ==> rest[k] == fs[k + 1] && rest[k].body.Some?;
      UnitRead(ts, f.value.scope.syms, count + 1, f.next);
    }
  }

  ghost predicate WasRead(fn: P.FuncTree) {
    (exists c, first :: ReadIn(fn, c, first)) && Single(fn.body.value) && fn.body.value.head.SBlock?
  }

  lemma ReadIs(fn: P.FuncTree, c: P.Scope, first: string)
    requires ReadIn(fn, c, first) && Single(fn.body.value) && fn.body.value.head.SBlock?
    ensures WasRead(fn)
  {
    hide ReadIn;
  }

  lemma FunctionIsBlock(ts: seq<P.Token>, syms: seq<P.Symbol>, count: nat, i: nat)
    requires P.Ended(ts) && i < |ts| && ts[i].Type? && FunctionAt(ts, i)
    requires P.ParseFunction(ts, syms, count, i).Ok? && P.ParseFunction(ts, syms, count, i).value.fn.body.Some?
    ensures var body := P.ParseFunction(ts, syms, count, i).value.fn.body.value; Single(body) && body.head.SBlock?
  {
    hide P.ParseItems, P.ParseParams;
  }

  lemma PlainIsCommon(fn: P.FuncTree)
    requires WasRead(fn) && Plain(fn) && Lowerable(fn) && PlainBody(fn.body.value)
    ensures CMeaning.Common(fn)
  {
    hide ReadIn, UsesAll, ScalarAll, CMeaning.PlainStmts, FreshAll, ResolvesAll, KnownAll;
    var c, first :| ReadIn(fn, c, first);
    ScopedAsC(fn, c, first);
  }

  lemma PortableLowers(code: string)
    requires Lexing.IsSource(code) && Portable(code)
    requires forall k :: 0 <= k < |Parsed(code).value| ==> Lowerable(Parsed(code).value[k])
    ensures CMeaning.Lowers(Parsed(code).value, Meaning(code))
  {
    hide ParseUnit, Plain, Lowerable, CMeaning.Common, WasRead, PlainBody, FrontEnd.ToTokens, ReadsAsC, LowerFunc;
    FrontEnd.LexedTokensEnd(code);
    var ts := FrontEnd.ToTokens(code, Lexing.Lex(code).value).value;
    UnitRead(ts, [], 0, 0);
    forall k | 0 <= k < |Parsed(code).value| ensures CMeaning.Common(Parsed(code).value[k]) {
      PlainIsCommon(Parsed(code).value[k]);
    }
  }

  /** Against C itself, names by block scope and literals as C writes them: whenever C
      gives the call of a function of a portable text on ints a result, and no negative
      number is ever stored in a local on the way, the machine comes back with that int
      in rax. */
  lemma SourceRunsAsC(code: string, header: seq<byte>, table: seq<Fixup>, base: word,
                      fuel: nat, name: string, vals: seq<int>, m: State) returns (m': State)
    requires Lexing.IsSource(code) && Portable(code)
    requires forall k :: 0 <= k < |Parsed(code).value| ==> Lowerable(Parsed(code).value[k])
    requires Called(Meaning(code), header, table, base, fuel, name, vals, m)
    requires (forall k :: 0 <= k < |vals| ==> IsInt(vals[k])) && CMeaning.CApply(Parsed(code).value, fuel, name, vals, true).V?
    ensures var fin := GenProgram(header, table, Meaning(code));
            SitesInside(fin, |fin.code|) && Section(fin) >= 0 && Reaches(Image(Linked(fin), base), m, m')
    ensures m'.rax == ToWord(CMeaning.CApply(Parsed(code).value, fuel, name, vals, true).v) && m'.rsp == m.rsp + 8 && m'.rbp == m.rbp
  {
    hide Parsed, Lowerable, PlainBody, ReadsAsC, ApplyInt, CMeaning.CApply, WithinLimits, GenProgram, Linked, Reaches, HarmlessTable, Called, Meaning, CMeaning.Lowers,
         Plain;
    PortableLowers(code);
    CAgreement.ApplyFollows(Parsed(code).value, Meaning(code), fuel, name, vals, true);
    m' := SourceRunsOnInts(code, header, table, base, fuel, name, vals, m);
  }
}
