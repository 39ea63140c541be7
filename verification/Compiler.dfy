/** Whole programs: every function lands at its entry, and calling it works. */
module Compiler {
  import opened Words
  import opened Memory
  import opened Machine
  import opened Options
  import opened Ast
  import opened Layout
  import opened Codegen
  import opened Patching
  import opened Placement
  import opened BodyPlacement
  import opened Leftovers
  import opened Simulation

  /** Symbols registered for the first `n` functions. */
  function Symbols(p: Program, n: nat): (r: seq<FuncSym>)
    requires n <= |p|
    ensures |r| == n
    ensures forall i :: 0 <= i < n ==> r[i].name == Trunc(p[i].name)
  {
    if n == 0 then [] else Symbols(p, n - 1) + [FuncSym(Trunc(p[n - 1].name), HEADER_SIZE + FuncsSize(p, n - 1))]
  }

  function FuncCost(funcs: seq<FuncSym>, f: Func): Cost {
    Plus(Plus(Bytes(11), if f.body.Some? then StmtCost(funcs, f.body.value) else NOTHING), Bytes(2))
  }

  /** What the first `n` functions use; a function already knows itself. */
  function ProgramCost(p: Program, n: nat): Cost
    requires n <= |p|
  {
    if n == 0 then NOTHING else Plus(ProgramCost(p, n - 1), FuncCost(Symbols(p, n), p[n - 1]))
  }

  /** All fixed-size tables and buffers suffice. */
  ghost predicate WithinLimits(p: Program) {
    var c := ProgramCost(p, |p|);
    && |p| <= MAX_FUNCS && (forall i :: 0 <= i < |p| ==> |p[i].name| <= 63)
    && HEADER_SIZE + c.code + Padding(HEADER_SIZE + c.code) + c.pool <= CODE_BUF_SIZE
    && 1 + c.labels <= MAX_LABELS && c.fixups <= MAX_FIXUPS
    && c.strs <= MAX_STR_FIXUPS && c.pool < MAX_STR_POOL
  }

  ghost predicate CleanStart(header: seq<byte>, table: seq<Fixup>) {
    |header| == HEADER_SIZE && |table| == MAX_FIXUPS && Unmarked(table, 0)
  }

  lemma BeginSound(header: seq<byte>, table: seq<Fixup>)
    requires CleanStart(header, table)
    ensures Sound(Begin(header, table))
  {
  }

  lemma RegisterFacts(g: Gen, name: string)
    requires Sound(g) && |g.funcs| < MAX_FUNCS
    ensures var r := RegisterFunc(g, name);
            && Sound(r) && Extends(g, r) && r == g.(funcs := g.funcs + [FuncSym(Trunc(name), |g.code|)])
  {
  }

  lemma PrologueSizes(i: i32)
    ensures |Encode(PushRbp)| == 1 && |Encode(MovRbpRsp)| == 3 && |Encode(SubRsp(i))| == 7
  {
  }

  lemma PrologueGrows(g: Gen, localBytes: nat)
    requires Sound(g) && Fits(g, Bytes(11))
    ensures Grows(g, EmitPrologue(g, localBytes), Bytes(11))
  {
    hide Grows, Sound, EmitI, Encode;
    var i := SubRsp(SignedInt(ToU32(FrameSize(localBytes))));
    PrologueSizes(SignedInt(ToU32(FrameSize(localBytes))));
    var g1 := EmitI(EmitI(g, PushRbp), MovRbpRsp);
    TwoGrows(g, PushRbp, MovRbpRsp);
    GrowsFacts(g, g1, Bytes(4));
    OneGrows(g1, i);
    GrowsTrans(g, g1, EmitI(g1, i), Bytes(4), Bytes(7));
  }

  lemma ProloguePlaced(g: Gen, localBytes: nat, f: Gen, en: Entries)
    requires Sound(g) && Fits(g, Bytes(11)) && Extends(EmitPrologue(g, localBytes), f) && Final(f, en)
    ensures var a, code := |g.code|, Linked(f);
            && At(code, a, PushRbp) && At(code, a + 1, MovRbpRsp)
            && At(code, a + 4, SubRsp(SignedInt(ToU32(FrameSize(localBytes)))))
  {
    hide Grows, Sound, EmitI, Encode, Extends, Linked, Final, At;
    FinalSound(f, en);
    var i := SubRsp(SignedInt(ToU32(FrameSize(localBytes))));
    PrologueSizes(SignedInt(ToU32(FrameSize(localBytes))));
    var g1 := EmitI(EmitI(g, PushRbp), MovRbpRsp);
    TwoGrows(g, PushRbp, MovRbpRsp);
    GrowsFacts(g, g1, Bytes(4));
    OneGrows(g1, i);
    Before(g1, EmitI(g1, i), Bytes(7), f);
    TwoLinked(g, PushRbp, MovRbpRsp, f, en);
    OneLinked(g1, i, f, en);
  }

  /** Tables after the registration, the prologue and the body. */
  lemma FuncParts(g: Gen, f: Func) returns (g1: Gen, g2: Gen, g3: Gen)
    requires Sound(g) && GoodFunc(f) && |g.funcs| < MAX_FUNCS
    requires Fits(g, FuncCost(RegisterFunc(g, f.name).funcs, f))
    ensures g1 == RegisterFunc(g, f.name) && Sound(g1) && Extends(g, g1) && g1.code == g.code
    ensures Fits(g1, Bytes(11)) && g2 == EmitPrologue(g1, f.localBytes) && Grows(g1, g2, Bytes(11))
    ensures Fits(g2, StmtCost(g2.funcs, f.body.value)) && g2.funcs == g1.funcs
    ensures g3 == GenStmt(g2, f.body.value) && Grows(g2, g3, StmtCost(g1.funcs, f.body.value))
    ensures StmtCost(g1.funcs, f.body.value).code == BodySize(f)
    ensures Fits(g3, Bytes(2)) && Grows(g3, EmitEpilogue(g3), Bytes(2))
    ensures FuncCost(g1.funcs, f).code == FuncSize(f)
    ensures Grows(g1, GenFunc(g, f), FuncCost(g1.funcs, f)) && GenFunc(g, f) == EmitEpilogue(g3)
  {
    hide Grows, Sound, EmitI, EmitPrologue, Extends, GenStmt, StmtCost, StmtSize, GoodStmt, Encode;
    g1 := RegisterFunc(g, f.name);
    RegisterFacts(g, f.name);
    g2 := EmitPrologue(g1, f.localBytes);
    PrologueGrows(g1, f.localBytes);
    GrowsFacts(g1, g2, Bytes(11));
    g3 := GenStmt(g2, f.body.value);
    var k := StmtCost(g1.funcs, f.body.value);
    StmtGrows(g2, f.body.value, f.localBytes);
    GrowsFacts(g2, g3, k);
    EpilogueSizes();
    TwoGrows(g3, Leave, Ret);
    GrowsTrans(g1, g2, g3, Bytes(11), k);
    GrowsTrans(g1, g3, EmitEpilogue(g3), Plus(Bytes(11), k), Bytes(2));
  }

  lemma FuncPlaced(g: Gen, f: Func, fin: Gen, en: Entries)
    requires Sound(g) && GoodFunc(f) && |g.funcs| < MAX_FUNCS
    requires Fits(g, FuncCost(RegisterFunc(g, f.name).funcs, f))
    requires Extends(GenFunc(g, f), fin) && Final(fin, en)
    ensures FuncAt(Linked(fin), en, f, |g.code|)
  {
    hide Grows, Sound, EmitI, EmitPrologue, Extends, Linked, Final, GenStmt, StmtCost, StmtSize, GoodStmt, At, StmtAt, GenFunc, Fits, Encode;
    FinalSound(fin, en);
    EpilogueSizes();
    var g1, g2, g3 := FuncParts(g, f);
    GrowsFacts(g1, g2, Bytes(11));
    GrowsFacts(g2, g3, StmtCost(g1.funcs, f.body.value));
    Before(g3, EmitEpilogue(g3), Bytes(2), fin);
    Before(g2, g3, StmtCost(g1.funcs, f.body.value), fin);
    ProloguePlaced(g1, f.localBytes, fin, en);
    StmtPlaced(g2, f.body.value, f.localBytes, fin, en);
    TwoLinked(g3, Leave, Ret, fin, en);
  }

  /** Counters of the tables after `n` functions. */
  ghost predicate Counted(g: Gen, p: Program, n: nat)
    requires n <= |p|
  {
    var c := ProgramCost(p, n);
    && Sound(g) && g.funcs == Symbols(p, n)
    && |g.code| == HEADER_SIZE + c.code && c.code == FuncsSize(p, n)
    && g.nextLabel == 1 + c.labels && g.fixups == c.fixups && |g.strs| == c.strs && |g.pool| == c.pool
  }

  lemma {:induction false} CostGrows(p: Program, m: nat, n: nat)
    requires m <= n <= |p|
    ensures var a, b := ProgramCost(p, m), ProgramCost(p, n);
            a.code <= b.code && a.labels <= b.labels && a.fixups <= b.fixups && a.strs <= b.strs && a.pool <= b.pool
    decreases n
  {
    hide FuncCost, Symbols;
    if m < n { CostGrows(p, m, n - 1); }
  }

  lemma BeginCounted(header: seq<byte>, table: seq<Fixup>, p: Program)
    requires CleanStart(header, table)
    ensures Counted(Begin(header, table), p, 0)
  {
    hide Sound;
    BeginSound(header, table);
  }

  /** The limits of the whole program leave room for each function. */
  lemma RoomForNext(g: Gen, p: Program, n: nat)
    requires WithinLimits(p) && n < |p| && Counted(g, p, n)
    ensures FuncFits(g, p, n)
  {
    hide Sound, FuncCost, Padding, Symbols;
    CostGrows(p, n + 1, |p|);
  }

  lemma {:induction false} FuncsCounted(header: seq<byte>, table: seq<Fixup>, p: Program, n: nat)
    requires CleanStart(header, table) && GoodProgram(p) && WithinLimits(p) && n <= |p|
    ensures Counted(GenFuncs(Begin(header, table), p, n), p, n)
    ensures n < |p| ==> FuncFits(GenFuncs(Begin(header, table), p, n), p, n)
    decreases n
  {
    hide Counted, FuncFits, GenFunc, Begin, CleanStart, WithinLimits, GoodFunc;
    var g := GenFuncs(Begin(header, table), p, n);
    if n == 0 {
      BeginCounted(header, table, p);
    } else {
      FuncsCounted(header, table, p, n - 1);
      FuncCounted(GenFuncs(Begin(header, table), p, n - 1), p, n - 1);
    }
    if n < |p| { RoomForNext(g, p, n); }
  }

  /** The next function finds room in the tables. */
  ghost predicate FuncFits(g: Gen, p: Program, n: nat)
    requires n < |p|
  {
    |g.funcs| < MAX_FUNCS && Fits(g, FuncCost(Symbols(p, n + 1), p[n]))
  }

  lemma FuncCounted(g: Gen, p: Program, n: nat)
    requires n < |p| && GoodFunc(p[n]) && Counted(g, p, n) && FuncFits(g, p, n)
    ensures Counted(GenFunc(g, p[n]), p, n + 1) && Extends(g, GenFunc(g, p[n]))
    ensures RegisterFunc(g, p[n].name).funcs == Symbols(p, n + 1)
  {
    hide *;
    NextSymbol(g, p, n);
    FuncFitsRegistered(g, p, n);
    var f := p[n];
    var g1, g2, g3 := FuncParts(g, f);
    var r := GenFunc(g, f);
    GrowsFacts(g1, r, FuncCost(g1.funcs, f));
    ExtendsTrans(g, g1, r);
    CountedNext(g, g1, r, p, n);
  }

  /** Registering the next function extends the symbol table by one. */
  lemma NextSymbol(g: Gen, p: Program, n: nat)
    requires n < |p| && Counted(g, p, n) && FuncFits(g, p, n)
    ensures RegisterFunc(g, p[n].name) == g.(funcs := Symbols(p, n + 1))
  {
    hide Sound, FuncCost, Fits, ProgramCost;
  }

  lemma FuncFitsRegistered(g: Gen, p: Program, n: nat)
    requires n < |p| && FuncFits(g, p, n) && RegisterFunc(g, p[n].name) == g.(funcs := Symbols(p, n + 1))
    requires Counted(g, p, n)
    ensures Sound(g) && |g.funcs| < MAX_FUNCS && Fits(g, FuncCost(RegisterFunc(g, p[n].name).funcs, p[n]))
  {
    hide Sound, FuncCost, Fits, ProgramCost, RegisterFunc, Symbols;
  }

  lemma CountedNext(g: Gen, g1: Gen, r: Gen, p: Program, n: nat)
    requires n < |p| && Counted(g, p, n) && Sound(r) && r.funcs == g1.funcs == Symbols(p, n + 1)
    requires g1 == g.(funcs := Symbols(p, n + 1))
    requires var c := FuncCost(g1.funcs, p[n]);
             && c.code == FuncSize(p[n])
             && |r.code| == |g1.code| + c.code && r.nextLabel == g1.nextLabel + c.labels
             && r.fixups == g1.fixups + c.fixups && |r.strs| == |g1.strs| + c.strs && |r.pool| == |g1.pool| + c.pool
    ensures Counted(r, p, n + 1)
  {
    hide Sound, FuncCost, Symbols, FuncSize;
  }

  lemma GoodFuncBody(f: Func)
    requires GoodFunc(f)
    ensures f.body.Some?
  {
  }

  lemma {:induction false} FuncsExtend(header: seq<byte>, table: seq<Fixup>, p: Program, m: nat, n: nat)
    requires CleanStart(header, table) && GoodProgram(p) && WithinLimits(p) && m <= n <= |p|
    ensures Extends(GenFuncs(Begin(header, table), p, m), GenFuncs(Begin(header, table), p, n))
    decreases n
  {
    hide Extends, WithinLimits, GoodFunc, CleanStart, GenFunc, Begin, Counted, FuncFits, Sound, Grows;
    var a, b := GenFuncs(Begin(header, table), p, m), GenFuncs(Begin(header, table), p, n);
    if m == n {
      FuncsCounted(header, table, p, n);
      CountedSelf(a, p, n);
    } else {
      var c := GenFuncs(Begin(header, table), p, n - 1);
      FuncsExtend(header, table, p, m, n - 1);
      FuncsCounted(header, table, p, n - 1);
      FuncCounted(c, p, n - 1);
      ExtendsTrans(a, c, b);
    }
  }

  lemma CountedSelf(g: Gen, p: Program, n: nat)
    requires n <= |p| && Counted(g, p, n)
    ensures Extends(g, g)
  {
    hide Symbols, ProgramCost, FuncsSize;
  }

  // ----- entries -----

  function EntryOf(p: Program, name: string): nat
    requires Find(p, name) < |p|
  {
    HEADER_SIZE + FuncsSize(p, Find(p, name))
  }

  function EntriesOf(p: Program): Entries {
    map name | name in (set i | 0 <= i < |p| :: p[i].name) && Find(p, name) < |p| :: EntryOf(p, name)
  }

  lemma {:induction false} FindAppend(a: seq<FuncSym>, s: FuncSym, name: string)
    ensures FindFunc(a + [s], name)
         == if FindFunc(a, name) != -1 then FindFunc(a, name) else if s.name == name then s.offset else -1
    decreases a
  {
    if a == [] {
      assert a + [s] == [s];
      assert [s][1..] == [];
    } else {
      assert (a + [s])[1..] == a[1..] + [s];
      FindAppend(a[1..], s, name);
    }
  }

  /** Looking a function up by name in the symbol table. */
  lemma {:induction false} FindSymbol(p: Program, n: nat, name: string)
    requires n <= |p| && forall i :: 0 <= i < |p| ==> |p[i].name| <= 63
    ensures Find(p, name) < n ==> FindFunc(Symbols(p, n), name) == EntryOf(p, name)
    ensures Find(p, name) >= n ==> FindFunc(Symbols(p, n), name) == -1
    decreases n
  {
    hide FuncsSize;
    if n > 0 {
      FindSymbol(p, n - 1, name);
      FindAppend(Symbols(p, n - 1), Symbols(p, n)[n - 1], name);
    }
  }

  // ----- the finished image -----

  /** Padding and the string pool fit behind the functions. */
  lemma RoomForPool(g: Gen, p: Program)
    requires WithinLimits(p) && Counted(g, p, |p|)
    ensures var c := ProgramCost(p, |p|);
            && Sound(g) && |g.code| == HEADER_SIZE + c.code && |g.pool| == c.pool && g.funcs == Symbols(p, |p|)
            && |g.code| + Padding(|g.code|) + |g.pool| <= CODE_BUF_SIZE
  {
    hide Sound, ProgramCost, Padding, Symbols, FuncsSize;
  }

  /** The tables after padding and pool. */
  lemma PoolEmitted(g: Gen) returns (fin: Gen)
    requires Sound(g) && |g.code| + Padding(|g.code|) + |g.pool| <= CODE_BUF_SIZE
    ensures fin == EmitPool(Align(g)) && Extends(g, fin) && fin.funcs == g.funcs
    ensures |fin.code| == |g.code| + Padding(|g.code|) + |g.pool|
    ensures Sound(fin) && Section(fin) >= 0 && PoolLinked(fin)
  {
    hide Extends, Sound, Padding, Grows, Linked, Nops, PoolLinked;
    var nops := Nops(Padding(|g.code|));
    EmitGrows(g, nops);
    var a := Align(g);
    GrowsFacts(g, a, Bytes(|nops|));
    EmitGrows(a, a.pool);
    fin := EmitPool(a);
    GrowsFacts(a, fin, Bytes(|a.pool|));
    ExtendsTrans(g, a, fin);
    PoolIsLinked(a);
  }

  lemma ProgramFinal(header: seq<byte>, table: seq<Fixup>, p: Program) returns (fin: Gen)
    requires CleanStart(header, table) && GoodProgram(p) && WithinLimits(p)
    ensures fin == GenProgram(header, table, p) && Final(fin, EntriesOf(p))
    ensures Extends(GenFuncs(Begin(header, table), p, |p|), fin)
    ensures |fin.code| == HEADER_SIZE + ProgramCost(p, |p|).code + Padding(HEADER_SIZE + ProgramCost(p, |p|).code) + ProgramCost(p, |p|).pool
  {
    hide Extends, Sound, GoodProgram, FuncsSize, Padding, Begin, CleanStart, ProgramCost, GenFuncs, Symbols, FindFunc, Find,
         EmitPool, Align, Final, PoolLinked, Counted, Section;
    var g := GenFuncs(Begin(header, table), p, |p|);
    FuncsCounted(header, table, p, |p|);
    RoomForPool(g, p);
    fin := PoolEmitted(g);
    forall name | name in EntriesOf(p)
      ensures |name| <= 63 && FindFunc(fin.funcs, name) == EntriesOf(p)[name]
    {
      FindSymbol(p, |p|, name);
    }
    FinalIs(fin, EntriesOf(p));
  }

  lemma FinalIs(f: Gen, en: Entries)
    requires Sound(f) && Section(f) >= 0 && PoolLinked(f)
    requires forall name :: name in en ==> |name| <= 63 && FindFunc(f.funcs, name) == en[name]
    ensures Final(f, en)
  {
  }

  lemma PoolIsLinked(a: Gen)
    requires Sound(a) && |a.code| + |a.pool| <= CODE_BUF_SIZE
    ensures var f := EmitPool(a); Sound(f) && Section(f) == |a.code| && PoolLinked(f)
  {
    hide Sound, Extends, Linked;
    EmitGrows(a, a.pool);
    var f := EmitPool(a);
    GrowsFacts(a, f, Bytes(|a.pool|));
    GrowsSelf(f);
    GrowsFacts(f, f, NOTHING);
    EmitKeepsTables(a, a.pool);
    SoundInside(f);
    PlainLinked(a, f, f);
    assert (a.code + a.pool)[|a.code|..] == a.pool;
    assert Linked(f)[|a.code|..|f.code|] == Linked(f)[|a.code|..];
  }

  lemma SoundInside(g: Gen)
    requires Sound(g)
    ensures SitesInside(g, |g.code|)
  {
  }

  lemma EmitKeepsTables(g: Gen, bs: seq<byte>)
    ensures Emit(g, bs) == g.(code := Emit(g, bs).code)
  {
  }

  /** The linked bytes hold the function of every name at its entry: labels, fixups and
      call targets, forward and backward, are all resolved to the right offsets. */
  lemma ProgramPlaced(header: seq<byte>, table: seq<Fixup>, p: Program)
    requires CleanStart(header, table) && GoodProgram(p) && WithinLimits(p)
    ensures var fin := GenProgram(header, table, p);
            Sound(fin) && Section(fin) >= 0 && ProgramAt(Linked(fin), EntriesOf(p), p)
  {
    hide Extends, Sound, WithinLimits, FuncAt, GoodFunc, FuncCost, ProgramCost, FuncsSize, CleanStart, Begin, Linked, EntriesOf, Find, GenFuncs, Final, SitesInside,
         Section, GenProgram, Padding;
    var en := EntriesOf(p);
    var fin := ProgramFinal(header, table, p);
    FinalSound(fin, en);
    assert |fin.code| <= 0x1_0000 by { ImageSize(fin); }
    forall i | 0 <= i < |p| && Find(p, p[i].name) == i
      ensures p[i].name in en && en[p[i].name] <= |fin.code| && FuncAt(Linked(fin), en, p[i], en[p[i].name])
    {
      OneFuncPlaced(header, table, p, i, fin);
      EntryFacts(p, i);
    }
  }

  lemma ImageSize(f: Gen)
    requires Sound(f)
    ensures |f.code| <= CODE_BUF_SIZE
  {
  }

  lemma ProgramFunc(p: Program, i: nat)
    requires GoodProgram(p) && i < |p|
    ensures GoodFunc(p[i])
  {
  }

  lemma EntryFacts(p: Program, i: nat)
    requires i < |p| && Find(p, p[i].name) == i
    ensures p[i].name in EntriesOf(p) && EntriesOf(p)[p[i].name] == HEADER_SIZE + FuncsSize(p, i)
  {
    hide FuncsSize;
  }

  lemma CountedFacts(g: Gen, p: Program, n: nat)
    requires n <= |p| && Counted(g, p, n)
    ensures Sound(g) && |g.code| == HEADER_SIZE + FuncsSize(p, n)
  {
    hide Sound, Symbols, ProgramCost, FuncsSize;
  }

  /** Each function lies where those before it end. */
  lemma OneFuncPlaced(header: seq<byte>, table: seq<Fixup>, p: Program, i: nat, fin: Gen)
    requires CleanStart(header, table) && GoodProgram(p) && WithinLimits(p) && i < |p|
    requires Final(fin, EntriesOf(p)) && Extends(GenFuncs(Begin(header, table), p, |p|), fin)
    ensures HEADER_SIZE + FuncsSize(p, i) <= |fin.code| && Sound(fin) && SitesInside(fin, |fin.code|) && Section(fin) >= 0
    ensures FuncAt(Linked(fin), EntriesOf(p), p[i], HEADER_SIZE + FuncsSize(p, i))
  {
    hide Extends, Sound, WithinLimits, FuncAt, GoodFunc, FuncCost, CleanStart, Final, Begin, GenFunc, Linked, Symbols,
         RegisterFunc, StmtCost, ProgramCost, FuncsSize, EntriesOf, Counted, Fits;
    var en := EntriesOf(p);
    FinalSound(fin, en);
    var g := GenFuncs(Begin(header, table), p, i);
    FuncsCounted(header, table, p, i);
    FuncCounted(g, p, i);
    FuncsExtend(header, table, p, i + 1, |p|);
    ExtendsTrans(GenFuncs(Begin(header, table), p, i + 1), GenFuncs(Begin(header, table), p, |p|), fin);
    ExtendsTrans(g, GenFunc(g, p[i]), fin);
    ExtendsLonger(g, fin);
    CountedFacts(g, p, i);
    ProgramFunc(p, i);
    FuncPlaced(g, p[i], fin, en);
  }

  // ----- whatever an earlier compilation left in the fixup table -----

  /** The records of the first `n` functions. */
  function ProgramJumps(p: Program, n: nat): seq<Jump>
    requires n <= |p|
  {
    if n == 0 then []
    else
      ProgramJumps(p, n - 1)
      + if p[n - 1].body.Some? then StmtJumps(Symbols(p, n), p[n - 1].body.value, BodyStart(p, n - 1)) else []
  }

  function BodyStart(p: Program, k: nat): nat
    requires k < |p|
  {
    HEADER_SIZE + FuncsSize(p, k) + 11
  }

  /** No mark that the table still carries falls on a record used by a test jump of
      the program, save where it names none of its functions and the jump skips
      nothing. */
  predicate HarmlessTable(table: seq<Fixup>, p: Program) {
    forall i :: 0 <= i < |ProgramJumps(p, |p|)| && i < |table| ==> Harmless(table[i], ProgramJumps(p, |p|)[i], p)
  }

  lemma FuncAlike(g: Gen, c: Gen, t: seq<Fixup>, js: seq<Jump>, p: Program, n: nat)
    requires n < |p| && Alike(g, c, t, js) && GoodFunc(p[n]) && Counted(c, p, n) && FuncFits(c, p, n)
    ensures Alike(GenFunc(g, p[n]), GenFunc(c, p[n]), t, js + StmtJumps(Symbols(p, n + 1), p[n].body.value, BodyStart(p, n)))
  {
    hide *;
    NextSymbol(c, p, n);
    FuncFitsRegistered(c, p, n);
    var f := p[n];
    var c1, c2, c3 := FuncParts(c, f);
    var g1 := RegisterFunc(g, f.name);
    RegisterAlike(g, c, t, js, f.name);
    GrowsFacts(c1, c2, Bytes(11));
    SoundBound(c1);
    PrologueAlike(g1, c1, t, js, f.localBytes);
    var g2 := EmitPrologue(g1, f.localBytes);
    GoodFuncBody(f);
    GoodFuncStmt(f);
    StmtAlike(g2, c2, t, js, f.body.value, f.localBytes);
    var js3 := js + StmtJumps(c2.funcs, f.body.value, |c2.code|);
    var g3 := GenStmt(g2, f.body.value);
    GrowsFacts(c2, c3, StmtCost(c1.funcs, f.body.value));
    SoundBound(c3);
    AlikeRoom(g3, c3, t, js3);
    TwoAlike(g3, c3, t, js3, Leave, Ret);
    CountedFacts(c, p, n);
    BodyStartIs(p, n);
    FuncIs(g, f);
    FuncIs(c, f);
  }

  lemma BodyStartIs(p: Program, k: nat)
    requires k < |p|
    ensures BodyStart(p, k) == HEADER_SIZE + FuncsSize(p, k) + 11 >= 2 && Bytes(11).code == 11
  {
  }

  lemma GoodFuncStmt(f: Func)
    requires GoodFunc(f)
    ensures f.body.Some? && GoodStmt(f.body.value, f.localBytes)
  {
    hide GoodStmt;
  }

  lemma FuncIs(g: Gen, f: Func)
    requires f.body.Some?
    ensures GenFunc(g, f) == EmitI(EmitI(GenStmt(EmitPrologue(RegisterFunc(g, f.name), f.localBytes), f.body.value), Leave), Ret)
  {
    hide GenStmt, EmitI, EmitPrologue;
  }

  lemma RegisterAlike(g: Gen, c: Gen, t: seq<Fixup>, js: seq<Jump>, name: string)
    requires Alike(g, c, t, js)
    ensures Alike(RegisterFunc(g, name), RegisterFunc(c, name), t, js)
  {
  }

  lemma PrologueAlike(g: Gen, c: Gen, t: seq<Fixup>, js: seq<Jump>, localBytes: nat)
    requires Alike(g, c, t, js) && |c.code| <= CODE_BUF_SIZE
    ensures Alike(EmitPrologue(g, localBytes), EmitPrologue(c, localBytes), t, js)
  {
    hide Alike, EmitI;
    AlikeRoom(g, c, t, js);
    TwoAlike(g, c, t, js, PushRbp, MovRbpRsp);
    EmitIAlike(EmitI(EmitI(g, PushRbp), MovRbpRsp), EmitI(EmitI(c, PushRbp), MovRbpRsp), t, js,
               SubRsp(SignedInt(ToU32(FrameSize(localBytes)))));
  }

  /** Compiling from any table and from the same table without marks. */
  lemma {:induction false} FuncsAlike(header: seq<byte>, table: seq<Fixup>, p: Program, n: nat)
    requires |header| == HEADER_SIZE && |table| == MAX_FIXUPS && GoodProgram(p) && WithinLimits(p) && n <= |p|
    ensures CleanStart(header, Cleared(table))
    ensures Alike(GenFuncs(Begin(header, table), p, n), GenFuncs(Begin(header, Cleared(table)), p, n), table, ProgramJumps(p, n))
    decreases n
  {
    hide Counted, FuncFits, GenFunc, WithinLimits, GoodFunc, StmtJumps, Symbols, FuncsSize, Alike;
    if n == 0 {
      BeginAlike(header, table);
    } else {
      FuncsAlike(header, table, p, n - 1);
      FuncsCounted(header, Cleared(table), p, n - 1);
      GoodFuncBody(p[n - 1]);
      FuncAlike(GenFuncs(Begin(header, table), p, n - 1), GenFuncs(Begin(header, Cleared(table)), p, n - 1), table, ProgramJumps(p, n - 1), p, n - 1);
    }
  }

  lemma BeginAlike(header: seq<byte>, table: seq<Fixup>)
    requires |table| == MAX_FIXUPS
    ensures Alike(Begin(header, table), Begin(header, Cleared(table)), table, [])
  {
  }

  lemma ProgramAlike(header: seq<byte>, table: seq<Fixup>, p: Program)
    requires |header| == HEADER_SIZE && |table| == MAX_FIXUPS && GoodProgram(p) && WithinLimits(p)
    ensures Alike(GenProgram(header, table, p), GenProgram(header, Cleared(table), p), table, ProgramJumps(p, |p|))
  {
    hide Alike, Counted, WithinLimits, GoodProgram, Begin, GenFuncs, ProgramJumps, Cleared, CleanStart, Nops, Padding;
    FuncsAlike(header, table, p, |p|);
    FuncsCounted(header, Cleared(table), p, |p|);
    var g, c, js := GenFuncs(Begin(header, table), p, |p|), GenFuncs(Begin(header, Cleared(table)), p, |p|), ProgramJumps(p, |p|);
    CountedFacts(c, p, |p|);
    SoundBound(c);
    AlikeRoom(g, c, table, js);
    EmitAlike(g, c, table, js, Nops(Padding(|g.code|)));
    EmitBound(g, Nops(Padding(|g.code|)));
    AlikeRoom(Align(g), Align(c), table, js);
    EmitAlike(Align(g), Align(c), table, js, Align(g).pool);
  }

  lemma {:induction false} SizesGrow(p: Program, m: nat, n: nat)
    requires m <= n <= |p|
    ensures FuncsSize(p, m) <= FuncsSize(p, n)
    decreases n
  {
    if m < n { SizesGrow(p, m, n - 1); }
  }

  /** The function a test jump lies in; no function starts where it goes. */
  lemma {:induction false} JumpHome(p: Program, n: nat, j: Jump) returns (k: nat)
    requires GoodProgram(p) && n <= |p| && j.Test? && j in ProgramJumps(p, n)
    ensures k < n && j in StmtJumps(Symbols(p, k + 1), p[k].body.value, BodyStart(p, k))
    ensures BodyStart(p, k) < j.site && j.site + 4 <= j.target <= BodyStart(p, k) + BodySize(p[k])
    ensures forall m: nat :: m < |p| ==> HEADER_SIZE + FuncsSize(p, m) != j.target
    ensures j.target <= HEADER_SIZE + FuncsSize(p, |p|)
    decreases n
  {
    hide StmtJumps, Symbols, StmtSize, GoodFunc;
    GoodFuncBody(p[n - 1]);
    var js := StmtJumps(Symbols(p, n), p[n - 1].body.value, BodyStart(p, n - 1));
    if j in js {
      k := n - 1;
      JumpsBetween(Symbols(p, n), p[k].body.value, BodyStart(p, k));
      assert Between(j, BodyStart(p, k), BodyStart(p, k) + StmtSize(p[k].body.value));
      forall m: nat | m < |p| ensures HEADER_SIZE + FuncsSize(p, m) != j.target {
        if m <= k { SizesGrow(p, m, k); } else { SizesGrow(p, k + 1, m); }
      }
      SizesGrow(p, k + 1, |p|);
    } else {
      k := JumpHome(p, n - 1, j);
    }
  }

  /** The image is at least as long as its functions. */
  lemma FunctionsInside(header: seq<byte>, table: seq<Fixup>, p: Program)
    requires CleanStart(header, table) && GoodProgram(p) && WithinLimits(p)
    ensures var c := GenProgram(header, table, p);
            Sound(c) && Section(c) >= 0 && HEADER_SIZE + FuncsSize(p, |p|) <= |c.code|
  {
    hide Sound, WithinLimits, GoodFunc, ProgramCost, FuncsSize, CleanStart, Begin, GenProgram, Padding, GenFuncs, EntriesOf;
    var fin := ProgramFinal(header, table, p);
    FinalSound(fin, EntriesOf(p));
    FuncsCounted(header, table, p, |p|);
    CountedCode(GenFuncs(Begin(header, table), p, |p|), p);
  }

  /** Test jumps of the image from a cleared table. */
  lemma JumpPlaced(header: seq<byte>, table: seq<Fixup>, p: Program, j: Jump)
    requires CleanStart(header, table) && GoodProgram(p) && WithinLimits(p) && j.Test? && j in ProgramJumps(p, |p|)
    ensures var c := GenProgram(header, table, p);
            && Sound(c) && Section(c) >= 0 && Lands(Linked(c), j)
            && 2 <= j.site && j.site + 4 <= j.target <= |c.code|
    ensures forall name :: Find(p, name) < |p| ==> EntryOf(p, name) != j.target
  {
    hide *;
    FunctionsInside(header, table, p);
    ProgramPlaced(header, table, p);
    var c := GenProgram(header, table, p);
    SoundInside(c);
    var k := JumpHome(p, |p|, j);
    ProgramFunc(p, k);
    GoodFuncBody(p[k]);
    BodyStartIs(p, k);
    BodyOf(header, table, p, k);
    JumpsLand(Linked(c), EntriesOf(p), Symbols(p, k + 1), p[k].body.value, BodyStart(p, k));
    forall name | Find(p, name) < |p| ensures EntryOf(p, name) != j.target {
      EntryIs(p, name);
    }
  }

  lemma EntryIs(p: Program, name: string)
    requires Find(p, name) < |p|
    ensures EntryOf(p, name) == HEADER_SIZE + FuncsSize(p, Find(p, name))
  {
  }

  /** The body of each function is in place. */
  lemma BodyOf(header: seq<byte>, table: seq<Fixup>, p: Program, k: nat)
    requires CleanStart(header, table) && GoodProgram(p) && WithinLimits(p) && k < |p|
    ensures var c := GenProgram(header, table, p);
            && Sound(c) && Section(c) >= 0 && p[k].body.Some?
            && StmtAt(Linked(c), EntriesOf(p), p[k].body.value, BodyStart(p, k))
  {
    hide Sound, WithinLimits, GoodFunc, CleanStart, GenProgram, StmtAt, At, Linked, EntriesOf, FuncsSize, Final, Extends, GenFuncs, Begin;
    var fin := ProgramFinal(header, table, p);
    OneFuncPlaced(header, table, p, k, fin);
    assert FuncAt(Linked(fin), EntriesOf(p), p[k], HEADER_SIZE + FuncsSize(p, k));
  }

  lemma CountedCode(g: Gen, p: Program)
    requires Counted(g, p, |p|)
    ensures ProgramCost(p, |p|).code == FuncsSize(p, |p|)
  {
    hide Sound, Symbols, ProgramCost, FuncsSize;
  }

  /** From any fixup table: the image is the one from a table without marks exactly
      when the table is harmless to the program. */
  lemma LeftoverImage(header: seq<byte>, table: seq<Fixup>, p: Program)
    requires |header| == HEADER_SIZE && |table| == MAX_FIXUPS && GoodProgram(p) && WithinLimits(p)
    ensures var g, c := GenProgram(header, table, p), GenProgram(header, Cleared(table), p);
            && CleanStart(header, Cleared(table)) && Sound(c)
            && SitesInside(g, |g.code|) && Section(g) >= 0 && Section(c) >= 0
            && (Linked(g) == Linked(c) <==> HarmlessTable(table, p))
  {
    hide Sound, Alike, WithinLimits, GoodProgram, Begin, GenProgram, GenFuncs, ProgramJumps, CleanStart, Linked, Lands, Harmless,
         FindFunc, Find, Cleared, FuncsSize, Symbols, ProgramCost, Padding, Section, BodyStart;
    FuncsAlike(header, table, p, 0);
    ProgramAlike(header, table, p);
    var g, c, js := GenProgram(header, table, p), GenProgram(header, Cleared(table), p), ProgramJumps(p, |p|);
    var fin := ProgramFinal(header, Cleared(table), p);
    FinalSound(c, EntriesOf(p));
    AlikeRoom(g, c, table, js);
    forall i | 0 <= i < |js| && js[i].Test?
      ensures Lands(Linked(c), js[i]) && 2 <= js[i].site && js[i].site + 4 <= js[i].target <= |c.code|
    {
      JumpPlaced(header, Cleared(table), p, js[i]);
    }
    forall i | 0 <= i < |js|
      ensures var e := FindFunc(c.funcs, table[i].funcName);
              e <= CODE_BUF_SIZE && (e == -1 <==> Find(p, table[i].funcName) == |p|) && (js[i].Test? ==> e != js[i].target)
    {
      NamedEntry(header, Cleared(table), p, table[i].funcName);
      if js[i].Test? { JumpPlaced(header, Cleared(table), p, js[i]); }
    }
    ImagesAgree(g, c, table, js, p);
  }

  /** The entry any name has in the final tables. */
  lemma NamedEntry(header: seq<byte>, table: seq<Fixup>, p: Program, name: string)
    requires CleanStart(header, table) && GoodProgram(p) && WithinLimits(p)
    ensures var e := FindFunc(GenProgram(header, table, p).funcs, name);
            && e <= CODE_BUF_SIZE && (e == -1 <==> Find(p, name) == |p|)
            && (Find(p, name) < |p| ==> e == EntryOf(p, name))
  {
    hide Sound, Begin, GenFuncs, CleanStart, FindFunc, Find, FuncsSize, Symbols, ProgramCost, Padding, GoodFunc;
    FuncsCounted(header, table, p, |p|);
    var g := GenFuncs(Begin(header, table), p, |p|);
    RoomForPool(g, p);
    var fin := PoolEmitted(g);
    FindSymbol(p, |p|, name);
    if Find(p, name) < |p| {
      SizesGrow(p, Find(p, name), |p|);
      CountedCode(g, p);
    }
  }

  /** End to end: from a state that has just called function `name` of the linked
      image, loaded anywhere, the machine comes back to the return address with
      the source program's result in rax, whenever the source program has one and
      no mark left in the fixup table harms it. */
  lemma CompiledCallCorrect(header: seq<byte>, table: seq<Fixup>, p: Program, base: word,
                            fuel: nat, name: string, vals: seq<int>, m: State) returns (m': State)
    requires |header| == HEADER_SIZE && |table| == MAX_FIXUPS && HarmlessTable(table, p)
    requires GoodProgram(p) && WithinLimits(p) && base + 0x1_0000 < TWO64
    requires !Apply(p, fuel, name, vals).Fail? && |vals| <= 32
    requires m.rip == EntryOf(p, name) && m.rsp + 8 + 8 * |vals| < TWO64
    requires m.rsp + 8 >= ApplyDepth(p, fuel, name, vals)
    requires forall k :: 0 <= k < |vals| ==> IsLong(vals[k]) && Load64(m.mem, m.rsp + 8 + 8 * k) == ToWord(vals[k])
    ensures var fin := GenProgram(header, table, p);
            SitesInside(fin, |fin.code|) && Section(fin) >= 0 && Reaches(Image(Linked(fin), base), m, m')
    ensures Left(Image([], base), vals, Apply(p, fuel, name, vals), m, m')
  {
    hide Apply, ApplyDepth, ProgramAt, GoodProgram, WithinLimits, Load64, Reaches, Above, ToWord, Sound, CleanStart, GenProgram, Linked, Section, FuncsSize, IsLong, HarmlessTable, Cleared;
    var fin, cleared := GenProgram(header, table, p), GenProgram(header, Cleared(table), p);
    LeftoverImage(header, table, p);
    SoundInside(cleared);
    ProgramPlaced(header, Cleared(table), p);
    var img := Image(Linked(fin), base);
    ApplyDepthBound(p, fuel, name, vals);
    assert name in EntriesOf(p);
    forall k | 0 <= k < |vals| ensures Load64(m.mem, m.rsp - 8 + 16 + 8 * k) == ToWord(vals[k]) {
      assert m.rsp - 8 + 16 + 8 * k == m.rsp + 8 + 8 * k;
    }
    m' := ApplySim(img, EntriesOf(p), p, fuel, name, vals, m);
  }
}
