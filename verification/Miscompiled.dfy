/** Two programs whose machine code takes the wrong branch: one with a subtraction on
    top of its condition, one compiled over a marked fixup record. */
module Miscompiled {
  import opened Words
  import opened Memory
  import opened Options
  import opened Machine
  import opened Ast
  import opened Layout
  import opened Codegen
  import opened Patching
  import opened Placement
  import opened Leftovers
  import opened Compiler
  import opened Simulation
  import opened Conditions
  import F = Factorial

  function Unit(body: Stmt): (p: Program)
    ensures |p| == 1
  {
    [Func("f", 0, Some(body))]
  }

  function Give(n: int): Stmt {
    Return(Some(Int(n)))
  }

  /** if (cond) { branch } return last; */
  function Choice(cond: Expr, branch: Stmt, rest: Stmts): Stmt {
    Block(SCons(If(cond, branch, None), rest))
  }

  const LAST: Stmts := SCons(Give(0), SNil)

  /** int f(int x, int y) { if (x - y) return 1; return 0; } */
  function Difference(): Stmt {
    Choice(Bin(Sub, Var(-12), Var(-16)), Give(1), LAST)
  }

  /** int f(int x) { if (x) return 1; return 0; } */
  function NonZero(): Stmt {
    Choice(Var(-12), Give(1), LAST)
  }

  /** int f(int x) { if (x) {} return 1; return 0; } */
  function Always(): Stmt {
    Choice(Var(-12), Block(SNil), SCons(Give(1), LAST))
  }

  // ----- the programs are in the fragment and fit the tables -----

  /** The compiler theorem speaks of the program with this one function. */
  ghost predicate Compiles(body: Stmt) {
    GoodProgram(Unit(body)) && WithinLimits(Unit(body)) && Find(Unit(body), "f") == 0 < |Unit(body)|
  }

  ghost predicate Small(c: Cost) {
    c.code <= 300 && c.labels <= 2 && c.fixups <= 3 && c.strs == 0 && c.pool == 0
  }

  lemma UnitCompiles(body: Stmt)
    requires GoodStmt(body, 0) && Small(StmtCost(Symbols(Unit(body), 1), body))
    ensures Compiles(body)
  {
    hide StmtCost, Symbols, ProgramCost, GoodStmt;
    F.CostOfOne(Unit(body));
  }

  lemma GiveCost(funcs: seq<FuncSym>, n: int)
    ensures StmtCost(funcs, Give(n)) == Bytes(14) && GoodStmt(Give(n), 0)
  {
    assert ExprCost(funcs, Int(n)) == Bytes(11);
  }

  lemma {:induction false} ChoiceCost(funcs: seq<FuncSym>, cond: Expr, branch: Stmt, rest: Stmts)
    requires GoodExpr(cond, 0) && GoodStmt(branch, 0) && GoodStmts(rest, 0)
    ensures GoodStmt(Choice(cond, branch, rest), 0)
    ensures StmtCost(funcs, Choice(cond, branch, rest))
         == Plus(Plus(Cost(0, 2, 0, 0, 0), Plus(CondCost(funcs, cond), StmtCost(funcs, branch))), ItemsCost(funcs, rest))
  {
    hide GoodExpr, CondCost;
    var test := If(cond, branch, None);
    assert GoodStmt(test, 0);
    assert ItemCost(funcs, test) == StmtCost(funcs, test);
    assert ItemsCost(funcs, SCons(test, rest)) == Plus(ItemCost(funcs, test), ItemsCost(funcs, rest));
  }

  lemma {:induction false} LastCost(funcs: seq<FuncSym>)
    ensures ItemsCost(funcs, LAST) == Bytes(14) && GoodStmts(LAST, 0)
    ensures ItemsCost(funcs, SCons(Give(1), LAST)) == Bytes(28) && GoodStmts(SCons(Give(1), LAST), 0)
  {
    hide StmtCost, Plus;
    GiveCost(funcs, 0);
    GiveCost(funcs, 1);
    PlusFacts(Bytes(14), NOTHING, NOTHING, 14, 14);
    assert ItemsCost(funcs, SNil) == NOTHING;
    assert ItemCost(funcs, Give(0)) == StmtCost(funcs, Give(0));
    assert ItemCost(funcs, Give(1)) == StmtCost(funcs, Give(1));
    assert ItemsCost(funcs, LAST) == Plus(Bytes(14), NOTHING);
    assert ItemsCost(funcs, SCons(Give(1), LAST)) == Plus(Bytes(14), Bytes(14));
  }

  lemma ParamCost(funcs: seq<FuncSym>, off: int)
    requires off == -12 || off == -16
    ensures ExprCost(funcs, Var(off)) == Cost(8, 0, 0, 0, 0) && GoodExpr(Var(off), 0)
  {
  }

  lemma TestCost(funcs: seq<FuncSym>)
    ensures CondCost(funcs, Var(-12)) == Cost(18, 0, 1, 0, 0) && GoodExpr(Var(-12), 0)
  {
    hide ExprCost, GoodExpr;
    ParamCost(funcs, -12);
  }

  lemma {:induction false} BinaryCost(funcs: seq<FuncSym>, op: Op, l: Expr, r: Expr)
    requires ExprCost(funcs, l) == Cost(8, 0, 0, 0, 0) == ExprCost(funcs, r)
    ensures CondCost(funcs, Bin(op, l, r)) == Cost(27, 0, 1, 0, 0)
  {
    hide ExprCost;
  }

  lemma {:induction false} BinaryGood(op: Op, l: Expr, r: Expr)
    requires GoodExpr(l, 0) && GoodExpr(r, 0)
    ensures GoodExpr(Bin(op, l, r), 0)
  {
  }

  lemma SubtractionCost(funcs: seq<FuncSym>)
    ensures CondCost(funcs, Bin(Sub, Var(-12), Var(-16))) == Cost(27, 0, 1, 0, 0) && GoodExpr(Bin(Sub, Var(-12), Var(-16)), 0)
  {
    hide *;
    ParamCost(funcs, -12);
    ParamCost(funcs, -16);
    BinaryCost(funcs, Sub, Var(-12), Var(-16));
    BinaryGood(Sub, Var(-12), Var(-16));
  }

  lemma {:induction false} SmallChoice(funcs: seq<FuncSym>, cond: Expr, branch: Stmt, rest: Stmts)
    requires GoodExpr(cond, 0) && GoodStmt(branch, 0) && GoodStmts(rest, 0)
    requires var c := CondCost(funcs, cond); c.code <= 30 && c.labels == 0 && c.fixups == 1 && c.strs == 0 && c.pool == 0
    requires var c := StmtCost(funcs, branch); c == NOTHING || c == Bytes(14)
    requires var c := ItemsCost(funcs, rest); c == Bytes(14) || c == Bytes(28)
    ensures GoodStmt(Choice(cond, branch, rest), 0) && Small(StmtCost(funcs, Choice(cond, branch, rest)))
  {
    hide StmtCost, ItemsCost, Choice, GoodStmt, CondCost, GoodExpr, GoodStmts;
    ChoiceCost(funcs, cond, branch, rest);
  }

  lemma SmallPrograms(funcs: seq<FuncSym>)
    ensures GoodStmt(Difference(), 0) && GoodStmt(NonZero(), 0) && GoodStmt(Always(), 0)
    ensures Small(StmtCost(funcs, Difference())) && Small(StmtCost(funcs, NonZero())) && Small(StmtCost(funcs, Always()))
  {
    hide StmtCost, ItemsCost, Choice, LAST, GoodStmt, CondCost, GoodExpr, GoodStmts, Small;
    LastCost(funcs);
    GiveCost(funcs, 1);
    EmptyCost(funcs);
    TestCost(funcs);
    SubtractionCost(funcs);
    SmallChoice(funcs, Bin(Sub, Var(-12), Var(-16)), Give(1), LAST);
    SmallChoice(funcs, Var(-12), Give(1), LAST);
    SmallChoice(funcs, Var(-12), Block(SNil), SCons(Give(1), LAST));
  }

  lemma ProgramsCompile()
    ensures Compiles(Difference()) && Compiles(NonZero()) && Compiles(Always())
  {
    hide *;
    SmallPrograms(Symbols(Unit(Difference()), 1));
    SmallPrograms(Symbols(Unit(NonZero()), 1));
    SmallPrograms(Symbols(Unit(Always()), 1));
    UnitCompiles(Difference());
    UnitCompiles(NonZero());
    UnitCompiles(Always());
  }

  lemma EmptyCost(funcs: seq<FuncSym>)
    ensures StmtCost(funcs, Block(SNil)) == NOTHING && GoodStmt(Block(SNil), 0)
  {
    assert ItemsCost(funcs, SNil) == NOTHING;
  }

  // ----- what the sources mean -----

  lemma ParamValue(p: Program, fuel: nat, vals: seq<int>, k: nat)
    requires k < |vals|
    ensures Eval(p, fuel, Env(map[], vals), Var(-12 - 4 * k)) == V(vals[k])
  {
    ParamSlotIndex(k);
  }

  lemma GiveMeans(p: Program, fuel: nat, env: Env, n: int)
    requires IsLong(n)
    ensures ExecItem(p, fuel, env, Give(n)) == Returned(n) && Exec(p, fuel, env, Give(n)) == Returned(n)
  {
    assert Eval(p, fuel, env, Int(n)) == V(n);
  }

  lemma {:induction false} ChoiceMeans(p: Program, fuel: nat, env: Env, cond: Expr, branch: Stmt, rest: Stmts, b: bool)
    requires Truth(p, fuel, env, cond) == Some(b)
    ensures Exec(p, fuel, env, Choice(cond, branch, rest))
         == var o := if b then Exec(p, fuel, env, branch) else Normal(env);
            if o.Normal? then ExecItems(p, fuel, o.env, rest) else o
  {
    hide Truth;
    var test := If(cond, branch, None);
    assert ExecItem(p, fuel, env, test) == Exec(p, fuel, env, test);
  }

  lemma LastMeans(p: Program, fuel: nat, env: Env)
    ensures ExecItems(p, fuel, env, LAST) == Returned(0)
    ensures ExecItems(p, fuel, env, SCons(Give(1), LAST)) == Returned(1)
  {
    hide ExecItem;
    GiveMeans(p, fuel, env, 0);
    GiveMeans(p, fuel, env, 1);
  }

  lemma NonZeroMeans(x: int)
    requires IsLong(x)
    ensures Apply(Unit(NonZero()), 0, "f", [x]) == V(if x != 0 then 1 else 0)
    ensures Apply(Unit(Always()), 0, "f", [x]) == V(1)
  {
    hide Exec, ExecItems, Choice;
    var env := Env(map[], [x]);
    forall p: Program ensures Exec(p, 0, env, NonZero()) == Returned(if x != 0 then 1 else 0) && Exec(p, 0, env, Always()) == Returned(1) {
      ParamValue(p, 0, [x], 0);
      assert Truth(p, 0, env, Var(-12)) == Some(x != 0);
      ChoiceMeans(p, 0, env, Var(-12), Give(1), LAST, x != 0);
      ChoiceMeans(p, 0, env, Var(-12), Block(SNil), SCons(Give(1), LAST), x != 0);
      LastMeans(p, 0, env);
      GiveMeans(p, 0, env, 1);
      assert Exec(p, 0, env, Block(SNil)) == Normal(env) by { EmptyMeans(p, env); }
    }
    assert Find(Unit(NonZero()), "f") == 0 && Find(Unit(Always()), "f") == 0;
  }

  lemma EmptyMeans(p: Program, env: Env)
    ensures Exec(p, 0, env, Block(SNil)) == Normal(env)
  {
    assert ExecItems(p, 0, env, SNil) == Normal(env);
  }

  /** In C the condition of the first program holds exactly when x and y differ; with
      == in its place, when they are equal. */
  lemma DifferenceMeans(x: int, y: int)
    requires IsLong(x) && IsLong(y)
    ensures Eval(Unit(Difference()), 0, Env(map[], [x, y]), Bin(Sub, Var(-12), Var(-16))) == V(WrapLong(x - y))
    ensures WrapLong(x - y) != 0 <==> x != y
    ensures Apply(EquatedProgram(Unit(Difference())), 0, "f", [x, y]) == V(if x == y then 1 else 0)
  {
    hide Exec, ExecItems;
    var p, env := EquatedProgram(Unit(Difference())), Env(map[], [x, y]);
    ParamValue(Unit(Difference()), 0, [x, y], 0);
    ParamValue(Unit(Difference()), 0, [x, y], 1);
    WrapsToZero(x - y);
    ParamValue(p, 0, [x, y], 0);
    ParamValue(p, 0, [x, y], 1);
    var cond := Bin(Eq, Var(-12), Var(-16));
    assert Truth(p, 0, env, cond) == Some(x == y);
    ChoiceMeans(p, 0, env, cond, Give(1), LAST, x == y);
    LastMeans(p, 0, env);
    GiveMeans(p, 0, env, 1);
    EquatedDifference();
    assert p == Unit(Choice(cond, Give(1), LAST));
  }

  lemma EquatedDifference()
    ensures EquatedProgram(Unit(Difference()))[0] == Func("f", 0, Some(Choice(Bin(Eq, Var(-12), Var(-16)), Give(1), LAST)))
  {
    assert EquatedAll(SNil) == SNil;
    assert EquatedAll(LAST) == LAST;
  }

  // ----- what the machine code does -----

  /** C returns 1 when x and y differ, the machine code when they are equal. */
  lemma SubtractionTested(header: seq<byte>, table: seq<Fixup>, base: word, x: int, y: int, m: State) returns (m': State)
    requires |header| == HEADER_SIZE && |table| == MAX_FIXUPS && HarmlessTable(table, Unit(Difference())) && base + 0x1_0000 < TWO64
    requires IsLong(x) && IsLong(y) && Load64(m.mem, m.rsp + 8) == ToWord(x) && Load64(m.mem, m.rsp + 16) == ToWord(y)
    requires m.rip == EntryOf(Unit(Difference()), "f") && m.rsp + 24 < TWO64
    requires m.rsp + 8 >= ApplyDepth(EquatedProgram(Unit(Difference())), 0, "f", [x, y])
    ensures var fin := GenProgram(header, table, Unit(Difference()));
            SitesInside(fin, |fin.code|) && Section(fin) >= 0 && Reaches(Image(Linked(fin), base), m, m')
    ensures m'.rax == if x == y then 1 else 0
    ensures Eval(Unit(Difference()), 0, Env(map[], [x, y]), Bin(Sub, Var(-12), Var(-16))) == V(WrapLong(x - y))
    ensures WrapLong(x - y) != 0 <==> x != y
  {
    hide *;
    ProgramsCompile();
    CompilesIs(Difference());
    DifferenceMeans(x, y);
    var vals := [x, y];
    assert forall k :: 0 <= k < |vals| ==> IsLong(vals[k]) && Load64(m.mem, m.rsp + 8 + 8 * k) == ToWord(vals[k]);
    m' := ArithmeticConditionRuns(header, table, Unit(Difference()), base, 0, "f", vals, m);
    LeftResult(Image([], base), vals, if x == y then 1 else 0, m, m');
  }

  lemma CompilesIs(body: Stmt)
    requires Compiles(body)
    ensures GoodProgram(Unit(body)) && WithinLimits(Unit(body)) && Find(Unit(body), "f") == 0 < |Unit(body)|
  {
  }

  lemma LeftResult(img: Image, vals: seq<int>, v: int, m: State, m': State)
    requires Left(img, vals, V(v), m, m') && 0 <= v <= 1
    ensures m'.rax == v
  {
  }

  lemma ReturnShift(g: Gen, labels: seq<int>, n: int)
    ensures GenStmt(g.(labels := labels), Give(n)) == GenStmt(g, Give(n)).(labels := labels)
  {
    hide Encode;
    assert GenExpr(g, Int(n)) == EmitI(EmitI(g, MovRaxImm(ToWord(n))), PushRax);
  }

  /** The two programs that test one variable differ in their labels only. */
  lemma BodiesAlike(g: Gen) returns (labels: seq<int>)
    ensures GenStmt(g, NonZero()) == GenStmt(g, Always()).(labels := labels)
  {
    hide Give, GenCond, AllocLabel;
    var g2, lbl := GenCond(AllocLabel(AllocLabel(g)), Var(-12), g.nextLabel + 1, false), g.nextLabel + 1;
    var p1 := GenStmt(g2, Give(1));
    var p2 := MarkLabel(p1, lbl);
    var q1 := MarkLabel(g2, lbl);
    var q2 := GenStmt(q1, Give(1));
    labels := p2.labels;
    ReturnShift(g2, q1.labels, 1);
    assert p2 == q2.(labels := labels);
    ReturnShift(q2, labels, 0);
    ChoiceIs(g, Var(-12), Give(1), LAST);
    ChoiceIs(g, Var(-12), Block(SNil), SCons(Give(1), LAST));
    assert GenStmt(g2, Block(SNil)) == g2 by { EmptyIs(g2); }
    LastIs(p2);
    LastIs(q1);
  }

  lemma EmptyIs(g: Gen)
    ensures GenStmt(g, Block(SNil)) == g
  {
    assert GenItems(g, SNil) == g;
  }

  lemma {:induction false} ChoiceIs(g: Gen, cond: Expr, branch: Stmt, rest: Stmts)
    ensures var g2 := GenStmt(GenCond(AllocLabel(AllocLabel(g)), cond, g.nextLabel + 1, false), branch);
            GenStmt(g, Choice(cond, branch, rest)) == GenItems(MarkLabel(g2, g.nextLabel + 1), rest)
  {
    hide GenCond, AllocLabel, MarkLabel, GenStmt, GenItem;
    var test := If(cond, branch, None);
    IfIs(g, test);
    assert GenItem(g, test) == GenStmt(g, test) by { TestIs(g, test); }
    assert GenItems(g, SCons(test, rest)) == GenItems(GenItem(g, test), rest);
    BlockIs(g, SCons(test, rest));
  }

  lemma TestIs(g: Gen, s: Stmt)
    requires s.If?
    ensures GenItem(g, s) == GenStmt(g, s)
  {
    hide GenStmt;
  }

  lemma BlockIs(g: Gen, items: Stmts)
    ensures GenStmt(g, Block(items)) == GenItems(g, items)
  {
    hide GenItems;
  }

  lemma LastIs(g: Gen)
    ensures GenItems(g, LAST) == GenStmt(g, Give(0))
    ensures GenItems(g, SCons(Give(1), LAST)) == GenStmt(GenStmt(g, Give(1)), Give(0))
  {
    forall h: Gen, n: int ensures GenItem(h, Give(n)) == GenStmt(h, Give(n)) {
    }
    forall h: Gen ensures GenItems(h, LAST) == GenStmt(h, Give(0)) {
      assert GenItems(GenItem(h, Give(0)), SNil) == GenItem(h, Give(0));
    }
  }

  lemma EmitShift(g: Gen, labels: seq<int>, bs: seq<byte>)
    ensures Emit(g.(labels := labels), bs) == Emit(g, bs).(labels := labels)
  {
  }

  /** The same for the whole images before linking. */
  lemma ProgramsAlike(header: seq<byte>, table: seq<Fixup>) returns (labels: seq<int>)
    ensures GenProgram(header, table, Unit(NonZero())) == GenProgram(header, table, Unit(Always())).(labels := labels)
  {
    hide NonZero, Always, Encode, Emit, Begin, Nops, Padding, RegisterFunc, EmitPrologue, GenStmt;
    var b := Begin(header, table);
    var g0 := EmitPrologue(RegisterFunc(b, "f"), 0);
    labels := BodiesAlike(g0);
    var p1, q1 := GenStmt(g0, NonZero()), GenStmt(g0, Always());
    EmitShift(q1, labels, Encode(Leave));
    EmitShift(EmitI(q1, Leave), labels, Encode(Ret));
    var p2, q2 := EmitEpilogue(p1), EmitEpilogue(q1);
    assert GenFuncs(b, Unit(NonZero()), 0) == b && GenFuncs(b, Unit(Always()), 0) == b;
    assert GenFuncs(b, Unit(NonZero()), 1) == p2 && GenFuncs(b, Unit(Always()), 1) == q2;
    assert p2 == q2.(labels := labels);
    EmitShift(q2, labels, Nops(Padding(|q2.code|)));
    EmitShift(Align(q2), labels, Align(q2).pool);
  }

  lemma {:induction false} LabelsUnused(g: Gen, labels: seq<int>, code: seq<byte>, n: nat)
    requires SitesInside(g, |code|) && n <= g.fixups && forall i :: 0 <= i < g.fixups ==> g.table[i].isFuncCall
    ensures PatchFixups(g.(labels := labels), code, n) == PatchFixups(g, code, n)
    decreases n
  {
    hide Write32, FindFunc;
    if n > 0 { LabelsUnused(g, labels, code, n - 1); }
  }

  lemma {:induction false} LabelsUnusedInStrings(g: Gen, labels: seq<int>, code: seq<byte>, section: nat, n: nat)
    requires SitesInside(g, |code|) && n <= |g.strs|
    ensures PatchStrings(g.(labels := labels), code, section, n) == PatchStrings(g, code, section, n)
    decreases n
  {
    hide Write32;
    if n > 0 { LabelsUnusedInStrings(g, labels, code, section, n - 1); }
  }

  /** When all records are marked as calls, labels play no part in linking. */
  lemma LinkedWithoutLabels(g: Gen, labels: seq<int>)
    requires SitesInside(g, |g.code|) && Section(g) >= 0 && forall i :: 0 <= i < g.fixups ==> g.table[i].isFuncCall
    ensures Linked(g.(labels := labels)) == Linked(g)
  {
    hide PatchFixups, PatchStrings;
    LabelsUnused(g, labels, g.code, g.fixups);
    LabelsUnusedInStrings(g, labels, PatchFixups(g, g.code, g.fixups), Section(g), |g.strs|);
  }

  /** Both programs use one record, for a test jump over one return or over nothing. */
  lemma OneTest(body: Stmt)
    requires body == NonZero() || body == Always()
    ensures var p := Unit(body);
            ProgramJumps(p, 1) == [Test(BodyStart(p, 0) + 14, BodyStart(p, 0) + 18 + if body == NonZero() then 14 else 0)]
  {
    hide Symbols, ExprCost, ExprSize;
    var p := Unit(body);
    var funcs, a := Symbols(p, 1), BodyStart(p, 0);
    assert ProgramJumps(p, 0) == [];
    assert ExprCost(funcs, Var(-12)) == Bytes(8) && ExprSize(Var(-12)) == 8 by { TestSize(funcs); }
    var branch := if body == NonZero() then Give(1) else Block(SNil);
    var rest := if body == NonZero() then LAST else SCons(Give(1), LAST);
    BranchJumps(funcs, a + 18);
    var test := If(Var(-12), branch, None);
    assert StmtJumps(funcs, test, a) == [Test(a + 14, a + 18 + StmtSize(branch))];
    RestJumps(funcs, a + ItemSize(test));
    assert ItemsJumps(funcs, SCons(test, rest), a) == ItemJumps(funcs, test, a) + ItemsJumps(funcs, rest, a + ItemSize(test));
    assert body == Block(SCons(test, rest));
  }

  lemma TestSize(funcs: seq<FuncSym>)
    ensures ExprCost(funcs, Var(-12)) == Bytes(8) && ExprSize(Var(-12)) == 8
  {
  }

  lemma BranchJumps(funcs: seq<FuncSym>, a: int)
    ensures StmtJumps(funcs, Give(1), a) == [] && StmtSize(Give(1)) == 14
    ensures StmtJumps(funcs, Block(SNil), a) == [] && StmtSize(Block(SNil)) == 0
  {
    GiveCost(funcs, 1);
    assert ExprSize(Int(1)) == 11;
    assert ItemsJumps(funcs, SNil, a) == [] && ItemsSize(SNil) == 0;
  }

  lemma RestJumps(funcs: seq<FuncSym>, a: int)
    ensures ItemsJumps(funcs, LAST, a) == [] && ItemsJumps(funcs, SCons(Give(1), LAST), a) == []
  {
    hide StmtCost, StmtSize;
    forall n, b: int ensures ItemJumps(funcs, Give(n), b) == [] {
      GiveCost(funcs, n);
    }
    forall b: int ensures ItemsJumps(funcs, LAST, b) == [] {
      assert ItemsJumps(funcs, SNil, b + ItemSize(Give(0))) == [];
    }
  }

  /** A mark of a function that the program does not define is harmless to the second
      program and not to the first. */
  lemma MarkHarms(table: seq<Fixup>)
    requires |table| == MAX_FIXUPS && table[0].isFuncCall && table[0].funcName != "f"
    ensures HarmlessTable(table, Unit(Always())) && !HarmlessTable(table, Unit(NonZero()))
  {
    hide BodyStart, NonZero, Always, ProgramJumps, Find, Unit, Harmless;
    OneTest(Always());
    OneTest(NonZero());
    TwoBodies();
    NotNamed(Always(), table[0].funcName);
    NotNamed(NonZero(), table[0].funcName);
    HarmOf(table[0], Unit(Always()), BodyStart(Unit(Always()), 0) + 14, 0);
    HarmOf(table[0], Unit(NonZero()), BodyStart(Unit(NonZero()), 0) + 14, 14);
    assert !Harmless(table[0], ProgramJumps(Unit(NonZero()), 1)[0], Unit(NonZero()));
  }

  lemma HarmOf(x: Fixup, p: Program, site: int, skipped: int)
    requires x.isFuncCall && Find(p, x.funcName) == |p|
    ensures Harmless(x, Test(site, site + 4 + skipped), p) <==> skipped == 0
  {
  }

  lemma NotNamed(body: Stmt, name: string)
    requires name != "f"
    ensures Find(Unit(body), name) == |Unit(body)|
  {
  }

  lemma TwoBodies()
    ensures NonZero() != Always()
  {
  }

  lemma OnlyMarked(header: seq<byte>, table: seq<Fixup>, body: Stmt)
    requires (body == NonZero() || body == Always()) && Compiles(body)
    requires |header| == HEADER_SIZE && |table| == MAX_FIXUPS && table[0].isFuncCall
    ensures var g := GenProgram(header, table, Unit(body));
            g.fixups == 1 && |g.table| == MAX_FIXUPS && g.table[0].isFuncCall
  {
    hide GenProgram, ProgramJumps, Compiles, Alike, BodyStart, NonZero, Always, Cleared;
    CompilesIs(body);
    OneTest(body);
    ProgramAlike(header, table, Unit(body));
    var g, c := GenProgram(header, table, Unit(body)), GenProgram(header, Cleared(table), Unit(body));
    AlikeRoom(g, c, table, ProgramJumps(Unit(body), 1));
    RecordsAlike(g, c, table, ProgramJumps(Unit(body), 1), 0);
  }

  /** Compiled over a record that an earlier compilation marked as a call of some
      undefined function, the test never skips: f(0) is 0 in C and 1 here. */
  lemma MarkedRecordRuns(header: seq<byte>, table: seq<Fixup>, base: word, x: int, m: State) returns (m': State)
    requires |header| == HEADER_SIZE && |table| == MAX_FIXUPS && base + 0x1_0000 < TWO64
    requires table[0].isFuncCall && table[0].funcName != "f"
    requires IsLong(x) && Load64(m.mem, m.rsp + 8) == ToWord(x) && m.rip == HEADER_SIZE && m.rsp + 16 < TWO64
    requires m.rsp + 8 >= ApplyDepth(Unit(Always()), 0, "f", [x])
    ensures var fin := GenProgram(header, table, Unit(NonZero()));
            SitesInside(fin, |fin.code|) && Section(fin) >= 0 && Reaches(Image(Linked(fin), base), m, m')
    ensures m'.rax == 1 && Apply(Unit(NonZero()), 0, "f", [x]) == V(if x != 0 then 1 else 0)
    ensures !HarmlessTable(table, Unit(NonZero()))
  {
    hide *;
    ProgramsCompile();
    CompilesIs(Always());
    CompilesIs(NonZero());
    NonZeroMeans(x);
    MarkHarms(table);
    LeftoverImage(header, table, Unit(NonZero()));
    LeftoverImage(header, table, Unit(Always()));
    OnlyMarked(header, table, Always());
    var labels := ProgramsAlike(header, table);
    LinkedWithoutLabels(GenProgram(header, table, Unit(Always())), labels);
    FirstEntry(Always());
    var vals := [x];
    m' := CompiledCallCorrect(header, table, Unit(Always()), base, 0, "f", vals, m);
    LeftResult(Image([], base), vals, 1, m, m');
  }

  lemma FirstEntry(body: Stmt)
    requires Find(Unit(body), "f") == 0
    ensures EntryOf(Unit(body), "f") == HEADER_SIZE
  {
  }
}
