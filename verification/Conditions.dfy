/** Conditions with arithmetic on top: the generated jump does not follow C, and the
    program runs as if == stood there. */
module Conditions {
  import opened Words
  import opened Memory
  import opened Machine
  import opened Options
  import opened Ast
  import opened Layout
  import opened Codegen
  import opened Placement
  import opened Leftovers
  import opened Compiler
  import opened Simulation

  /** A condition whose outermost operator is arithmetic skips the body exactly when
      the operands differ; the value of the operation plays no part. */
  lemma ArithmeticCondition(img: Image, en: Entries, p: Program, fuel: nat, env: Env, frame: nat, n: nat, c: Expr, target: int, m: State)
    returns (m': State)
    requires Start(img, en, p, env, frame, n, m) && GoodExpr(c, n) && c.Bin? && CompareOp(c.op).None?
    requires CondAt(img.code, en, c, m.rip, target, false) && 0 <= target <= 0x1_0000
    requires Eval(p, fuel, env, c.left).V? && Eval(p, fuel, env, c.right).V? && m.rsp >= TruthDepth(p, fuel, env, c)
    ensures Reaches(img, m, m') && m'.rbp == m.rbp && m'.rsp == m.rsp && Above(m.mem, m'.mem, m.rsp)
    ensures m'.rip == if Eval(p, fuel, env, c.left).v != Eval(p, fuel, env, c.right).v then target else m.rip + CondSize(c)
  {
    hide Reaches, At, Load64, Get, Start, ToWord, ExprAt, Eval, ExprDepth, Rel, Signed, CompareFlags, IsLong;
    StartTop(img, en, p, env, frame, n, m);
    StartBounds(img, en, p, env, frame, n, m, 0, "");
    var m1 := TwoSim(img, en, p, fuel, env, frame, n, c, m);
    var m2 := PopTwo(img, m1);
    ReachesTrans(img, m, m1, m2);
    var m3 := Do(img, m2, CmpRaxRbx);
    ReachesTrans(img, m, m2, m3);
    m' := JumpStep(img, NE, target, m3);
    ReachesTrans(img, m, m3, m');
    FlagsDecideCompare(NE, m2.rax, m2.rbx);
    SignedToWord(Eval(p, fuel, env, c.left).v);
    SignedToWord(Eval(p, fuel, env, c.right).v);
  }

  /** C runs the body when the value is not zero, the code when the operands are equal.
      A subtraction never agrees, a division for equal operands or a quotient of zero,
      a sum for equal operands that are neither 0 nor the least long and for opposite
      ones, a product for equal operands whose square does not wrap to 0 and for
      different ones whose product does. */
  lemma ArithmeticConditionMeaning(op: Op, x: int, y: int)
    requires CompareOp(op).None? && Arith(op, x, y).V? && IsLong(x) && IsLong(y)
    ensures (x == y) == (Arith(op, x, y).v != 0) <==>
            match op
            case Add => x != 0 && ((x == y && x != -TWO63) || x == -y)
            case Sub => false
            case Mul => (x == y) == (x * y % TWO64 != 0)
            case Div => x == y || TruncDiv(x, y) == 0
  {
    match op
    case Add => WrapsToZero(x + y);
    case Sub => WrapsToZero(x - y);
    case Mul => ProductWraps(x * y);
    case Div => if x == y { assert TruncDiv(x, y) == 1; }
  }

  lemma WrapsToZero(z: int)
    requires -TWO64 <= z < TWO64
    ensures WrapLong(z) == 0 <==> z == 0 || z == -TWO64
  {
  }

  lemma ProductWraps(z: int)
    ensures WrapLong(z) == 0 <==> z % TWO64 == 0
  {
  }

  // ----- what such programs do -----

  /** The condition that is compiled. */
  function EquatedCond(c: Expr): Expr {
    if c.Bin? && CompareOp(c.op).None? then Bin(Eq, c.left, c.right) else c
  }

  /** Every arithmetic operator on top of a condition replaced by ==. */
  function Equated(s: Stmt): Stmt
    decreases s, 0
  {
    match s
    case If(c, t, f) => If(EquatedCond(c), Equated(t), if f.Some? then Some(Equated(f.value)) else None)
    case While(c, body) => While(EquatedCond(c), Equated(body))
    case Block(items) => Block(EquatedAll(items))
    case _ => s
  }

  function EquatedAll(ss: Stmts): Stmts
    decreases ss, 0
  {
    if ss.SNil? then SNil else SCons(Equated(ss.head), EquatedAll(ss.next))
  }

  function EquatedFunc(f: Func): Func {
    f.(body := if f.body.Some? then Some(Equated(f.body.value)) else None)
  }

  function EquatedProgram(p: Program): (q: Program)
    ensures |q| == |p| && forall i :: 0 <= i < |p| ==> q[i] == EquatedFunc(p[i])
  {
    seq(|p|, i requires 0 <= i < |p| => EquatedFunc(p[i]))
  }

  lemma EquatedCondSame(g: Gen, c: Expr, lbl: nat, funcs: seq<FuncSym>, a: int, target: int, n: nat)
    ensures GenCond(g, EquatedCond(c), lbl, false) == GenCond(g, c, lbl, false)
    ensures CondCost(funcs, EquatedCond(c)) == CondCost(funcs, c) && CondSize(EquatedCond(c)) == CondSize(c)
    ensures CondJumps(funcs, EquatedCond(c), a, target) == CondJumps(funcs, c, a, target)
    ensures GoodExpr(EquatedCond(c), n) == GoodExpr(c, n)
  {
    hide GenExpr, ExprCost, ExprSize, EmitCondJump, EmitTestJump, Directs;
  }

  /** The replacement changes neither code nor size nor records. */
  lemma {:induction false} EquatedSame(g: Gen, s: Stmt, funcs: seq<FuncSym>, a: int, n: nat)
    ensures GenStmt(g, Equated(s)) == GenStmt(g, s)
    ensures StmtCost(funcs, Equated(s)) == StmtCost(funcs, s) && StmtSize(Equated(s)) == StmtSize(s)
    ensures StmtJumps(funcs, Equated(s), a) == StmtJumps(funcs, s, a) && GoodStmt(Equated(s), n) == GoodStmt(s, n)
    decreases s, 1
  {
    hide GenExpr, ExprCost, ExprSize, GoodExpr, GenCond, CondCost, CondSize, CondJumps, EquatedCond, EmitStore, EmitLoad, EmitEpilogue, EmitJmp,
         AllocLabel, MarkLabel, Directs;
    match s
    case If(_, _, _) => EquatedChoiceSame(g, s, funcs, a, n);
    case While(_, _) => EquatedLoopSame(g, s, funcs, a, n);
    case Block(items) => EquatedAllSame(g, items, funcs, a, n);
    case _ =>
  }

  lemma {:induction false} EquatedChoiceSame(g: Gen, s: Stmt, funcs: seq<FuncSym>, a: int, n: nat)
    requires s.If?
    ensures GenStmt(g, Equated(s)) == GenStmt(g, s)
    ensures StmtCost(funcs, Equated(s)) == StmtCost(funcs, s) && StmtSize(Equated(s)) == StmtSize(s)
    ensures StmtJumps(funcs, Equated(s), a) == StmtJumps(funcs, s, a) && GoodStmt(Equated(s), n) == GoodStmt(s, n)
    decreases s, 0
  {
    hide GenExpr, ExprCost, ExprSize, GoodExpr, GenCond, CondCost, CondSize, CondJumps, EquatedCond, EmitJmp, AllocLabel, MarkLabel;
    var If(c, t, f) := s;
    var lbl := if f.Some? then g.nextLabel else g.nextLabel + 1;
    var g1 := AllocLabel(AllocLabel(g));
    var b := if f.Some? then a + CondSize(c) + StmtSize(t) + 5 else a + StmtSize(s);
    EquatedCondSame(g1, c, lbl, funcs, a, b, n);
    var g2 := GenCond(g1, c, lbl, false);
    EquatedSame(g2, t, funcs, a + CondSize(c), n);
    if f.Some? {
      EquatedSame(MarkLabel(EmitJmp(GenStmt(g2, t), g.nextLabel + 1), g.nextLabel), f.value, funcs, b, n);
    }
  }

  lemma {:induction false} EquatedLoopSame(g: Gen, s: Stmt, funcs: seq<FuncSym>, a: int, n: nat)
    requires s.While?
    ensures GenStmt(g, Equated(s)) == GenStmt(g, s)
    ensures StmtCost(funcs, Equated(s)) == StmtCost(funcs, s) && StmtSize(Equated(s)) == StmtSize(s)
    ensures StmtJumps(funcs, Equated(s), a) == StmtJumps(funcs, s, a) && GoodStmt(Equated(s), n) == GoodStmt(s, n)
    decreases s, 0
  {
    hide GenExpr, ExprCost, ExprSize, GoodExpr, GenCond, CondCost, CondSize, CondJumps, EquatedCond, EmitJmp, AllocLabel, MarkLabel;
    var g1 := MarkLabel(AllocLabel(AllocLabel(g)), g.nextLabel);
    EquatedCondSame(g1, s.cond, g.nextLabel + 1, funcs, a, a + StmtSize(s), n);
    EquatedSame(GenCond(g1, s.cond, g.nextLabel + 1, false), s.body, funcs, a + CondSize(s.cond), n);
  }

  lemma {:induction false} EquatedAllSame(g: Gen, ss: Stmts, funcs: seq<FuncSym>, a: int, n: nat)
    ensures GenItems(g, EquatedAll(ss)) == GenItems(g, ss)
    ensures ItemsCost(funcs, EquatedAll(ss)) == ItemsCost(funcs, ss) && ItemsSize(EquatedAll(ss)) == ItemsSize(ss)
    ensures ItemsJumps(funcs, EquatedAll(ss), a) == ItemsJumps(funcs, ss, a) && GoodStmts(EquatedAll(ss), n) == GoodStmts(ss, n)
    decreases ss, 2
  {
    hide GenExpr, ExprCost, ExprSize, GoodExpr, EmitStore, GenStmt, StmtCost, StmtSize, StmtJumps, GoodStmt, Directs;
    if ss.SCons? {
      var s := ss.head;
      EquatedSame(g, s, funcs, a, n);
      EquatedAllSame(GenItem(g, s), ss.next, funcs, a + ItemSize(s), n);
    }
  }

  lemma EquatedFuncSame(g: Gen, f: Func, funcs: seq<FuncSym>, a: int)
    ensures var h := EquatedFunc(f);
            && h.name == f.name && h.localBytes == f.localBytes && (h.body.Some? <==> f.body.Some?)
            && GenFunc(g, h) == GenFunc(g, f) && FuncSize(h) == FuncSize(f) && FuncCost(funcs, h) == FuncCost(funcs, f)
            && (f.body.Some? ==> StmtJumps(funcs, h.body.value, a) == StmtJumps(funcs, f.body.value, a))
  {
    hide GenStmt, StmtCost, StmtSize, StmtJumps, EmitPrologue, EmitEpilogue, RegisterFunc, Equated;
    if f.body.Some? {
      EquatedSame(EmitPrologue(RegisterFunc(g, f.name), f.localBytes), f.body.value, funcs, a, 0);
    }
  }

  lemma {:induction false} EquatedFuncs(g: Gen, p: Program, n: nat)
    requires n <= |p|
    ensures var q := EquatedProgram(p);
            && GenFuncs(g, q, n) == GenFuncs(g, p, n) && FuncsSize(q, n) == FuncsSize(p, n)
            && Symbols(q, n) == Symbols(p, n) && ProgramCost(q, n) == ProgramCost(p, n) && ProgramJumps(q, n) == ProgramJumps(p, n)
    decreases n
  {
    hide GenFunc, FuncSize, FuncCost, StmtJumps, EquatedFunc;
    if n > 0 {
      EquatedFuncs(g, p, n - 1);
      EquatedFuncSame(GenFuncs(g, p, n - 1), p[n - 1], Symbols(p, n), BodyStart(p, n - 1));
      assert EquatedProgram(p)[n - 1] == EquatedFunc(p[n - 1]);
    }
  }

  lemma {:induction false} EquatedFind(p: Program, name: string)
    ensures Find(EquatedProgram(p), name) == Find(p, name)
  {
  }

  lemma EquatedGood(p: Program)
    requires GoodProgram(p)
    ensures GoodProgram(EquatedProgram(p))
  {
    hide GoodStmt, Equated;
    forall i | 0 <= i < |p| ensures GoodFunc(EquatedProgram(p)[i]) {
      EquatedSame(Begin([], []), p[i].body.value, [], 0, p[i].localBytes);
    }
  }

  lemma EquatedEntry(p: Program, name: string)
    ensures Find(EquatedProgram(p), name) == Find(p, name)
    ensures Find(p, name) < |p| ==> EntryOf(EquatedProgram(p), name) == EntryOf(p, name)
  {
    hide FuncsSize, Symbols, ProgramCost, ProgramJumps, Find, EquatedProgram, GenFuncs;
    EquatedFind(p, name);
    if Find(p, name) < |p| { EquatedFuncs(Begin([], []), p, Find(p, name)); }
  }

  lemma EquatedLimits(p: Program)
    ensures WithinLimits(EquatedProgram(p)) <==> WithinLimits(p)
  {
    hide FuncsSize, Symbols, ProgramCost, ProgramJumps, Padding, EquatedFunc, GenFuncs;
    var q := EquatedProgram(p);
    EquatedFuncs(Begin([], []), p, |p|);
    forall i | 0 <= i < |p| ensures q[i].name == p[i].name {
      EquatedName(p[i]);
    }
  }

  lemma EquatedHarm(table: seq<Fixup>, p: Program)
    ensures HarmlessTable(table, EquatedProgram(p)) <==> HarmlessTable(table, p)
  {
    hide FuncsSize, Symbols, ProgramCost, ProgramJumps, Find, EquatedFunc, GenFuncs;
    EquatedFuncs(Begin([], []), p, |p|);
    var js := ProgramJumps(p, |p|);
    forall i | 0 <= i < |js| && i < |table| ensures Harmless(table[i], js[i], EquatedProgram(p)) <==> Harmless(table[i], js[i], p) {
      EquatedFind(p, table[i].funcName);
    }
  }

  /** A program whose conditions may have an arithmetic operator on top gets the very
      image of the program that compares with == there. */
  lemma EquatedImage(header: seq<byte>, table: seq<Fixup>, p: Program)
    ensures var q := EquatedProgram(p);
            && GenProgram(header, table, q) == GenProgram(header, table, p)
            && (WithinLimits(q) <==> WithinLimits(p)) && (HarmlessTable(table, q) <==> HarmlessTable(table, p))
            && forall name :: Find(q, name) == Find(p, name) && (Find(p, name) < |p| ==> EntryOf(q, name) == EntryOf(p, name))
  {
    hide GenFuncs, FuncsSize, Symbols, ProgramCost, ProgramJumps, Find, Padding, EquatedFunc, EntryOf, WithinLimits, HarmlessTable, Begin;
    EquatedFuncs(Begin(header, table), p, |p|);
    EquatedLimits(p);
    EquatedHarm(table, p);
    forall name ensures Find(EquatedProgram(p), name) == Find(p, name)
                        && (Find(p, name) < |p| ==> EntryOf(EquatedProgram(p), name) == EntryOf(p, name))
    {
      EquatedEntry(p, name);
    }
  }

  lemma EquatedName(f: Func)
    ensures EquatedFunc(f).name == f.name
  {
  }

  /** So that is what it computes. */
  lemma ArithmeticConditionRuns(header: seq<byte>, table: seq<Fixup>, p: Program, base: word,
                                fuel: nat, name: string, vals: seq<int>, m: State) returns (m': State)
    requires |header| == HEADER_SIZE && |table| == MAX_FIXUPS && HarmlessTable(table, p)
    requires GoodProgram(p) && WithinLimits(p) && base + 0x1_0000 < TWO64
    requires !Apply(EquatedProgram(p), fuel, name, vals).Fail? && |vals| <= 32 && Find(p, name) < |p|
    requires m.rip == EntryOf(p, name) && m.rsp + 8 + 8 * |vals| < TWO64
    requires m.rsp + 8 >= ApplyDepth(EquatedProgram(p), fuel, name, vals)
    requires forall k :: 0 <= k < |vals| ==> IsLong(vals[k]) && Load64(m.mem, m.rsp + 8 + 8 * k) == ToWord(vals[k])
    ensures var fin := GenProgram(header, table, p);
            SitesInside(fin, |fin.code|) && Section(fin) >= 0 && Reaches(Image(Linked(fin), base), m, m')
    ensures Left(Image([], base), vals, Apply(EquatedProgram(p), fuel, name, vals), m, m')
  {
    hide *;
    EquatedImage(header, table, p);
    EquatedGood(p);
    m' := CompiledCallCorrect(header, table, EquatedProgram(p), base, fuel, name, vals, m);
  }
}
