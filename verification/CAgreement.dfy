/** The int semantics of lowered functions follows C's meaning, statement by statement. */
module CAgreement {
  import opened Words
  import opened Machine
  import opened Options
  import opened Ast
  import opened IntSemantics
  import opened Parser
  import opened StatementPrinting
  import opened Slots
  import opened Lowering
  import opened Scoping
  import opened CMeaning

  /** What the two values of an expression or call have to do with each other. */
  predicate SameResult(v: Value, w: Value) {
    (v.V? ==> w == v) && (v.Void? ==> !w.Fail?)
  }

  ghost predicate Follows(o: COutcome, i: IntOutcome, vis: seq<Declared>, n: nat) {
    match o
    case Runs(st) => i.Goes? && |i.env.params| == n && CellsHold(st, vis, i.env)
    case Ends(v) => i.Gives? && (v.V? ==> i.v == v.v)
    case NoMeaning => true
  }

  /** A point of the text and the variables there. */
  ghost predicate Here(fs: seq<FuncTree>, p: Program, c: Scope, st: seq<Cell>, vis: seq<Declared>, env: IntEnv) {
    Lowers(fs, p) && c.bp >= 0 && CellsHold(st, vis, env) && Apart(vis, c.bp, |env.params|)
  }

  // ----- expressions -----

  lemma {:induction false} EvalFollows(fs: seq<FuncTree>, p: Program, fuel: nat, st: seq<Cell>, vis: seq<Declared>, env: IntEnv, t: Tree, natural: bool)
    requires Lowers(fs, p) && CellsHold(st, vis, env) && Resolves(t, vis) && ValueTree(t) && Scalar(t)
    ensures SameResult(CEval(fs, fuel, st, t, natural), EvalInt(p, fuel, env, LowerE(t), natural))
    decreases fuel, t, 0
  {
    hide Lowers, CellsHold, Seen, ReadInt, CRead, ArithInt, CNumber, Decimal, Atoi, CharValue, CChar;
    match t
    case Lit(Number(s)) => NumberFollows(s);
    case Lit(CharTok(s)) => CharFollows(s);
    case Lit(_) =>
    case Id(name, at) => if CRead(st, name).V? { ReadHolds(st, vis, env, name, at); } NeverVoidRead(st, name);
    case Node(op, l, r) =>
      EvalFollows(fs, p, fuel, st, vis, env, l, natural);
      EvalFollows(fs, p, fuel, st, vis, env, r, natural);
      var x, y := CEval(fs, fuel, st, l, natural), CEval(fs, fuel, st, r, natural);
      if x.V? && y.V? { NeverVoid(op, x.v, y.v); }
    case CallT(name, args) =>
      ArgsFollow(fs, p, fuel, st, vis, env, args, natural);
      if fuel > 0 && CArgs(fs, fuel, st, args, natural).Some? {
        ApplyFollows(fs, p, fuel - 1, name, CArgs(fs, fuel, st, args, natural).value, natural);
      }
    case Deref(_) =>
  }

  lemma NeverVoidRead(st: seq<Cell>, name: string)
    ensures !CRead(st, name).Void?
  {
    hide Index;
  }

  lemma NumberFollows(s: string)
    requires PlainNumber(s)
    ensures CNumber(s) == Decimal(s, 0) == Atoi(s, 0) && IsInt(Atoi(s, 0))
  {
    LiteralValue(s);
  }

  lemma CharFollows(s: string)
    requires PlainChar(s)
    ensures CChar(s).Some? && CharValue(s) == CChar(s).value && IsInt(CharValue(s))
  {
    CharMeaning(s);
    CharIsInt(s);
  }

  lemma CharIsInt(s: string)
    ensures 0 <= CharValue(s) < 0x11_0000
  {
  }

  lemma {:induction false} ArgsFollow(fs: seq<FuncTree>, p: Program, fuel: nat, st: seq<Cell>, vis: seq<Declared>, env: IntEnv, ts: Trees, natural: bool)
    requires Lowers(fs, p) && CellsHold(st, vis, env) && ResolvesArgs(ts, vis) && ValueArgs(ts) && ScalarArgs(ts)
    ensures CArgs(fs, fuel, st, ts, natural).Some? ==>
              ArgsInt(p, fuel, env, LowerArgs(ts), natural) == CArgs(fs, fuel, st, ts, natural)
    decreases fuel, ts, 0
  {
    hide Lowers, CellsHold, Resolves, ValueTree, Scalar, CEval, EvalInt;
    if ts.TCons? {
      ArgsFollow(fs, p, fuel, st, vis, env, ts.next, natural);
      EvalFollows(fs, p, fuel, st, vis, env, ts.head, natural);
    }
  }

  lemma {:induction false} TruthFollows(fs: seq<FuncTree>, p: Program, fuel: nat, st: seq<Cell>, vis: seq<Declared>, env: IntEnv, t: Tree, natural: bool)
    requires Lowers(fs, p) && CellsHold(st, vis, env) && Resolves(t, vis) && CondTree(t) && Scalar(t)
    ensures var v := CEval(fs, fuel, st, t, natural);
            v.V? ==> TruthInt(p, fuel, env, LowerE(t), natural) == Some(v.v != 0)
    decreases fuel, t, 1
  {
    hide Lowers, CellsHold, ValueTree;
    if t.Node? {
      EvalFollows(fs, p, fuel, st, vis, env, t.left, natural);
      EvalFollows(fs, p, fuel, st, vis, env, t.right, natural);
    } else {
      EvalFollows(fs, p, fuel, st, vis, env, t, natural);
      NoOperator(t);
    }
  }

  lemma NoOperator(t: Tree)
    requires Scalar(t) && !t.Node?
    ensures !LowerE(t).Bin?
  {
  }

  // ----- calls -----

  lemma {:induction false} ApplyFollows(fs: seq<FuncTree>, p: Program, fuel: nat, name: string, vals: seq<int>, natural: bool)
    requires Lowers(fs, p)
    ensures SameResult(CApply(fs, fuel, name, vals, natural), ApplyInt(p, fuel, name, vals, natural))
    decreases fuel
  {
    hide Lowers, Common, CExec, ExecInt, FindTree, Find, LowerHead;
    LowersName(fs, p, name);
    var i := FindTree(fs, name);
    if i < |fs| && fs[i].body.Some? && |vals| == |fs[i].params| {
      LowersAt(fs, p, i);
      var fn, names := fs[i], fs[i].params;
      var c, first := CommonRead(fn);
      var st, vis, env := Passed(names, vals), ParamDecls(names, |names|), IntEnv(map[], vals);
      PassedHolds(names, vals);
      var s := fn.body.value.head;
      CommonParts(fn, c, first);
      assert Here(fs, p, c, st, vis, env);
      ExecFollows(fs, p, fuel, c, first, st, vis, env, s, natural);
      OneOnly(fs, fuel, st, fn.body.value, natural);
    }
  }

  lemma LowersAt(fs: seq<FuncTree>, p: Program, i: nat)
    requires Lowers(fs, p) && i < |fs|
    ensures |p| == |fs| && Common(fs[i]) && p[i] == LowerFunc(fs[i])
    ensures p[i].body == Some(LowerHead(fs[i].body.value))
  {
    hide Common;
    assert Common(fs[i]);
    CommonLowers(fs[i]);
  }

  lemma CommonLowers(fn: FuncTree)
    requires Common(fn)
    ensures fn.body.Some? && fn.body.value.STCons? && ScalarAll(fn.body.value) && fn.localBytes >= 0
  {
  }

  lemma CommonRead(fn: FuncTree) returns (c: Scope, first: string)
    requires Common(fn)
    ensures ReadIn(fn, c, first)
  {
    hide ReadIn;
    c, first :| ReadIn(fn, c, first);
  }

  /** The body is one block, read where the parameters are in force. */
  lemma CommonParts(fn: FuncTree, c: Scope, first: string)
    requires Common(fn) && ReadIn(fn, c, first)
    ensures c.bp == 0 && Single(fn.body.value)
    ensures var s := fn.body.value.head;
            && s.SBlock? && BoundS(s, c, first) && ResolvesS(s, ParamDecls(fn.params, |fn.params|)) && PlainStmt(s) && ScalarS(s)
            && LowerHead(fn.body.value) == LowerS(s)
  {
    hide BoundS, ResolvesS, PlainStmt, ScalarS, LowerS, UsesAll;
  }

  lemma PassedHolds(names: seq<string>, vals: seq<int>)
    requires |names| == |vals|
    ensures CellsHold(Passed(names, vals), ParamDecls(names, |names|), IntEnv(map[], vals))
    ensures Apart(ParamDecls(names, |names|), 0, |vals|)
  {
    hide ParamIndex;
    var vis := ParamDecls(names, |names|);
    forall k | 0 <= k < |vis| ensures vis[k].slot == ParamSlot(k) && ParamIndex(vis[k].slot) == k && vis[k].slot < 0 {
      ParamSlotIndex(k);
    }
  }

  /** A list of one statement. */
  lemma OneOnly(fs: seq<FuncTree>, fuel: nat, st: seq<Cell>, ss: STrees, natural: bool)
    requires Single(ss)
    ensures CAll(fs, fuel, st, ss, natural) == CExec(fs, fuel, st, ss.head, natural)
  {
    hide CExec;
    var o := CExec(fs, fuel, st, ss.head, natural);
    if o.Runs? { assert CAll(fs, fuel, o.st, STNil, natural) == Runs(o.st); }
  }

  // ----- statements -----

  /** The assignment node carries the slot of its variable. */
  lemma AssignTarget(c: Scope, first: string, vis: seq<Declared>, slot: int, l: Tree)
    requires l.Id? && Bound(l, c.syms) && Resolves(l, vis) && slot == SlotOf(c.syms, NodeText(l, first))
    ensures l.at.Local? && Seen(vis, l.name) == Some(l.at.off) && Target(slot, l.at.off) == l.at.off
  {
    hide Seen;
  }

  lemma {:induction false} AssignFollows(fs: seq<FuncTree>, p: Program, fuel: nat, c: Scope, st: seq<Cell>, vis: seq<Declared>, env: IntEnv,
                                         name: string, off: int, r: Tree, natural: bool)
    requires Here(fs, p, c, st, vis, env) && Seen(vis, name) == Some(off) && Resolves(r, vis) && ValueTree(r) && Scalar(r)
    ensures var v, w := CEval(fs, fuel, st, r, natural), EvalInt(p, fuel, env, LowerE(r), natural);
            Follows(if v.V? then CWrite(st, name, v.v, natural) else NoMeaning,
                    if w.V? then WriteInt(env, off, w.v, natural) else Undefined, vis, |env.params|)
    decreases fuel, r, 1
  {
    hide Lowers, CellsHold, Apart, Seen, CEval, EvalInt, CWrite, WriteInt, ValueTree, Resolves, Scalar;
    EvalFollows(fs, p, fuel, st, vis, env, r, natural);
    var v := CEval(fs, fuel, st, r, natural);
    if v.V? && CWrite(st, name, v.v, natural).Runs? { WriteHolds(st, vis, env, c.bp, name, off, v.v, natural); }
    WriteOnly(st, name, if v.V? then v.v else 0, natural);
  }

  lemma WriteOnly(st: seq<Cell>, name: string, v: int, natural: bool)
    ensures !CWrite(st, name, v, natural).Ends?
  {
    hide Index;
  }

  /** A statement that is no declaration, as a branch or body. */
  lemma {:induction false} ExecFollows(fs: seq<FuncTree>, p: Program, fuel: nat, c: Scope, first: string, st: seq<Cell>, vis: seq<Declared>, env: IntEnv, s: STree, natural: bool)
    requires Here(fs, p, c, st, vis, env) && BoundS(s, c, first) && ResolvesS(s, vis) && PlainStmt(s) && ScalarS(s) && !s.SDecl?
    ensures Follows(CExec(fs, fuel, st, s, natural), ExecInt(p, fuel, env, LowerS(s), natural), vis, |env.params|)
    decreases fuel, s, 3
  {
    hide Lowers, CellsHold, Apart, Seen, CEval, EvalInt, TruthInt, CWrite, WriteInt, ValueTree, CondTree, Resolves, Scalar, Bound, LowerE, CAll, CFor,
         ResolvesAll, BoundAll, PlainStmts, ScalarAll, LowerAll, LowerHead, OneStatement, SlotOf;
    match s
    case SExpr(e) => EvalFollows(fs, p, fuel, st, vis, env, e, natural);
    case SAssign(slot, l, r) =>
      AssignTarget(c, first, vis, slot, l);
      AssignFollows(fs, p, fuel, c, st, vis, env, l.name, l.at.off, r, natural);
    case SIf(_, _, _) => IfFollows(fs, p, fuel, c, first, st, vis, env, s, natural);
    case SWhile(_, _) => WhileFollows(fs, p, fuel, c, first, st, vis, env, s, natural);
    case SFor(_, _, _, _) => ForFollows(fs, p, fuel, c, first, st, vis, env, s, natural);
    case SBlock(items) => BlockFollows(fs, p, fuel, c, first, st, vis, env, items, natural);
    case SReturn(None) =>
    case SReturn(Some(e)) => EvalFollows(fs, p, fuel, st, vis, env, e, natural);
  }

  lemma {:induction false} BlockFollows(fs: seq<FuncTree>, p: Program, fuel: nat, c: Scope, first: string, st: seq<Cell>, vis: seq<Declared>, env: IntEnv, items: STrees, natural: bool)
    requires Here(fs, p, c, st, vis, env) && BoundAll(items, c, first) && ResolvesAll(items, vis) && PlainStmts(items) && ScalarAll(items)
    ensures Follows(LeaveBlock(CAll(fs, fuel, st, items, natural), |st|), ItemsInt(p, fuel, env, LowerAll(items), natural), vis, |env.params|)
    decreases fuel, items, 1
  {
    hide Lowers, Apart, CAll, ItemsInt, BoundAll, ResolvesAll, PlainStmts, ScalarAll, LowerAll, ReadInt;
    AllFollow(fs, p, fuel, c, first, st, vis, env, items, natural);
    SeenGrows(items, vis);
    var o, i := CAll(fs, fuel, st, items, natural), ItemsInt(p, fuel, env, LowerAll(items), natural);
    if o.Runs? { LeaveHolds(o.st, SeenAfterAll(items, vis), i.env, |st|); }
  }

  /** One statement as branch or loop body: its node is that of the list's head. */
  lemma {:induction false} BranchFollows(fs: seq<FuncTree>, p: Program, fuel: nat, c: Scope, first: string, st: seq<Cell>, vis: seq<Declared>, env: IntEnv, ss: STrees, natural: bool)
    requires Here(fs, p, c, st, vis, env) && BoundAll(ss, c, first) && ResolvesAll(ss, vis) && PlainStmts(ss) && ScalarAll(ss) && OneStatement(ss)
    ensures Follows(LeaveBlock(CAll(fs, fuel, st, ss, natural), |st|), ExecInt(p, fuel, env, LowerHead(ss), natural), vis, |env.params|)
    decreases fuel, ss, 1
  {
    hide Lowers, Apart, CAll, CExec, ExecInt, BoundS, ResolvesS, PlainStmt, ScalarS, LowerS, ReadInt;
    OneOnly(fs, fuel, st, ss, natural);
    ExecFollows(fs, p, fuel, c, first, st, vis, env, ss.head, natural);
    var o := CExec(fs, fuel, st, ss.head, natural);
    if o.Runs? { assert o.st[..|st|] == o.st; }
  }

  lemma {:induction false} IfFollows(fs: seq<FuncTree>, p: Program, fuel: nat, c: Scope, first: string, st: seq<Cell>, vis: seq<Declared>, env: IntEnv, s: STree, natural: bool)
    requires Here(fs, p, c, st, vis, env) && BoundS(s, c, first) && ResolvesS(s, vis) && PlainStmt(s) && ScalarS(s) && s.SIf?
    ensures Follows(CExec(fs, fuel, st, s, natural), ExecInt(p, fuel, env, LowerS(s), natural), vis, |env.params|)
    decreases fuel, s, 1
  {
    hide Lowers, CellsHold, CEval, TruthInt, CondTree, Resolves, Scalar, Bound, LowerE, CAll,
         ResolvesAll, BoundAll, PlainStmts, ScalarAll, LowerHead, OneStatement;
    TruthFollows(fs, p, fuel, st, vis, env, s.cond, natural);
    BranchFollows(fs, p, fuel, c, first, st, vis, env, s.thn, natural);
    if s.els.Some? {
      var k := AfterAll(s.thn, c);
      assert Here(fs, p, k, st, vis, env) by { Later(s.thn, c, first, vis, |env.params|); }
      BranchFollows(fs, p, fuel, k, first, st, vis, env, s.els.value, natural);
    }
  }

  /** Later in the text slots are still apart. */
  lemma Later(ss: STrees, c: Scope, first: string, vis: seq<Declared>, n: nat)
    requires BoundAll(ss, c, first) && Apart(vis, c.bp, n) && c.bp >= 0
    ensures AfterAll(ss, c).bp >= c.bp && Apart(vis, AfterAll(ss, c).bp, n)
  {
    hide BoundAll, Apart;
    SlotsAreCellsAll(ss, c, first);
    ApartGrows(vis, c.bp, AfterAll(ss, c).bp, n);
  }

  lemma {:induction false} WhileFollows(fs: seq<FuncTree>, p: Program, fuel: nat, c: Scope, first: string, st: seq<Cell>, vis: seq<Declared>, env: IntEnv, s: STree, natural: bool)
    requires Here(fs, p, c, st, vis, env) && BoundS(s, c, first) && ResolvesS(s, vis) && PlainStmt(s) && ScalarS(s) && s.SWhile?
    ensures Follows(CExec(fs, fuel, st, s, natural), ExecInt(p, fuel, env, LowerS(s), natural), vis, |env.params|)
    decreases fuel, s, 1
  {
    hide Lowers, CellsHold, CEval, TruthInt, CondTree, Resolves, Scalar, Bound, LowerE, CAll,
         ResolvesAll, BoundAll, PlainStmts, ScalarAll, LowerHead, OneStatement;
    var body := LowerHead(s.body);
    TruthFollows(fs, p, fuel, st, vis, env, s.cond, natural);
    BranchFollows(fs, p, fuel, c, first, st, vis, env, s.body, natural);
    var o, i := LeaveBlock(CAll(fs, fuel, st, s.body, natural), |st|), ExecInt(p, fuel, env, body, natural);
    if o.Runs? && fuel > 0 {
      WhileFollows(fs, p, fuel - 1, c, first, o.st, vis, i.env, s, natural);
    }
  }

  lemma {:induction false} ItemFollows(fs: seq<FuncTree>, p: Program, fuel: nat, c: Scope, first: string, st: seq<Cell>, vis: seq<Declared>, env: IntEnv, s: STree, natural: bool)
    requires Here(fs, p, c, st, vis, env) && BoundS(s, c, first) && ResolvesS(s, vis) && PlainStmt(s) && ScalarS(s)
    ensures Follows(CExec(fs, fuel, st, s, natural), ItemInt(p, fuel, env, LowerS(s), natural), SeenAfter(s, vis), |env.params|)
    ensures Apart(SeenAfter(s, vis), After(s, c).bp, |env.params|) && After(s, c).bp >= 0
    decreases fuel, s, 4
  {
    hide Lowers, CellsHold, Apart, Seen, CEval, EvalInt, CWrite, WriteInt, ValueTree, Resolves, Scalar, Bound, CExec, ExecInt;
    if s.SDecl? {
      DeclFollows(fs, p, fuel, c, first, st, vis, env, s, natural);
    } else {
      ExecFollows(fs, p, fuel, c, first, st, vis, env, s, natural);
      ItemIsExec(fs, p, fuel, st, env, s, natural);
      SlotsAreCells(s, c, first);
      ApartGrows(vis, c.bp, After(s, c).bp, |env.params|);
    }
  }

  /** As an item a statement runs as it would alone; a variable merely named does
      nothing. */
  lemma ItemIsExec(fs: seq<FuncTree>, p: Program, fuel: nat, st: seq<Cell>, env: IntEnv, s: STree, natural: bool)
    requires ScalarS(s) && !s.SDecl?
    ensures ItemInt(p, fuel, env, LowerS(s), natural) == ExecInt(p, fuel, env, LowerS(s), natural)
            || (s.SExpr? && s.e.Id? && ItemInt(p, fuel, env, LowerS(s), natural) == IntOutcome.Goes(env)
                && (CExec(fs, fuel, st, s, natural) == Runs(st) || CExec(fs, fuel, st, s, natural) == NoMeaning))
  {
    hide ExecInt, CEval;
  }

  lemma {:induction false} DeclFollows(fs: seq<FuncTree>, p: Program, fuel: nat, c: Scope, first: string, st: seq<Cell>, vis: seq<Declared>, env: IntEnv, s: STree, natural: bool)
    requires Here(fs, p, c, st, vis, env) && BoundS(s, c, first) && ResolvesS(s, vis) && PlainStmt(s) && ScalarS(s) && s.SDecl?
    ensures Follows(CExec(fs, fuel, st, s, natural), ItemInt(p, fuel, env, LowerS(s), natural), SeenAfter(s, vis), |env.params|)
    ensures Apart(SeenAfter(s, vis), After(s, c).bp, |env.params|) && After(s, c).bp >= 0
    decreases fuel, s, 1
  {
    hide Lowers, CellsHold, Apart, Seen, CEval, EvalInt, CWrite, WriteInt, ValueTree, Resolves, Scalar, Bound;
    var st1, vis1 := st + [Cell(s.name, true, None)], SeenAfter(s, vis);
    DeclareHolds(st, vis, env, c.bp, |env.params|, s.name);
    if s.init.Some? {
      var k := Declare(c, s.name);
      assert Here(fs, p, k, st1, vis1, env);
      AssignFollows(fs, p, fuel, k, st1, vis1, env, s.name, s.slot, s.init.value, natural);
    }
  }

  lemma {:induction false} AllFollow(fs: seq<FuncTree>, p: Program, fuel: nat, c: Scope, first: string, st: seq<Cell>, vis: seq<Declared>, env: IntEnv, ss: STrees, natural: bool)
    requires Here(fs, p, c, st, vis, env) && BoundAll(ss, c, first) && ResolvesAll(ss, vis) && PlainStmts(ss) && ScalarAll(ss)
    ensures Follows(CAll(fs, fuel, st, ss, natural), ItemsInt(p, fuel, env, LowerAll(ss), natural), SeenAfterAll(ss, vis), |env.params|)
    decreases fuel, ss, 0
  {
    hide Lowers, CellsHold, Apart, CExec, ItemInt, BoundS, ResolvesS, PlainStmt, ScalarS, LowerS, SeenAfter, After;
    if ss.STCons? {
      var s := ss.head;
      ItemFollows(fs, p, fuel, c, first, st, vis, env, s, natural);
      var o, i := CExec(fs, fuel, st, s, natural), ItemInt(p, fuel, env, LowerS(s), natural);
      if o.Runs? {
        AllFollow(fs, p, fuel, After(s, c), first, o.st, SeenAfter(s, vis), i.env, ss.next, natural);
      }
    }
  }

  // ----- for -----

  /** The loop a for statement becomes. */
  function Loop(s: STree): Stmt
    requires s.SFor? && ScalarS(s)
  {
    While(LowerE(s.cond), Block(Join(BodyItems(s.body), SCons(LowerS(s.post), SNil))))
  }

  function BodyItems(ss: STrees): Stmts
    requires ss.STCons? && ScalarAll(ss)
  {
    if LowerHead(ss).Block? then LowerHead(ss).items else LowerAll(ss)
  }

  lemma LoweredFor(s: STree)
    requires s.SFor? && ScalarS(s)
    ensures LowerS(s) == Block(SCons(LowerHead(s.start), SCons(Loop(s), SNil)))
  {
    hide LowerE, LowerAll, LowerHead, Join;
  }

  lemma {:induction false} JoinRuns(p: Program, fuel: nat, env: IntEnv, a: Stmts, b: Stmts, natural: bool)
    ensures ItemsInt(p, fuel, env, Join(a, b), natural)
         == var o := ItemsInt(p, fuel, env, a, natural);
            if o.Goes? then ItemsInt(p, fuel, o.env, b, natural) else o
    decreases a
  {
    hide ItemInt;
    if a.SCons? {
      var o := ItemInt(p, fuel, env, a.head, natural);
      if o.Goes? { JoinRuns(p, fuel, o.env, a.next, b, natural); }
    }
  }

  lemma OneItem(p: Program, fuel: nat, env: IntEnv, s: Stmt, natural: bool)
    ensures ItemsInt(p, fuel, env, SCons(s, SNil), natural) == ItemInt(p, fuel, env, s, natural)
  {
    hide ItemInt;
    var o := ItemInt(p, fuel, env, s, natural);
    if o.Goes? { assert ItemsInt(p, fuel, o.env, SNil, natural) == o; }
  }

  lemma {:induction false} BodyFollows(fs: seq<FuncTree>, p: Program, fuel: nat, c: Scope, first: string, st: seq<Cell>, vis: seq<Declared>, env: IntEnv, ss: STrees, natural: bool)
    requires Here(fs, p, c, st, vis, env) && BoundAll(ss, c, first) && ResolvesAll(ss, vis) && PlainStmts(ss) && ScalarAll(ss) && OneStatement(ss)
    ensures Follows(LeaveBlock(CAll(fs, fuel, st, ss, natural), |st|), ItemsInt(p, fuel, env, BodyItems(ss), natural), vis, |env.params|)
    decreases fuel, ss, 2
  {
    hide Lowers, CellsHold, Apart, CAll, ItemInt, BoundAll, ResolvesAll, PlainStmts, OneStatement, LowerS, ExecInt, ItemsInt, ScalarS;
    NoDeclaration(ss);
    if LowerHead(ss).Block? {
      BranchFollows(fs, p, fuel, c, first, st, vis, env, ss, natural);
      BlockRuns(p, fuel, env, LowerHead(ss), natural);
    } else {
      BlockFollows(fs, p, fuel, c, first, st, vis, env, ss, natural);
    }
  }

  lemma NoDeclaration(ss: STrees)
    requires OneStatement(ss)
    ensures ss.STCons? && !ss.head.SDecl?
  {
  }

  lemma BlockRuns(p: Program, fuel: nat, env: IntEnv, s: Stmt, natural: bool)
    requires s.Block?
    ensures ExecInt(p, fuel, env, s, natural) == ItemsInt(p, fuel, env, s.items, natural)
  {
    hide ItemsInt;
  }

  /** The third part of a for. */
  lemma {:induction false} PostFollows(fs: seq<FuncTree>, p: Program, fuel: nat, c: Scope, first: string, st: seq<Cell>, vis: seq<Declared>, env: IntEnv, s: STree, natural: bool)
    requires Here(fs, p, c, st, vis, env) && BoundPost(s, c.syms, first) && ResolvesS(s, vis) && PlainStmt(s) && ScalarS(s)
    ensures Follows(CExec(fs, fuel, st, s, natural), ItemInt(p, fuel, env, LowerS(s), natural), vis, |env.params|)
    decreases fuel, s, 3
  {
    hide Lowers, CellsHold, Apart, Seen, CEval, EvalInt, CWrite, WriteInt, ValueTree, Resolves, Scalar, Bound, LowerE, SlotOf;
    if s.SExpr? {
      EvalFollows(fs, p, fuel, st, vis, env, s.e, natural);
    } else {
      AssignTarget(c, first, vis, s.slot, s.left);
      AssignFollows(fs, p, fuel, c, st, vis, env, s.left.name, s.left.at.off, s.right, natural);
    }
  }

  /** All the parts of a for statement are as its rounds need them. */
  ghost predicate RoundsReady(s: STree, c: Scope, first: string, vis: seq<Declared>) {
    && s.SFor? && BoundPost(s.post, c.syms, first) && BoundAll(s.body, c, first)
    && Resolves(s.cond, vis) && ResolvesS(s.post, vis) && ResolvesAll(s.body, vis)
    && CondTree(s.cond) && OneStatement(s.body) && PlainStmts(s.body) && PlainStmt(s.post) && ScalarS(s)
  }

  /** One round: body, then third part. */
  lemma {:induction false} RoundFollows(fs: seq<FuncTree>, p: Program, fuel: nat, c: Scope, first: string, st: seq<Cell>, vis: seq<Declared>, env: IntEnv, s: STree, natural: bool)
    requires Here(fs, p, c, st, vis, env) && RoundsReady(s, c, first, vis)
    ensures var o := LeaveBlock(CAll(fs, fuel, st, s.body, natural), |st|);
            Follows(if o.Runs? then CExec(fs, fuel, o.st, s.post, natural) else o,
                    ExecInt(p, fuel, env, Loop(s).body, natural), vis, |env.params|)
    decreases fuel, s, 0
  {
    hide Lowers, CellsHold, Apart, CAll, CExec, ItemInt, BoundAll, ResolvesAll, PlainStmts, OneStatement, ItemsInt, BodyItems, LowerS, Join,
         ResolvesS, PlainStmt, BoundPost, LowerE;
    var items, last := BodyItems(s.body), SCons(LowerS(s.post), SNil);
    BodyFollows(fs, p, fuel, c, first, st, vis, env, s.body, natural);
    JoinRuns(p, fuel, env, items, last, natural);
    BlockRuns(p, fuel, env, Loop(s).body, natural);
    var o, i := LeaveBlock(CAll(fs, fuel, st, s.body, natural), |st|), ItemsInt(p, fuel, env, items, natural);
    if o.Runs? {
      PostFollows(fs, p, fuel, c, first, o.st, vis, i.env, s.post, natural);
      OneItem(p, fuel, i.env, LowerS(s.post), natural);
    }
  }

  lemma {:induction false} RoundsFollow(fs: seq<FuncTree>, p: Program, fuel: nat, c: Scope, first: string, st: seq<Cell>, vis: seq<Declared>, env: IntEnv, s: STree, natural: bool)
    requires Here(fs, p, c, st, vis, env) && RoundsReady(s, c, first, vis)
    ensures Follows(CFor(fs, fuel, st, s, natural), ExecInt(p, fuel, env, Loop(s), natural), vis, |env.params|)
    decreases fuel, s, 1
  {
    hide Lowers, CellsHold, Apart, CAll, CExec, CEval, TruthInt, BoundAll, ResolvesAll, PlainStmts, OneStatement, ItemsInt, BodyItems, LowerS, Join,
         ResolvesS, PlainStmt, BoundPost, LowerE, CondTree, Resolves;
    TruthFollows(fs, p, fuel, st, vis, env, s.cond, natural);
    RoundFollows(fs, p, fuel, c, first, st, vis, env, s, natural);
    var o := LeaveBlock(CAll(fs, fuel, st, s.body, natural), |st|);
    if o.Runs? {
      var q, i := CExec(fs, fuel, o.st, s.post, natural), ExecInt(p, fuel, env, Loop(s).body, natural);
      if q.Runs? && fuel > 0 { RoundsFollow(fs, p, fuel - 1, c, first, q.st, vis, i.env, s, natural); }
    }
  }

  lemma {:induction false} ForFollows(fs: seq<FuncTree>, p: Program, fuel: nat, c: Scope, first: string, st: seq<Cell>, vis: seq<Declared>, env: IntEnv, s: STree, natural: bool)
    requires Here(fs, p, c, st, vis, env) && BoundS(s, c, first) && ResolvesS(s, vis) && PlainStmt(s) && ScalarS(s) && s.SFor?
    ensures Follows(CExec(fs, fuel, st, s, natural), ExecInt(p, fuel, env, LowerS(s), natural), vis, |env.params|)
    decreases fuel, s, 2
  {
    hide Lowers, CellsHold, Apart, CAll, CFor, ItemInt, ExecInt, BoundS, BoundAll, ResolvesAll, PlainStmts, OneStatement, ItemsInt, LowerS, Loop,
         ResolvesS, PlainStmt, BoundPost, CondTree, Resolves, SeenAfter, SeenAfterAll, ScalarS, LowerHead, RoundsReady;
    ForParts(s, c, first, vis);
    LoweredFor(s);
    BlockRuns(p, fuel, env, LowerS(s), natural);
    var a, k, inner := s.start, AfterAll(s.start, c), SeenAfterAll(s.start, vis);
    OneOnly(fs, fuel, st, a, natural);
    ItemFollows(fs, p, fuel, c, first, st, vis, env, a.head, natural);
    var o, i := CExec(fs, fuel, st, a.head, natural), ItemInt(p, fuel, env, LowerS(a.head), natural);
    ForIs(fs, fuel, st, s, natural);
    TwoItems(p, fuel, env, LowerS(a.head), Loop(s), natural);
    if o.Runs? {
      assert Here(fs, p, k, o.st, inner, i.env);
      RoundsFollow(fs, p, fuel, k, first, o.st, inner, i.env, s, natural);
      LeaveFollows(CFor(fs, fuel, o.st, s, natural), ExecInt(p, fuel, i.env, Loop(s), natural), inner, vis, |env.params|);
      SeenGrows(a, vis);
      SameLength(st, vis, env);
    }
  }

  lemma SameLength(st: seq<Cell>, vis: seq<Declared>, env: IntEnv)
    requires CellsHold(st, vis, env)
    ensures |st| == |vis|
  {
  }

  lemma LeaveFollows(o: COutcome, i: IntOutcome, inner: seq<Declared>, vis: seq<Declared>, n: nat)
    requires Follows(o, i, inner, n)
    ensures |vis| <= |inner| && inner[..|vis|] == vis ==> Follows(LeaveBlock(o, |vis|), i, vis, n)
  {
    hide ReadInt;
  }

  lemma ForIs(fs: seq<FuncTree>, fuel: nat, st: seq<Cell>, s: STree, natural: bool)
    requires s.SFor?
    ensures CExec(fs, fuel, st, s, natural)
         == var o := CAll(fs, fuel, st, s.start, natural);
            if o.Runs? then LeaveBlock(CFor(fs, fuel, o.st, s, natural), |st|) else o
  {
    hide CAll, CFor;
  }

  lemma TwoItems(p: Program, fuel: nat, env: IntEnv, s: Stmt, loop: Stmt, natural: bool)
    requires loop.While?
    ensures ItemsInt(p, fuel, env, SCons(s, SCons(loop, SNil)), natural)
         == var o := ItemInt(p, fuel, env, s, natural);
            if o.Goes? then ExecInt(p, fuel, o.env, loop, natural) else o
  {
    hide ExecInt;
    var o := ItemInt(p, fuel, env, s, natural);
    if o.Goes? { OneItem(p, fuel, o.env, loop, natural); }
  }

  /** What the conditions on a for statement say about its parts. */
  lemma ForParts(s: STree, c: Scope, first: string, vis: seq<Declared>)
    requires BoundS(s, c, first) && ResolvesS(s, vis) && PlainStmt(s) && ScalarS(s) && s.SFor?
    ensures Single(s.start) && BoundS(s.start.head, c, first) && ResolvesS(s.start.head, vis) && PlainStmt(s.start.head) && ScalarS(s.start.head)
    ensures ScalarAll(s.start) && LowerHead(s.start) == LowerS(s.start.head) && Loop(s).While?
    ensures SeenAfterAll(s.start, vis) == SeenAfter(s.start.head, vis) && AfterAll(s.start, c) == After(s.start.head, c)
    ensures RoundsReady(s, AfterAll(s.start, c), first, SeenAfterAll(s.start, vis))
  {
    hide Resolves, CondTree, Bound, Scalar, BoundPost, OneStatement, LowerS, Join, LowerE, LowerAll, LowerHead, After, SeenAfter;
    assert AfterAll(STNil, After(s.start.head, c)) == After(s.start.head, c);
    assert SeenAfterAll(STNil, SeenAfter(s.start.head, vis)) == SeenAfter(s.start.head, vis);
    HeadIs(s.start);
  }

  lemma HeadIs(ss: STrees)
    requires ss.STCons? && ScalarAll(ss)
    ensures LowerHead(ss) == LowerS(ss.head)
  {
    hide LowerS;
  }
}
