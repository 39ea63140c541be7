/**
 What the 64-bit code says about C's 32-bit int. Two meanings of the same trees:
 C's, where signed overflow and division by zero have no result, and wrapping
 two's complement. Locals are stored in four bytes and loaded zero-extended, so
 a negative local comes back as a large positive number.
 */
module IntSemantics {
  import opened Words
  import opened Machine
  import opened Options
  import opened Ast

  /** Variables holding ints. */
  datatype IntEnv = IntEnv(locals: map<int, int>, params: seq<int>)

  datatype IntOutcome = Goes(env: IntEnv) | Gives(v: int) | Undefined

  function ReadInt(env: IntEnv, off: int): Value {
    if off < 0 then
      var k := ParamIndex(off);
      if 0 <= k < |env.params| then V(env.params[k]) else Fail
    else if off in env.locals then V(env.locals[off])
    else Fail
  }

  /** With `natural` set, storing a negative number in a local is refused. */
  function WriteInt(env: IntEnv, off: int, v: int, natural: bool): IntOutcome {
    if off < 0 then
      var k := ParamIndex(off);
      if 0 <= k < |env.params| then Goes(env.(params := env.params[k := v])) else Undefined
    else if natural && v < 0 then Undefined
    else Goes(env.(locals := env.locals[off := v]))
  }

  function Checked(x: int): Value {
    if IsInt(x) then V(x) else Fail
  }

  function ArithInt(op: Op, x: int, y: int): Value {
    match op
    case Add => Checked(x + y)
    case Sub => Checked(x - y)
    case Mul => Checked(x * y)
    case Div => if y == 0 then Fail else Checked(TruncDiv(x, y))
    case _ => Fail
  }

  function EvalInt(p: Program, fuel: nat, env: IntEnv, e: Expr, natural: bool): Value
    decreases fuel, e, 0
  {
    match e
    case Int(n) => Checked(n)
    case Var(off) => ReadInt(env, off)
    case Bin(op, l, r) =>
      var x, y := EvalInt(p, fuel, env, l, natural), EvalInt(p, fuel, env, r, natural);
      if x.V? && y.V? then ArithInt(op, x.v, y.v) else Fail
    case CallE(name, args) =>
      var vals := ArgsInt(p, fuel, env, args, natural);
      if vals.None? || fuel == 0 then Fail else ApplyInt(p, fuel - 1, name, vals.value, natural)
    case Str(_) => Fail
  }

  function ArgsInt(p: Program, fuel: nat, env: IntEnv, es: Exprs, natural: bool): Option<seq<int>>
    decreases fuel, es, 0
  {
    match es
    case ENil => Some([])
    case ECons(e, rest) =>
      var vs, v := ArgsInt(p, fuel, env, rest, natural), EvalInt(p, fuel, env, e, natural);
      if vs.Some? && v.V? then Some([v.v] + vs.value) else None
  }

  function ApplyInt(p: Program, fuel: nat, name: string, vals: seq<int>, natural: bool): Value
    decreases fuel
  {
    var i := Find(p, name);
    if i == |p| || p[i].body.None? then Fail
    else match ExecInt(p, fuel, IntEnv(map[], vals), p[i].body.value, natural)
      case Goes(_) => Void
      case Gives(v) => V(v)
      case Undefined => Fail
  }

  function TruthInt(p: Program, fuel: nat, env: IntEnv, c: Expr, natural: bool): Option<bool>
    decreases fuel, c, 1
  {
    if c.Bin? then
      var x, y := EvalInt(p, fuel, env, c.left, natural), EvalInt(p, fuel, env, c.right, natural);
      if x.V? && y.V? && CompareOp(c.op).Some? then Some(Compare(CompareOp(c.op).value, x.v, y.v)) else None
    else
      var x := EvalInt(p, fuel, env, c, natural);
      if x.V? then Some(x.v != 0) else None
  }

  /** The C meaning of a statement over ints. */
  function ExecInt(p: Program, fuel: nat, env: IntEnv, s: Stmt, natural: bool): IntOutcome
    decreases fuel, s, 0
  {
    match s
    case ExprStmt(e) => if EvalInt(p, fuel, env, e, natural).Fail? then Undefined else Goes(env)
    case Decl(_, _) => Undefined
    case Assign(nodeOff, off, rhs) =>
      var v := EvalInt(p, fuel, env, rhs, natural);
      if v.V? then WriteInt(env, Target(nodeOff, off), v.v, natural) else Undefined
    case If(c, t, f) =>
      var b := TruthInt(p, fuel, env, c, natural);
      if b.None? then Undefined
      else if b.value then ExecInt(p, fuel, env, t, natural)
      else if f.Some? then ExecInt(p, fuel, env, f.value, natural)
      else Goes(env)
    case While(c, body) =>
      var b := TruthInt(p, fuel, env, c, natural);
      if b.None? then Undefined
      else if !b.value then Goes(env)
      else
        var o := ExecInt(p, fuel, env, body, natural);
        if o.Goes? then (if fuel == 0 then Undefined else ExecInt(p, fuel - 1, o.env, s, natural)) else o
    case Block(items) => ItemsInt(p, fuel, env, items, natural)
    case Return(None) => Gives(0)
    case Return(Some(e)) =>
      var v := EvalInt(p, fuel, env, e, natural);
      if v.V? then Gives(v.v) else Undefined
  }

  function ItemInt(p: Program, fuel: nat, env: IntEnv, s: Stmt, natural: bool): IntOutcome
    decreases fuel, s, 1
  {
    match s
    case Decl(_, None) => Goes(env)
    case ExprStmt(Var(_)) => Goes(env)
    case Decl(off, Some(e)) =>
      var v := EvalInt(p, fuel, env, e, natural);
      if v.V? then WriteInt(env, off, v.v, natural) else Undefined
    case _ => ExecInt(p, fuel, env, s, natural)
  }

  function ItemsInt(p: Program, fuel: nat, env: IntEnv, ss: Stmts, natural: bool): IntOutcome
    decreases fuel, ss, 0
  {
    match ss
    case SNil => Goes(env)
    case SCons(s, rest) =>
      var o := ItemInt(p, fuel, env, s, natural);
      if o.Goes? then ItemsInt(p, fuel, o.env, rest, natural) else o
  }

  // ----- agreement while locals stay natural -----

  ghost predicate AllInts(env: IntEnv) {
    && (forall off :: off in env.locals ==> 0 <= env.locals[off] < TWO31)
    && forall k :: 0 <= k < |env.params| ==> IsInt(env.params[k])
  }

  /** The same variables with the same numbers in them. */
  ghost predicate SameVars(env: IntEnv, long: Env) {
    && long.locals.Keys == env.locals.Keys && (forall off :: off in env.locals ==> long.locals[off] == env.locals[off])
    && long.params == env.params
  }

  ghost predicate SameValue(x: Value, y: Value) {
    x == y && (x.V? ==> IsInt(x.v))
  }

  ghost predicate SameOutcome(o: IntOutcome, l: Outcome) {
    match o
    case Goes(env) => l.Normal? && AllInts(env) && SameVars(env, l.env)
    case Gives(v) => l == Returned(v) && IsInt(v)
    case Undefined => true
  }

  lemma ArithAgrees(op: Op, x: int, y: int)
    requires IsInt(x) && IsInt(y) && ArithInt(op, x, y).V?
    ensures SameValue(ArithInt(op, x, y), Arith(op, x, y))
  {
    hide TruncDiv;
    match op
    case Add => SmallWrap(x + y);
    case Sub => SmallWrap(x - y);
    case Mul => SmallWrap(x * y);
    case Div =>
    case _ =>
  }

  lemma SmallWrap(x: int)
    ensures IsInt(x) ==> WrapLong(x) == x
  {
  }

  lemma WriteAgrees(env: IntEnv, long: Env, off: int, v: int)
    requires AllInts(env) && SameVars(env, long) && IsInt(v)
    ensures SameOutcome(WriteInt(env, off, v, true), WriteSlot(long, off, v))
  {
    if off >= 0 && v >= 0 {
      assert ToU32(v) == v;
    }
  }

  lemma {:induction false} EvalAgrees(p: Program, fuel: nat, env: IntEnv, long: Env, e: Expr)
    requires AllInts(env) && SameVars(env, long) && !EvalInt(p, fuel, env, e, true).Fail?
    ensures SameValue(EvalInt(p, fuel, env, e, true), Eval(p, fuel, long, e))
    decreases fuel, e, 0
  {
    hide WrapLong, ArithInt, Arith;
    match e
    case Int(n) => SmallWrap(n);
    case Var(_) =>
    case Bin(op, l, r) =>
      EvalAgrees(p, fuel, env, long, l);
      EvalAgrees(p, fuel, env, long, r);
      NeverVoid(op, EvalInt(p, fuel, env, l, true).v, EvalInt(p, fuel, env, r, true).v);
      ArithAgrees(op, EvalInt(p, fuel, env, l, true).v, EvalInt(p, fuel, env, r, true).v);
    case CallE(name, args) =>
      ArgsAgree(p, fuel, env, long, args);
      ApplyAgrees(p, fuel - 1, name, ArgsInt(p, fuel, env, args, true).value);
    case Str(_) =>
  }

  lemma NeverVoid(op: Op, x: int, y: int)
    ensures !ArithInt(op, x, y).Void?
  {
  }

  lemma {:induction false} ArgsAgree(p: Program, fuel: nat, env: IntEnv, long: Env, es: Exprs)
    requires AllInts(env) && SameVars(env, long) && ArgsInt(p, fuel, env, es, true).Some?
    ensures EvalArgs(p, fuel, long, es) == ArgsInt(p, fuel, env, es, true)
    ensures forall k :: 0 <= k < |ArgsInt(p, fuel, env, es, true).value| ==> IsInt(ArgsInt(p, fuel, env, es, true).value[k])
    decreases fuel, es, 0
  {
    if es.ECons? {
      ArgsAgree(p, fuel, env, long, es.next);
      EvalAgrees(p, fuel, env, long, es.head);
    }
  }

  lemma {:induction false} ApplyAgrees(p: Program, fuel: nat, name: string, vals: seq<int>)
    requires forall k :: 0 <= k < |vals| ==> IsInt(vals[k])
    requires !ApplyInt(p, fuel, name, vals, true).Fail?
    ensures SameValue(ApplyInt(p, fuel, name, vals, true), Apply(p, fuel, name, vals))
    decreases fuel
  {
    ExecAgrees(p, fuel, IntEnv(map[], vals), Env(map[], vals), p[Find(p, name)].body.value);
  }

  lemma {:induction false} TruthAgrees(p: Program, fuel: nat, env: IntEnv, long: Env, c: Expr)
    requires AllInts(env) && SameVars(env, long) && TruthInt(p, fuel, env, c, true).Some?
    ensures Truth(p, fuel, long, c) == TruthInt(p, fuel, env, c, true)
    decreases fuel, c, 1
  {
    hide Eval, EvalInt, AllInts, SameVars, Compare, CompareOp;
    if c.Bin? {
      EvalAgrees(p, fuel, env, long, c.left);
      EvalAgrees(p, fuel, env, long, c.right);
    } else {
      EvalAgrees(p, fuel, env, long, c);
    }
  }

  /** Whenever C gives a program a meaning and no negative number is ever stored
      in a local, the long arithmetic of the machine gives the same one. */
  lemma {:induction false} ExecAgrees(p: Program, fuel: nat, env: IntEnv, long: Env, s: Stmt)
    requires AllInts(env) && SameVars(env, long) && !ExecInt(p, fuel, env, s, true).Undefined?
    ensures SameOutcome(ExecInt(p, fuel, env, s, true), Exec(p, fuel, long, s))
    decreases fuel, s, 0
  {
    hide Eval, EvalInt, AllInts, SameVars, WriteInt, WriteSlot;
    match s
    case ExprStmt(e) => EvalAgrees(p, fuel, env, long, e);
    case Decl(_, _) =>
    case Assign(nodeOff, off, rhs) =>
      EvalAgrees(p, fuel, env, long, rhs);
      WriteAgrees(env, long, Target(nodeOff, off), EvalInt(p, fuel, env, rhs, true).v);
    case If(c, t, f) =>
      TruthAgrees(p, fuel, env, long, c);
      if TruthInt(p, fuel, env, c, true).value {
        ExecAgrees(p, fuel, env, long, t);
      } else if f.Some? {
        ExecAgrees(p, fuel, env, long, f.value);
      }
    case While(c, body) =>
      TruthAgrees(p, fuel, env, long, c);
      if TruthInt(p, fuel, env, c, true).value {
        ExecAgrees(p, fuel, env, long, body);
        var o := ExecInt(p, fuel, env, body, true);
        if o.Goes? {
          ExecAgrees(p, fuel - 1, o.env, Exec(p, fuel, long, body).env, s);
        }
      }
    case Block(items) => ItemsAgree(p, fuel, env, long, items);
    case Return(None) =>
    case Return(Some(e)) => EvalAgrees(p, fuel, env, long, e);
  }

  lemma {:induction false} ItemAgrees(p: Program, fuel: nat, env: IntEnv, long: Env, s: Stmt)
    requires AllInts(env) && SameVars(env, long) && !ItemInt(p, fuel, env, s, true).Undefined?
    ensures SameOutcome(ItemInt(p, fuel, env, s, true), ExecItem(p, fuel, long, s))
    decreases fuel, s, 1
  {
    hide Eval, EvalInt, AllInts, SameVars, WriteInt, WriteSlot, Exec, ExecInt;
    match s
    case Decl(_, None) =>
    case ExprStmt(Var(_)) =>
    case Decl(off, Some(e)) =>
      EvalAgrees(p, fuel, env, long, e);
      WriteAgrees(env, long, off, EvalInt(p, fuel, env, e, true).v);
    case _ => ExecAgrees(p, fuel, env, long, s);
  }

  lemma {:induction false} ItemsAgree(p: Program, fuel: nat, env: IntEnv, long: Env, ss: Stmts)
    requires AllInts(env) && SameVars(env, long) && !ItemsInt(p, fuel, env, ss, true).Undefined?
    ensures SameOutcome(ItemsInt(p, fuel, env, ss, true), ExecItems(p, fuel, long, ss))
    decreases fuel, ss, 0
  {
    hide ItemInt, ExecItem, AllInts, SameVars;
    if ss.SCons? {
      ItemAgrees(p, fuel, env, long, ss.head);
      var o := ItemInt(p, fuel, env, ss.head, true);
      if o.Goes? {
        ItemsAgree(p, fuel, o.env, ExecItem(p, fuel, long, ss.head).env, ss.next);
      }
    }
  }

  /** The zero-extending load returns what was stored exactly for natural ints. */
  lemma LoadReturnsStored(env: Env, off: int, v: int)
    requires off >= 0 && IsInt(v)
    ensures ReadSlot(WriteSlot(env, off, v).env, off) == V(v) <==> v >= 0
  {
  }

  /** Two locals that were given the ints x and y: the machine compares them as C does
      exactly when the comparison is one of equality or both have the same sign. */
  lemma LocalsCompare(p: Program, fuel: nat, env: Env, a: int, b: int, x: int, y: int, op: Op)
    requires 0 <= a && 0 <= b && a != b && IsInt(x) && IsInt(y) && CompareOp(op).Some?
    ensures var long := WriteSlot(WriteSlot(env, a, x).env, b, y).env;
            Truth(p, fuel, long, Bin(op, Var(a), Var(b))) == Some(Compare(CompareOp(op).value, x, y))
            <==> op == Eq || op == Neq || (x < 0) == (y < 0)
  {
    var long := WriteSlot(WriteSlot(env, a, x).env, b, y).env;
    assert Eval(p, fuel, long, Var(a)) == V(ToU32(x)) && Eval(p, fuel, long, Var(b)) == V(ToU32(y));
    assert ToU32(x) == if x < 0 then x + TWO32 else x;
    assert ToU32(y) == if y < 0 then y + TWO32 else y;
  }

  /** int x = 0 - 1; if (x < 0) return 1; return 0; */
  function NegativeLocal(): Stmt {
    Block(SCons(Decl(0, Some(Bin(Sub, Int(0), Int(1)))),
          SCons(If(Bin(Lt, Var(0), Int(0)), Return(Some(Int(1))), None),
          SCons(Return(Some(Int(0))), SNil))))
  }

  /** Without that condition the two meanings differ: C returns 1, the code 0. */
  lemma NegativeLocalDiffers(p: Program, fuel: nat)
    ensures ExecInt(p, fuel, IntEnv(map[], []), NegativeLocal(), false) == Gives(1)
    ensures Exec(p, fuel, Env(map[], []), NegativeLocal()) == Returned(0)
  {
    var minus := Bin(Sub, Int(0), Int(1));
    var env, long := IntEnv(map[0 := -1], []), Env(map[0 := TWO32 - 1], []);
    assert EvalInt(p, fuel, IntEnv(map[], []), minus, false) == V(-1);
    assert Eval(p, fuel, Env(map[], []), minus) == V(-1);
    var items := NegativeLocal().items;
    assert ItemInt(p, fuel, IntEnv(map[], []), items.head, false) == Goes(env);
    assert ExecItem(p, fuel, Env(map[], []), items.head) == Normal(long);
    var test := Bin(Lt, Var(0), Int(0));
    assert TruthInt(p, fuel, env, test, false) == Some(true);
    assert Truth(p, fuel, long, test) == Some(false);
    assert ExecInt(p, fuel, env, Return(Some(Int(1))), false) == Gives(1);
    assert ItemInt(p, fuel, env, items.next.head, false) == Gives(1);
    assert ExecItem(p, fuel, long, items.next.head) == Normal(long);
    assert ItemsInt(p, fuel, env, items.next, false) == Gives(1);
    assert ItemsInt(p, fuel, IntEnv(map[], []), items, false) == Gives(1);
    var last := items.next.next;
    assert Eval(p, fuel, long, Int(0)) == V(0);
    assert ExecItem(p, fuel, long, last.head) == Returned(0);
    assert ExecItems(p, fuel, long, last) == Returned(0);
    assert ExecItems(p, fuel, long, items.next) == Returned(0);
    assert ExecItems(p, fuel, Env(map[], []), items) == Returned(0);
  }

  // ----- + - * modulo 2^32, negative numbers included -----

  predicate RingExpr(e: Expr) {
    match e
    case Int(_) => true
    case Var(_) => true
    case Bin(op, l, r) => (op.Add? || op.Sub? || op.Mul?) && RingExpr(l) && RingExpr(r)
    case _ => false
  }

  /** Blocks of declarations and assignments of + - * expressions, and return. */
  predicate RingStmt(s: Stmt) {
    match s
    case Decl(_, init) => init.Some? ==> RingExpr(init.value)
    case Assign(_, _, rhs) => RingExpr(rhs)
    case Block(items) => RingStmts(items)
    case Return(v) => v.Some? ==> RingExpr(v.value)
    case _ => false
  }

  predicate RingStmts(ss: Stmts) {
    ss.SCons? ==> RingStmt(ss.head) && RingStmts(ss.next)
  }

  function RingEval(env: IntEnv, e: Expr): Value {
    match e
    case Int(n) => V(WrapInt(n))
    case Var(off) => ReadInt(env, off)
    case Bin(op, l, r) =>
      var x, y := RingEval(env, l), RingEval(env, r);
      if x.V? && y.V? then
        match op
        case Add => V(WrapInt(x.v + y.v))
        case Sub => V(WrapInt(x.v - y.v))
        case Mul => V(WrapInt(x.v * y.v))
        case _ => Fail
      else Fail
    case _ => Fail
  }

  /** Two's complement int arithmetic, wrapping. */
  function RingExec(env: IntEnv, s: Stmt): IntOutcome
    decreases s, 0
  {
    match s
    case Assign(nodeOff, off, rhs) =>
      var v := RingEval(env, rhs);
      if v.V? then WriteInt(env, Target(nodeOff, off), v.v, false) else Undefined
    case Block(items) => RingItems(env, items)
    case Return(None) => Gives(0)
    case Return(Some(e)) => var v := RingEval(env, e); if v.V? then Gives(v.v) else Undefined
    case _ => Undefined
  }

  function RingItems(env: IntEnv, ss: Stmts): IntOutcome
    decreases ss, 0
  {
    match ss
    case SNil => Goes(env)
    case SCons(s, rest) =>
      var o := match s
        case Decl(_, None) => Goes(env)
        case Decl(off, Some(e)) =>
          (var v := RingEval(env, e); if v.V? then WriteInt(env, off, v.v, false) else Undefined)
        case _ => RingExec(env, s);
      if o.Goes? then RingItems(o.env, rest) else o
  }

  /** Equal modulo 2^32. */
  ghost predicate Congruent(x: int, y: int) {
    ToU32(x) == ToU32(y)
  }

  ghost predicate CongruentVars(env: IntEnv, long: Env) {
    && long.locals.Keys == env.locals.Keys && (forall off :: off in env.locals ==> long.locals[off] == ToU32(env.locals[off]))
    && |long.params| == |env.params| && forall k :: 0 <= k < |env.params| ==> Congruent(env.params[k], long.params[k])
  }

  ghost predicate CongruentOutcome(o: IntOutcome, l: Outcome) {
    match o
    case Goes(env) => l.Normal? && CongruentVars(env, l.env)
    case Gives(v) => l.Returned? && Congruent(v, l.v)
    case Undefined => l.Stuck?
  }

  lemma WrapCongruent(x: int)
    ensures Congruent(WrapInt(x), x) && Congruent(WrapLong(x), x)
  {
  }

  lemma MulWitness(x: int, y: int, a: int, b: int)
    ensures (x + a * TWO32) * (y + b * TWO32) == x * y + (x * b + a * y + a * b * TWO32) * TWO32
  {
  }

  lemma AddMultiple(x: int, k: int)
    ensures Congruent(x + k * TWO32, x)
  {
  }

  lemma RingCongruent(x: int, y: int, x': int, y': int)
    requires Congruent(x, x') && Congruent(y, y')
    ensures Congruent(x + y, x' + y') && Congruent(x - y, x' - y') && Congruent(x * y, x' * y')
  {
    var a, b := x' / TWO32 - x / TWO32, y' / TWO32 - y / TWO32;
    assert x' == x + a * TWO32 && y' == y + b * TWO32;
    MulWitness(x, y, a, b);
    AddMultiple(x * y, x * b + a * y + a * b * TWO32);
    AddMultiple(x + y, a + b);
    AddMultiple(x - y, a - b);
  }

  lemma {:induction false} RingEvalCongruent(p: Program, fuel: nat, env: IntEnv, long: Env, e: Expr)
    requires RingExpr(e) && CongruentVars(env, long)
    ensures var x, y := RingEval(env, e), Eval(p, fuel, long, e);
            !x.Void? && !y.Void? && (x.V? <==> y.V?) && (x.V? ==> Congruent(x.v, y.v))
    decreases e
  {
    hide WrapInt, WrapLong, Congruent;
    match e
    case Int(n) => WrapCongruent(n); CongruentTrans(WrapInt(n), n, WrapLong(n));
    case Var(off) => if off >= 0 && off in env.locals { WordCongruent(env.locals[off]); }
    case Bin(op, l, r) =>
      RingEvalCongruent(p, fuel, env, long, l);
      RingEvalCongruent(p, fuel, env, long, r);
      var x, y, x', y' := RingEval(env, l), RingEval(env, r), Eval(p, fuel, long, l), Eval(p, fuel, long, r);
      if x.V? && y.V? {
        RingCongruent(x.v, y.v, x'.v, y'.v);
        var z, z' := (if op.Add? then x.v + y.v else if op.Sub? then x.v - y.v else x.v * y.v),
                     (if op.Add? then x'.v + y'.v else if op.Sub? then x'.v - y'.v else x'.v * y'.v);
        WrapCongruent(z);
        WrapCongruent(z');
        CongruentTrans(WrapInt(z), z, z');
        CongruentTrans(WrapInt(z), z', WrapLong(z'));
      }
  }

  lemma CongruentTrans(x: int, y: int, z: int)
    ensures Congruent(x, y) && Congruent(y, z) ==> Congruent(x, z)
    ensures Congruent(x, y) && Congruent(z, y) ==> Congruent(x, z)
  {
  }

  lemma WordCongruent(x: int)
    ensures Congruent(x, ToU32(x))
  {
  }

  lemma WriteCongruent(env: IntEnv, long: Env, off: int, v: int, v': int)
    requires CongruentVars(env, long) && Congruent(v, v')
    ensures CongruentOutcome(WriteInt(env, off, v, false), WriteSlot(long, off, v'))
  {
    hide ParamIndex;
  }

  /** Straight-line + - * code computes 32-bit two's complement arithmetic: every
      local ends up as the low 32 bits of the wrapping result. */
  lemma {:induction false} RingExecCongruent(p: Program, fuel: nat, env: IntEnv, long: Env, s: Stmt)
    requires RingStmt(s) && CongruentVars(env, long) && !s.Decl?
    ensures CongruentOutcome(RingExec(env, s), Exec(p, fuel, long, s))
    decreases s, 0
  {
    hide CongruentVars, RingEval, Eval, WriteInt, WriteSlot;
    match s
    case Assign(nodeOff, off, rhs) =>
      RingEvalCongruent(p, fuel, env, long, rhs);
      if RingEval(env, rhs).V? {
        WriteCongruent(env, long, Target(nodeOff, off), RingEval(env, rhs).v, Eval(p, fuel, long, rhs).v);
      }
    case Block(items) => RingItemsCongruent(p, fuel, env, long, items);
    case Return(None) =>
    case Return(Some(e)) => RingEvalCongruent(p, fuel, env, long, e);
  }

  lemma {:induction false} RingItemsCongruent(p: Program, fuel: nat, env: IntEnv, long: Env, ss: Stmts)
    requires RingStmts(ss) && CongruentVars(env, long)
    ensures CongruentOutcome(RingItems(env, ss), ExecItems(p, fuel, long, ss))
    decreases ss, 0
  {
    hide CongruentVars, RingEval, Eval, WriteInt, WriteSlot;
    if ss.SCons? {
      var s := ss.head;
      var o' := ExecItem(p, fuel, long, s);
      if s.Decl? {
        if s.init.Some? {
          var e := s.init.value;
          RingEvalCongruent(p, fuel, env, long, e);
          if RingEval(env, e).V? {
            WriteCongruent(env, long, s.off, RingEval(env, e).v, Eval(p, fuel, long, e).v);
            if WriteInt(env, s.off, RingEval(env, e).v, false).Goes? {
              RingItemsCongruent(p, fuel, WriteInt(env, s.off, RingEval(env, e).v, false).env, o'.env, ss.next);
            }
          }
        } else {
          RingItemsCongruent(p, fuel, env, long, ss.next);
        }
      } else {
        RingExecCongruent(p, fuel, env, long, s);
        if RingExec(env, s).Goes? {
          RingItemsCongruent(p, fuel, RingExec(env, s).env, o'.env, ss.next);
        }
      }
    }
  }
}
