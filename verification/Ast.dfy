/**
 The tree the parser hands to the code generator, for functions over scalar
 locals and parameters, and the meaning of its programs. Sibling nodes are
 linked through `next` as in the parser.
 */
module Ast {
  import opened Words
  import opened Machine
  import opened Options

  datatype Op = Add | Sub | Mul | Div | Mod | Lt | Gt | Leq | Geq | Eq | Neq

  datatype Expr =
    | Int(n: int)
    | Var(off: int)                       // slot number given by the parser
    | Bin(op: Op, left: Expr, right: Expr)
    | CallE(name: string, args: Exprs)
    | Str(raw: string)

  datatype Exprs = ENil | ECons(head: Expr, next: Exprs) {
    function Count(): nat {
      if ENil? then 0 else 1 + next.Count()
    }
  }

  datatype Stmt =
    | ExprStmt(e: Expr)
    | Decl(off: int, init: Option<Expr>)
    | Assign(nodeOff: int, off: int, rhs: Expr)   // slot in the node, slot in its left child
    | If(cond: Expr, thn: Stmt, els: Option<Stmt>)
    | While(cond: Expr, body: Stmt)
    | Block(items: Stmts)
    | Return(value: Option<Expr>)

  datatype Stmts = SNil | SCons(head: Stmt, next: Stmts)

  datatype Func = Func(name: string, localBytes: nat, body: Option<Stmt>)

  type Program = seq<Func>

  /** The slot an assignment stores to: the node's own one unless it is 0. */
  function Target(nodeOff: int, off: int): int {
    if nodeOff != 0 then nodeOff else off
  }

  /** The parameter a negative slot stands for, dividing as C does. */
  function ParamIndex(off: int): int {
    TruncDiv(-12 - off, 4)
  }

  /** Slot the parser gives to parameter `k`. */
  function ParamSlot(k: nat): int {
    -12 - 4 * k
  }

  lemma ParamSlotIndex(k: nat)
    ensures ParamSlot(k) < 0 && ParamIndex(ParamSlot(k)) == k
  {
  }

  /** Slots that a function with `localBytes` bytes of locals may use. */
  predicate GoodSlot(off: int, localBytes: nat) {
    if off < 0 then -136 <= off <= -12 && off % 4 == 0
    else off % 4 == 0 && off + 4 <= localBytes
  }

  // ----- meaning -----

  /** Locals are 32-bit cells, parameters 64-bit cells. */
  datatype Env = Env(locals: map<int, u32>, params: seq<int>)

  datatype Value = V(v: int) | Void | Fail

  datatype Outcome = Normal(env: Env) | Returned(v: int) | Stuck

  function ReadSlot(env: Env, off: int): Value {
    if off < 0 then
      var k := ParamIndex(off);
      if 0 <= k < |env.params| then V(env.params[k]) else Fail
    else if off in env.locals then V(env.locals[off])
    else Fail
  }

  function WriteSlot(env: Env, off: int, v: int): Outcome {
    if off < 0 then
      var k := ParamIndex(off);
      if 0 <= k < |env.params| then Normal(env.(params := env.params[k := v])) else Stuck
    else Normal(env.(locals := env.locals[off := ToU32(v)]))
  }

  /** Arithmetic on signed longs; Fail where the divide error is raised. */
  function Arith(op: Op, x: int, y: int): Value {
    match op
    case Add => V(WrapLong(x + y))
    case Sub => V(WrapLong(x - y))
    case Mul => V(WrapLong(x * y))
    case Div => if y == 0 || !IsLong(TruncDiv(x, y)) then Fail else V(TruncDiv(x, y))
    case _ => Fail
  }

  function CompareOp(op: Op): Option<CC> {
    match op
    case Lt => Some(L)
    case Gt => Some(G)
    case Leq => Some(LE)
    case Geq => Some(GE)
    case Eq => Some(E)
    case Neq => Some(NE)
    case _ => None
  }

  /** First function of that name. */
  function Find(p: Program, name: string): (i: nat)
    ensures i <= |p|
    ensures i < |p| ==> p[i].name == name
    ensures forall j :: 0 <= j < i ==> p[j].name != name
  {
    if p == [] then 0
    else if p[0].name == name then 0
    else 1 + Find(p[1..], name)
  }

  function Eval(p: Program, fuel: nat, env: Env, e: Expr): Value
    decreases fuel, e, 0
  {
    match e
    case Int(n) => V(WrapLong(n))
    case Var(off) => ReadSlot(env, off)
    case Bin(op, l, r) =>
      var x, y := Eval(p, fuel, env, l), Eval(p, fuel, env, r);
      if x.V? && y.V? then Arith(op, x.v, y.v) else Fail
    case CallE(name, args) =>
      var vals := EvalArgs(p, fuel, env, args);
      if vals.None? || fuel == 0 then Fail else Apply(p, fuel - 1, name, vals.value)
    case Str(_) => Fail
  }

  function EvalArgs(p: Program, fuel: nat, env: Env, es: Exprs): Option<seq<int>>
    decreases fuel, es, 0
  {
    match es
    case ENil => Some([])
    case ECons(e, rest) =>
      var vs, v := EvalArgs(p, fuel, env, rest), Eval(p, fuel, env, e);
      if vs.Some? && v.V? then Some([v.v] + vs.value) else None
  }

  /** Calling a function: Void when its body ends without a return. */
  function Apply(p: Program, fuel: nat, name: string, vals: seq<int>): Value
    decreases fuel
  {
    var i := Find(p, name);
    if i == |p| || p[i].body.None? then Fail
    else match Exec(p, fuel, Env(map[], vals), p[i].body.value)
      case Normal(_) => Void
      case Returned(v) => V(v)
      case Stuck => Fail
  }

  /** A condition is a comparison or an expression that is not binary. */
  function Truth(p: Program, fuel: nat, env: Env, c: Expr): Option<bool>
    decreases fuel, c, 1
  {
    if c.Bin? then
      var x, y := Eval(p, fuel, env, c.left), Eval(p, fuel, env, c.right);
      if x.V? && y.V? && CompareOp(c.op).Some? then Some(Compare(CompareOp(c.op).value, x.v, y.v)) else None
    else
      var x := Eval(p, fuel, env, c);
      if x.V? then Some(x.v != 0) else None
  }

  function Exec(p: Program, fuel: nat, env: Env, s: Stmt): Outcome
    decreases fuel, s, 0
  {
    match s
    case ExprStmt(e) => if Eval(p, fuel, env, e).Fail? then Stuck else Normal(env)
    case Decl(_, _) => Stuck
    case Assign(nodeOff, off, rhs) =>
      var v := Eval(p, fuel, env, rhs);
      if v.V? then WriteSlot(env, Target(nodeOff, off), v.v) else Stuck
    case If(c, t, f) =>
      var b := Truth(p, fuel, env, c);
      if b.None? then Stuck
      else if b.value then Exec(p, fuel, env, t)
      else if f.Some? then Exec(p, fuel, env, f.value)
      else Normal(env)
    case While(c, body) =>
      var b := Truth(p, fuel, env, c);
      if b.None? then Stuck
      else if !b.value then Normal(env)
      else
        var o := Exec(p, fuel, env, body);
        if o.Normal? then (if fuel == 0 then Stuck else Exec(p, fuel - 1, o.env, s)) else o
    case Block(items) => ExecItems(p, fuel, env, items)
    case Return(None) => Returned(0)
    case Return(Some(e)) =>
      var v := Eval(p, fuel, env, e);
      if v.V? then Returned(v.v) else Stuck
  }

  /** One statement of a block: a variable node is a declaration here, and a
      variable without initial value, declared or merely named, does nothing. */
  function ExecItem(p: Program, fuel: nat, env: Env, s: Stmt): Outcome
    decreases fuel, s, 1
  {
    match s
    case Decl(_, None) => Normal(env)
    case ExprStmt(Var(_)) => Normal(env)
    case Decl(off, Some(e)) =>
      var v := Eval(p, fuel, env, e);
      if v.V? then WriteSlot(env, off, v.v) else Stuck
    case _ => Exec(p, fuel, env, s)
  }

  function ExecItems(p: Program, fuel: nat, env: Env, ss: Stmts): Outcome
    decreases fuel, ss, 0
  {
    match ss
    case SNil => Normal(env)
    case SCons(s, rest) =>
      var o := ExecItem(p, fuel, env, s);
      if o.Normal? then ExecItems(p, fuel, o.env, rest) else o
  }

  // ----- well-formed slots -----

  predicate GoodStmt(s: Stmt, n: nat) {
    match s
    case ExprStmt(e) => GoodExpr(e, n)
    case Decl(off, init) => GoodSlot(off, n) && (init.Some? ==> GoodExpr(init.value, n))
    case Assign(nodeOff, off, rhs) => GoodSlot(Target(nodeOff, off), n) && GoodExpr(rhs, n)
    case If(c, t, f) => GoodExpr(c, n) && GoodStmt(t, n) && (f.Some? ==> GoodStmt(f.value, n))
    case While(c, body) => GoodExpr(c, n) && GoodStmt(body, n)
    case Block(items) => GoodStmts(items, n)
    case Return(v) => v.Some? ==> GoodExpr(v.value, n)
  }

  predicate GoodStmts(ss: Stmts, n: nat) {
    ss.SCons? ==> GoodStmt(ss.head, n) && GoodStmts(ss.next, n)
  }

  /** Names whose calls go to kernel routines whatever the program defines. */
  predicate IsBuiltin(name: string) {
    name == "printf" || name == "print" || name == "kprintf" || name == "putc"
  }

  /** Slots in range, at most 32 arguments in every call, and no call of a kernel
      routine. */
  predicate GoodExpr(e: Expr, n: nat) {
    match e
    case Var(off) => GoodSlot(off, n)
    case Bin(_, l, r) => GoodExpr(l, n) && GoodExpr(r, n)
    case CallE(name, args) => !IsBuiltin(name) && args.Count() <= 32 && GoodExprs(args, n)
    case _ => true
  }

  predicate GoodExprs(es: Exprs, n: nat) {
    es.ECons? ==> GoodExpr(es.head, n) && GoodExprs(es.next, n)
  }

  predicate GoodFunc(f: Func) {
    f.localBytes <= 0x7000_0000 && f.body.Some? && GoodStmt(f.body.value, f.localBytes)
  }

  predicate GoodProgram(p: Program) {
    forall i :: 0 <= i < |p| ==> GoodFunc(p[i])
  }

  // ----- stack use -----

  /** Bytes the prologue reserves below rbp. */
  function FrameSize(localBytes: nat): nat {
    (localBytes + 32 + 15) / 16 * 16
  }

  /** Deepest use of the stack, in bytes below rsp, while `e` is evaluated. */
  function ExprDepth(p: Program, fuel: nat, env: Env, e: Expr): nat
    decreases fuel, e, 0
  {
    match e
    case Bin(_, l, r) => Max(ExprDepth(p, fuel, env, l), 8 + ExprDepth(p, fuel, env, r))
    case CallE(name, args) =>
      var vals := EvalArgs(p, fuel, env, args);
      if vals.None? || fuel == 0 then 8
      else Max(ArgsDepth(p, fuel, env, args), 8 * args.Count() + ApplyDepth(p, fuel - 1, name, vals.value))
    case _ => 8
  }

  function ArgsDepth(p: Program, fuel: nat, env: Env, es: Exprs): nat
    decreases fuel, es, 0
  {
    match es
    case ENil => 0
    case ECons(e, rest) =>
      Max(ArgsDepth(p, fuel, env, rest), 8 * rest.Count() + ExprDepth(p, fuel, env, e))
  }

  /** Return address, saved rbp, frame and body. */
  function ApplyDepth(p: Program, fuel: nat, name: string, vals: seq<int>): nat
    decreases fuel
  {
    var i := Find(p, name);
    if i == |p| || p[i].body.None? then 0
    else 16 + FrameSize(p[i].localBytes) + StmtUse(p, fuel, Env(map[], vals), p[i].body.value).depth
  }

  function TruthDepth(p: Program, fuel: nat, env: Env, c: Expr): nat
    decreases fuel, c, 1
  {
    if c.Bin? then Max(ExprDepth(p, fuel, env, c.left), 8 + ExprDepth(p, fuel, env, c.right))
    else ExprDepth(p, fuel, env, c)
  }

  /** Deepest use, and the bytes left on the stack when execution goes on. */
  datatype Use = Use(depth: nat, junk: nat)

  function Then(a: Use, b: Use): Use {
    Use(Max(a.depth, a.junk + b.depth), a.junk + b.junk)
  }

  function StmtUse(p: Program, fuel: nat, env: Env, s: Stmt): Use
    decreases fuel, s, 0
  {
    match s
    case ExprStmt(e) => Use(ExprDepth(p, fuel, env, e), 8)
    case Decl(_, _) => Use(8, 8)
    case Assign(_, _, rhs) => Use(ExprDepth(p, fuel, env, rhs), 0)
    case If(c, t, f) =>
      var b := Truth(p, fuel, env, c);
      Then(Use(TruthDepth(p, fuel, env, c), 0),
           if b == Some(true) then StmtUse(p, fuel, env, t)
           else if b == Some(false) && f.Some? then StmtUse(p, fuel, env, f.value)
           else Use(0, 0))
    case While(c, body) =>
      var first := Use(TruthDepth(p, fuel, env, c), 0);
      if Truth(p, fuel, env, c) != Some(true) then first
      else
        var o := Exec(p, fuel, env, body);
        var once := Then(first, StmtUse(p, fuel, env, body));
        if o.Normal? && fuel > 0 then Then(once, StmtUse(p, fuel - 1, o.env, s)) else once
    case Block(items) => ItemsUse(p, fuel, env, items)
    case Return(None) => Use(0, 0)
    case Return(Some(e)) => Use(ExprDepth(p, fuel, env, e), 0)
  }

  function ItemUse(p: Program, fuel: nat, env: Env, s: Stmt): Use
    decreases fuel, s, 1
  {
    match s
    case Decl(_, None) => Use(0, 0)
    case ExprStmt(Var(_)) => Use(0, 0)
    case Decl(_, Some(e)) => Use(ExprDepth(p, fuel, env, e), 0)
    case _ => StmtUse(p, fuel, env, s)
  }

  function ItemsUse(p: Program, fuel: nat, env: Env, ss: Stmts): Use
    decreases fuel, ss, 0
  {
    match ss
    case SNil => Use(0, 0)
    case SCons(s, rest) =>
      var o := ExecItem(p, fuel, env, s);
      var u := ItemUse(p, fuel, env, s);
      if o.Normal? then Then(u, ItemsUse(p, fuel, o.env, rest)) else u
  }
}
