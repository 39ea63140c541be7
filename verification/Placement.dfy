/**
 The generator places every construct where the layout says: for each tree node,
 the linked code has the node's code at the offset where generation started.
 */
module Placement {
  import opened Words
  import opened Machine
  import opened Options
  import opened Ast
  import opened Layout
  import opened Codegen
  import opened Patching

  // ----- table use of each construct -----

  function Bytes(n: nat): Cost {
    Cost(n, 0, 0, 0, 0)
  }

  lemma PlusFacts(a: Cost, b: Cost, c: Cost, m: nat, n: nat)
    ensures Plus(Plus(a, b), c) == Plus(a, Plus(b, c)) && Plus(a, NOTHING) == a
    ensures Plus(Bytes(m), Bytes(n)) == Bytes(m + n)
  {
  }

  function ExprCost(funcs: seq<FuncSym>, e: Expr): Cost {
    match e
    case Int(_) => Bytes(ExprSize(e))
    case Var(_) => Bytes(ExprSize(e))
    case Bin(op, l, r) => Plus(Plus(ExprCost(funcs, l), ExprCost(funcs, r)), Bytes(OpSize(op) + 3))
    case CallE(name, args) =>
      Plus(ArgsCost(funcs, args),
           Cost(6 + ArgBytes(args.Count()), 0, if FindFunc(funcs, name) == -1 then 1 else 0, 0, 0))
    case Str(raw) => Cost(8, 0, 0, 1, |Text(raw)|)
  }

  function ArgsCost(funcs: seq<FuncSym>, es: Exprs): Cost {
    if es.ENil? then NOTHING else Plus(ArgsCost(funcs, es.next), ExprCost(funcs, es.head))
  }

  function CondCost(funcs: seq<FuncSym>, c: Expr): Cost {
    if c.Bin? then Plus(Plus(ExprCost(funcs, c.left), ExprCost(funcs, c.right)), Cost(11, 0, 1, 0, 0))
    else Plus(ExprCost(funcs, c), Cost(10, 0, 1, 0, 0))
  }

  function StmtCost(funcs: seq<FuncSym>, s: Stmt): Cost
    decreases s, 0
  {
    match s
    case ExprStmt(e) => ExprCost(funcs, e)
    case Decl(off, _) => Bytes(SlotSize(off) + 1)
    case Assign(nodeOff, off, rhs) => Plus(ExprCost(funcs, rhs), Bytes(1 + SlotSize(Target(nodeOff, off))))
    case If(c, t, None) =>
      Plus(Cost(0, 2, 0, 0, 0), Plus(CondCost(funcs, c), StmtCost(funcs, t)))
    case If(c, t, Some(f)) =>
      Plus(Cost(0, 2, 0, 0, 0), Plus(Plus(CondCost(funcs, c), StmtCost(funcs, t)),
                                     Plus(Cost(5, 0, 1, 0, 0), StmtCost(funcs, f))))
    case While(c, body) =>
      Plus(Cost(0, 2, 0, 0, 0), Plus(Plus(CondCost(funcs, c), StmtCost(funcs, body)), Cost(5, 0, 1, 0, 0)))
    case Block(items) => ItemsCost(funcs, items)
    case Return(None) => Bytes(4)
    case Return(Some(e)) => Plus(ExprCost(funcs, e), Bytes(3))
  }

  function ItemCost(funcs: seq<FuncSym>, s: Stmt): Cost
    decreases s, 1
  {
    match s
    case Decl(_, None) => NOTHING
    case ExprStmt(Var(_)) => NOTHING
    case Decl(off, Some(e)) => Plus(ExprCost(funcs, e), Bytes(1 + SlotSize(off)))
    case _ => StmtCost(funcs, s)
  }

  function ItemsCost(funcs: seq<FuncSym>, ss: Stmts): Cost
    decreases ss, 0
  {
    if ss.SNil? then NOTHING else Plus(ItemCost(funcs, ss.head), ItemsCost(funcs, ss.next))
  }

  /** The final tables of a compilation whose functions start at `en`. */
  ghost predicate Final(f: Gen, en: Entries) {
    && Sound(f) && Section(f) >= 0 && PoolLinked(f)
    && forall name :: name in en ==> |name| <= 63 && FindFunc(f.funcs, name) == en[name]
  }

  lemma FinalSound(f: Gen, en: Entries)
    requires Final(f, en)
    ensures Sound(f) && Section(f) >= 0 && SitesInside(f, |f.code|)
  {
  }

  lemma GrowsFacts(g: Gen, f: Gen, c: Cost)
    requires Grows(g, f, c)
    ensures Sound(f) && Extends(g, f) && f.funcs == g.funcs && |f.code| == |g.code| + c.code
    ensures f.nextLabel == g.nextLabel + c.labels && f.fixups == g.fixups + c.fixups
    ensures |f.strs| == |g.strs| + c.strs && |f.pool| == |g.pool| + c.pool
  {
  }

  /** Room left after part of the code is generated. */
  lemma FitsRest(g: Gen, f: Gen, c: Cost, d: Cost)
    requires Grows(g, f, c) && Fits(g, Plus(c, d))
    ensures Fits(f, d)
  {
    hide Extends, Sound, Shaped, LabelsKept;
  }

  /** What is placed before `g2` is placed before its continuations. */
  lemma Before(g1: Gen, g2: Gen, c: Cost, f: Gen)
    requires Grows(g1, g2, c) && Extends(g2, f)
    ensures Extends(g1, f)
  {
    hide Sound, LabelsKept;
    ExtendsTrans(g1, g2, f);
  }

  // ----- short sequences -----

  lemma OneGrows(g: Gen, i: Instr)
    requires Sound(g) && Fits(g, Bytes(|Encode(i)|))
    ensures Grows(g, EmitI(g, i), Bytes(|Encode(i)|))
  {
    EmitIGrows(g, i);
  }

  lemma OneLinked(g: Gen, i: Instr, f: Gen, en: Entries)
    requires Sound(g) && Fits(g, Bytes(|Encode(i)|)) && Extends(EmitI(g, i), f) && Final(f, en)
    ensures At(Linked(f), |g.code|, i)
  {
    InstrLinked(g, i, f);
  }

  lemma TwoGrows(g: Gen, i: Instr, j: Instr)
    requires Sound(g) && Fits(g, Bytes(|Encode(i)| + |Encode(j)|))
    ensures Grows(g, EmitI(EmitI(g, i), j), Bytes(|Encode(i)| + |Encode(j)|))
  {
    hide Encode, Grows, Sound, EmitI;
    OneGrows(g, i);
    FitsRest(g, EmitI(g, i), Bytes(|Encode(i)|), Bytes(|Encode(j)|));
    GrowsFacts(g, EmitI(g, i), Bytes(|Encode(i)|));
    OneGrows(EmitI(g, i), j);
    GrowsTrans(g, EmitI(g, i), EmitI(EmitI(g, i), j), Bytes(|Encode(i)|), Bytes(|Encode(j)|));
  }

  lemma TwoLinked(g: Gen, i: Instr, j: Instr, f: Gen, en: Entries)
    requires Sound(g) && Fits(g, Bytes(|Encode(i)| + |Encode(j)|))
    requires Extends(EmitI(EmitI(g, i), j), f) && Final(f, en)
    ensures At(Linked(f), |g.code|, i) && At(Linked(f), |g.code| + |Encode(i)|, j)
  {
    hide Encode, Grows, Sound, EmitI, Final, Extends, At;
    FinalSound(f, en);
    OneGrows(g, i);
    FitsRest(g, EmitI(g, i), Bytes(|Encode(i)|), Bytes(|Encode(j)|));
    GrowsFacts(g, EmitI(g, i), Bytes(|Encode(i)|));
    OneGrows(EmitI(g, i), j);
    Before(EmitI(g, i), EmitI(EmitI(g, i), j), Bytes(|Encode(j)|), f);
    OneLinked(g, i, f, en);
    OneLinked(EmitI(g, i), j, f, en);
  }

  lemma OpGrows(g: Gen, op: Op)
    requires Sound(g) && Fits(g, Bytes(OpSize(op)))
    ensures Grows(g, EmitOp(g, op), Bytes(OpSize(op)))
  {
    hide Grows, Sound, EmitI;
    match op
    case Add => OneGrows(g, AddRaxRbx);
    case Sub => OneGrows(g, SubRaxRbx);
    case Mul => OneGrows(g, ImulRaxRbx);
    case Div => TwoGrows(g, Cqo, IdivRbx);
    case _ => GrowsSelf(g);
  }

  lemma OpLinked(g: Gen, op: Op, f: Gen, en: Entries)
    requires Sound(g) && Fits(g, Bytes(OpSize(op))) && Extends(EmitOp(g, op), f) && Final(f, en)
    ensures OpAt(Linked(f), op, |g.code|)
  {
    hide Grows, Sound, EmitI, Final, Extends, At;
    FinalSound(f, en);
    match op
    case Add => OneLinked(g, AddRaxRbx, f, en);
    case Sub => OneLinked(g, SubRaxRbx, f, en);
    case Mul => OneLinked(g, ImulRaxRbx, f, en);
    case Div => TwoLinked(g, Cqo, IdivRbx, f, en);
    case _ =>
  }

  lemma StackSizes()
    ensures |Encode(PopRbx)| == 1 && |Encode(PopRax)| == 1 && |Encode(PushRax)| == 1
  {
  }

  function BinTail(g: Gen, op: Op): Gen {
    EmitI(EmitOp(EmitI(EmitI(g, PopRbx), PopRax), op), PushRax)
  }

  lemma BinTailGrows(g: Gen, op: Op)
    requires Sound(g) && Fits(g, Bytes(OpSize(op) + 3))
    ensures Grows(g, BinTail(g, op), Bytes(OpSize(op) + 3))
  {
    hide Grows, Sound, EmitI, EmitOp, OpSize, Encode, Shaped;
    StackSizes();
    var g1 := EmitI(EmitI(g, PopRbx), PopRax);
    var g2 := EmitOp(g1, op);
    TwoGrows(g, PopRbx, PopRax);
    GrowsFacts(g, g1, Bytes(2));
    OpGrows(g1, op);
    GrowsFacts(g1, g2, Bytes(OpSize(op)));
    OneGrows(g2, PushRax);
    GrowsTrans(g, g1, g2, Bytes(2), Bytes(OpSize(op)));
    GrowsTrans(g, g2, BinTail(g, op), Bytes(2 + OpSize(op)), Bytes(1));
  }

  lemma BinTailLinked(g: Gen, op: Op, f: Gen, en: Entries)
    requires Sound(g) && Fits(g, Bytes(OpSize(op) + 3)) && Extends(BinTail(g, op), f) && Final(f, en)
    ensures var b, code := |g.code|, Linked(f);
            && At(code, b, PopRbx) && At(code, b + 1, PopRax)
            && OpAt(code, op, b + 2) && At(code, b + 2 + OpSize(op), PushRax)
  {
    hide Grows, Sound, EmitI, EmitOp, OpSize, Final, Extends, At, OpAt;
    FinalSound(f, en);
    var g1 := EmitI(EmitI(g, PopRbx), PopRax);
    var g2 := EmitOp(g1, op);
    TwoGrows(g, PopRbx, PopRax);
    GrowsFacts(g, g1, Bytes(2));
    OpGrows(g1, op);
    GrowsFacts(g1, g2, Bytes(OpSize(op)));
    OneGrows(g2, PushRax);
    Before(g2, BinTail(g, op), Bytes(1), f);
    Before(g1, g2, Bytes(OpSize(op)), f);
    TwoLinked(g, PopRbx, PopRax, f, en);
    OpLinked(g1, op, f, en);
    OneLinked(g2, PushRax, f, en);
  }

  // ----- calls -----

  lemma {:induction false} FindFuncPrefix(a: seq<FuncSym>, b: seq<FuncSym>, name: string)
    requires a <= b && FindFunc(a, name) != -1
    ensures FindFunc(b, name) == FindFunc(a, name)
    decreases a
  {
    if a[0].name != name {
      assert a[1..] <= b[1..];
      FindFuncPrefix(a[1..], b[1..], name);
    }
  }

  function CallFields(g: Gen, name: string): Cost {
    Cost(5, 0, if FindFunc(g.funcs, name) == -1 then 1 else 0, 0, 0)
  }

  lemma CallIsSite(g: Gen, name: string)
    requires g.fixups < |g.table| && FindFunc(g.funcs, name) == -1
    ensures EmitCall(g, name) == Site(g, [0xE8], g.table[g.fixups].(isFuncCall := true, funcName := Trunc(name)))
  {
  }

  lemma EmitCallGrows(g: Gen, name: string)
    requires Sound(g) && Fits(g, CallFields(g, name))
    ensures Grows(g, EmitCall(g, name), CallFields(g, name))
  {
    hide Grows, Sound;
    SoundShape(g);
    if FindFunc(g.funcs, name) == -1 {
      CallIsSite(g, name);
      SiteGrows(g, [0xE8], g.table[g.fixups].(isFuncCall := true, funcName := Trunc(name)));
    } else {
      var bs := Bytes32(ToU32(FindFunc(g.funcs, name) - (|g.code| + 5)));
      EmitTwice(g, [0xE8], bs);
      EmitGrows(g, [0xE8] + bs);
    }
  }

  lemma SoundShape(g: Gen)
    requires Sound(g)
    ensures |g.table| == MAX_FIXUPS && g.fixups <= MAX_FIXUPS && |g.labels| == MAX_LABELS
    ensures forall i :: g.fixups <= i < MAX_FIXUPS ==> !g.table[i].isFuncCall
  {
  }

  lemma EmitTwice(g: Gen, a: seq<byte>, b: seq<byte>)
    requires |g.code| + |a| + |b| <= CODE_BUF_SIZE
    ensures Emit(Emit(g, a), b) == Emit(g, a + b)
    ensures Emit(g, a).code == g.code + a && Emit(g, a + b).code == g.code + a + b
  {
    assert g.code + a + b == g.code + (a + b);
  }

  /** An opcode followed by a resolved field is the instruction with that field. */
  lemma FieldBytes(code: seq<byte>, a: nat, op: seq<byte>, v: int, i: Instr)
    requires a + |op| + 4 <= |code| && code[a..a + |op|] == op && code[a + |op|..a + |op| + 4] == Bytes32(ToU32(v))
    requires HasField(i) && Opcode(i) == op && Operand(i) == Bytes32(ToU32(SignedInt(ToU32(v))))
    ensures At(code, a, i)
  {
    hide Bytes32;
    assert ToU32(SignedInt(ToU32(v))) == ToU32(v);
    assert code[a..a + |op| + 4] == code[a..a + |op|] + code[a + |op|..a + |op| + 4];
  }

  lemma ForwardCallLinked(g: Gen, name: string, f: Gen, en: Entries)
    requires Sound(g) && Fits(g, CallFields(g, name)) && Extends(EmitCall(g, name), f) && Final(f, en)
    requires name in en && FindFunc(g.funcs, name) == -1
    ensures At(Linked(f), |g.code|, Call(Rel(en[name], |g.code| + 5)))
  {
    hide Sound, Bytes32, ToU32, Linked, At, Extends, Site, EmitCall, FindFunc;
    SoundShape(g);
    FinalSound(f, en);
    var x := g.table[g.fixups].(isFuncCall := true, funcName := Trunc(name));
    CallIsSite(g, name);
    SiteLinked(g, [0xE8], x, f);
    assert Resolve(f, g.fixups) == en[name];
    var v := en[name] - (|g.code| + 5);
    FieldCast(v);
    FieldBytes(Linked(f), |g.code|, [0xE8], v, Call(Rel(en[name], |g.code| + 5)));
  }

  lemma KnownCallLinked(g: Gen, name: string, f: Gen, en: Entries)
    requires Sound(g) && Fits(g, CallFields(g, name)) && Extends(EmitCall(g, name), f) && Final(f, en)
    requires name in en && FindFunc(g.funcs, name) != -1
    ensures At(Linked(f), |g.code|, Call(Rel(en[name], |g.code| + 5)))
  {
    hide Sound, Bytes32, ToU32, Linked, At, FindFunc, Grows;
    FinalSound(f, en);
    EmitCallGrows(g, name);
    GrowsFacts(g, EmitCall(g, name), CallFields(g, name));
    FindFuncPrefix(g.funcs, f.funcs, name);
    var i, v := Call(Rel(en[name], |g.code| + 5)), en[name] - (|g.code| + 5);
    EmitTwice(g, [0xE8], Bytes32(ToU32(v)));
    FieldCast(v);
    assert EmitCall(g, name) == EmitI(g, i);
    InstrLinked(g, i, f);
  }

  lemma EmitCallLinked(g: Gen, name: string, f: Gen, en: Entries)
    requires Sound(g) && Fits(g, CallFields(g, name)) && Extends(EmitCall(g, name), f) && Final(f, en)
    requires name in en
    ensures At(Linked(f), |g.code|, Call(Rel(en[name], |g.code| + 5)))
  {
    hide *;
    if FindFunc(g.funcs, name) == -1 {
      ForwardCallLinked(g, name, f, en);
    } else {
      KnownCallLinked(g, name, f, en);
    }
  }

  lemma FieldCast(v: int)
    ensures ToU32(SignedInt(ToU32(v))) == ToU32(v)
  {
  }

  function CallTail(g: Gen, name: string, count: nat): Gen {
    EmitI(EmitDrop(EmitCall(g, name), count), PushRax)
  }

  function CallTailCost(g: Gen, name: string, count: nat): Cost {
    Cost(6 + ArgBytes(count), 0, if FindFunc(g.funcs, name) == -1 then 1 else 0, 0, 0)
  }

  lemma DropGrows(g: Gen, count: nat)
    requires Sound(g) && Fits(g, Bytes(ArgBytes(count)))
    ensures Grows(g, EmitDrop(g, count), Bytes(ArgBytes(count)))
  {
    hide Grows, Sound, EmitI;
    if count > 0 { OneGrows(g, AddRsp(SignedInt(ToU32(8 * count)))); } else { GrowsSelf(g); }
  }

  lemma CallTailGrows(g: Gen, name: string, count: nat)
    requires Sound(g) && Fits(g, CallTailCost(g, name, count))
    ensures Grows(g, CallTail(g, name, count), CallTailCost(g, name, count))
  {
    hide Grows, Sound, EmitI, EmitCall, EmitDrop, FindFunc;
    var g1 := EmitCall(g, name);
    var g2 := EmitDrop(g1, count);
    EmitCallGrows(g, name);
    GrowsFacts(g, g1, CallFields(g, name));
    DropGrows(g1, count);
    GrowsFacts(g1, g2, Bytes(ArgBytes(count)));
    OneGrows(g2, PushRax);
    GrowsTrans(g1, g2, CallTail(g, name, count), Bytes(ArgBytes(count)), Bytes(1));
    GrowsTrans(g, g1, CallTail(g, name, count), CallFields(g, name), Bytes(ArgBytes(count) + 1));
  }

  lemma CallTailLinked(g: Gen, name: string, count: nat, f: Gen, en: Entries)
    requires Sound(g) && Fits(g, CallTailCost(g, name, count)) && Extends(CallTail(g, name, count), f) && Final(f, en)
    ensures var b, code := |g.code|, Linked(f);
            && (name in en ==> At(code, b, Call(Rel(en[name], b + 5))))
            && (count > 0 ==> At(code, b + 5, AddRsp(SignedInt(ToU32(8 * count)))))
            && At(code, b + 5 + ArgBytes(count), PushRax)
  {
    hide Grows, Sound, EmitI, EmitCall, FindFunc, Final, Extends, At;
    FinalSound(f, en);
    var g1 := EmitCall(g, name);
    var g2 := EmitDrop(g1, count);
    EmitCallGrows(g, name);
    GrowsFacts(g, g1, CallFields(g, name));
    DropGrows(g1, count);
    GrowsFacts(g1, g2, Bytes(ArgBytes(count)));
    OneGrows(g2, PushRax);
    Before(g2, CallTail(g, name, count), Bytes(1), f);
    Before(g1, g2, Bytes(ArgBytes(count)), f);
    if name in en { EmitCallLinked(g, name, f, en); }
    if count > 0 { OneLinked(g1, AddRsp(SignedInt(ToU32(8 * count))), f, en); }
    OneLinked(g2, PushRax, f, en);
  }

  // ----- expressions -----

  lemma {:induction false} ExprGrows(g: Gen, e: Expr, n: nat)
    requires Sound(g) && GoodExpr(e, n) && Fits(g, ExprCost(g.funcs, e))
    ensures Grows(g, GenExpr(g, e), ExprCost(g.funcs, e)) && ExprCost(g.funcs, e).code == ExprSize(e)
    decreases e, 1
  {
    hide Grows, Sound, EmitI, EmitCall, EmitDrop, FindFunc, EmitLea, Text;
    match e
    case Int(k) => TwoGrows(g, MovRaxImm(ToWord(k)), PushRax);
    case Var(off) => TwoGrows(g, LoadInstr(off), PushRax);
    case Bin(op, l, r) => BinGrows(g, e, n);
    case CallE(name, args) =>
      var g1 := GenArgs(g, args, 32);
      ArgsGrow(g, args, 32, n);
      GrowsFacts(g, g1, ArgsCost(g.funcs, args));
      CallTailGrows(g1, name, args.Count());
      GrowsTrans(g, g1, GenExpr(g, e), ArgsCost(g.funcs, args), CallTailCost(g1, name, args.Count()));
    case Str(raw) =>
      var g1 := EmitLea(g, raw);
      LeaGrows(g, raw);
      GrowsFacts(g, g1, Cost(7, 0, 0, 1, |Text(raw)|));
      OneGrows(g1, PushRax);
      GrowsTrans(g, g1, GenExpr(g, e), Cost(7, 0, 0, 1, |Text(raw)|), Bytes(1));
  }

  /** A binary expression is its operands and a tail. */
  lemma BinShape(g: Gen, e: Expr, n: nat)
    requires e.Bin? && GoodExpr(e, n)
    ensures GenExpr(g, e) == BinTail(GenExpr(GenExpr(g, e.left), e.right), e.op)
    ensures ExprCost(g.funcs, e) == Plus(Plus(ExprCost(g.funcs, e.left), ExprCost(g.funcs, e.right)), Bytes(OpSize(e.op) + 3))
    ensures ExprSize(e) == ExprSize(e.left) + ExprSize(e.right) + OpSize(e.op) + 3
    ensures GoodExpr(e.left, n) && GoodExpr(e.right, n)
  {
    hide EmitI, EmitOp, OpSize;
  }

  lemma {:induction false} BinGrows(g: Gen, e: Expr, n: nat)
    requires e.Bin? && Sound(g) && GoodExpr(e, n) && Fits(g, ExprCost(g.funcs, e))
    ensures Grows(g, GenExpr(g, e), ExprCost(g.funcs, e)) && ExprCost(g.funcs, e).code == ExprSize(e)
    decreases e, 0
  {
    hide Grows, Sound, GenExpr, ExprCost, ExprSize, GoodExpr, BinTail, OpSize;
    BinShape(g, e, n);
    var Bin(op, l, r) := e;
    var g1 := GenExpr(g, l);
    var g2 := GenExpr(g1, r);
    ExprGrows(g, l, n);
    GrowsFacts(g, g1, ExprCost(g.funcs, l));
    ExprGrows(g1, r, n);
    GrowsFacts(g1, g2, ExprCost(g.funcs, r));
    BinTailGrows(g2, op);
    GrowsTrans(g, g1, g2, ExprCost(g.funcs, l), ExprCost(g.funcs, r));
    GrowsTrans(g, g2, GenExpr(g, e), Plus(ExprCost(g.funcs, l), ExprCost(g.funcs, r)), Bytes(OpSize(op) + 3));
  }

  lemma {:induction false} ArgsGrow(g: Gen, es: Exprs, limit: nat, n: nat)
    requires Sound(g) && GoodExprs(es, n) && es.Count() <= limit && Fits(g, ArgsCost(g.funcs, es))
    ensures Grows(g, GenArgs(g, es, limit), ArgsCost(g.funcs, es)) && ArgsCost(g.funcs, es).code == ArgsSize(es)
    decreases es, 2
  {
    hide Grows, Sound, FindFunc, ExprCost, ExprSize, GenExpr, GoodExpr;
    if es.ENil? {
      GrowsSelf(g);
    } else {
      var g1 := GenArgs(g, es.next, limit - 1);
      ArgsGrow(g, es.next, limit - 1, n);
      GrowsFacts(g, g1, ArgsCost(g.funcs, es.next));
      ExprGrows(g1, es.head, n);
      GrowsTrans(g, g1, GenArgs(g, es, limit), ArgsCost(g.funcs, es.next), ExprCost(g.funcs, es.head));
    }
  }

  /** An expression is laid out where its generation started. */
  lemma {:induction false} ExprPlaced(g: Gen, e: Expr, n: nat, f: Gen, en: Entries)
    requires Sound(g) && GoodExpr(e, n) && Fits(g, ExprCost(g.funcs, e))
    requires Extends(GenExpr(g, e), f) && Final(f, en)
    ensures ExprAt(Linked(f), en, e, |g.code|)
    decreases e, 1
  {
    hide Grows, Sound, EmitI, EmitOp, OpSize, EmitCall, EmitDrop, FindFunc, EmitLea, Text, Final, Extends, At, OpAt, TextAt, Rel;
    FinalSound(f, en);
    match e
    case Int(k) => TwoLinked(g, MovRaxImm(ToWord(k)), PushRax, f, en);
    case Var(off) => TwoLinked(g, LoadInstr(off), PushRax, f, en);
    case Bin(op, l, r) =>
      BinPlaced(g, e, n, f, en);
    case CallE(name, args) => CallPlaced(g, e, n, f, en);
    case Str(raw) =>
      var g1 := EmitLea(g, raw);
      LeaGrows(g, raw);
      GrowsFacts(g, g1, Cost(7, 0, 0, 1, |Text(raw)|));
      OneGrows(g1, PushRax);
      Before(g1, GenExpr(g, e), Bytes(1), f);
      assert PoolLinked(f) by { FinalPool(f, en); }
      LeaLinked(g, raw, f);
      OneLinked(g1, PushRax, f, en);
  }

  lemma {:induction false} CallPlaced(g: Gen, e: Expr, n: nat, f: Gen, en: Entries)
    requires e.CallE? && Sound(g) && GoodExpr(e, n) && Fits(g, ExprCost(g.funcs, e))
    requires Extends(GenExpr(g, e), f) && Final(f, en)
    ensures ExprAt(Linked(f), en, e, |g.code|)
    decreases e, 0
  {
    hide Grows, Sound, EmitI, EmitCall, EmitDrop, FindFunc, Final, Extends, At, Rel, Linked;
    FinalSound(f, en);
    var CallE(name, args) := e;
    var g1 := GenArgs(g, args, 32);
    ArgsGrow(g, args, 32, n);
    GrowsFacts(g, g1, ArgsCost(g.funcs, args));
    CallTailGrows(g1, name, args.Count());
    Before(g1, GenExpr(g, e), CallTailCost(g1, name, args.Count()), f);
    ArgsPlaced(g, args, 32, n, f, en);
    CallTailLinked(g1, name, args.Count(), f, en);
  }

  lemma FinalPool(f: Gen, en: Entries)
    requires Final(f, en)
    ensures PoolLinked(f)
  {
  }

  lemma {:induction false} BinPlaced(g: Gen, e: Expr, n: nat, f: Gen, en: Entries)
    requires e.Bin? && Sound(g) && GoodExpr(e, n) && Fits(g, ExprCost(g.funcs, e))
    requires Extends(GenExpr(g, e), f) && Final(f, en)
    ensures ExprAt(Linked(f), en, e, |g.code|)
    decreases e, 0
  {
    hide Grows, Sound, OpSize, Final, Extends, At, OpAt, GenExpr, ExprCost, ExprSize, GoodExpr, BinTail, Linked;
    FinalSound(f, en);
    BinShape(g, e, n);
    var Bin(op, l, r) := e;
    var g1 := GenExpr(g, l);
    var g2 := GenExpr(g1, r);
    ExprGrows(g, l, n);
    GrowsFacts(g, g1, ExprCost(g.funcs, l));
    ExprGrows(g1, r, n);
    GrowsFacts(g1, g2, ExprCost(g.funcs, r));
    BinTailGrows(g2, op);
    Before(g2, GenExpr(g, e), Bytes(OpSize(op) + 3), f);
    Before(g1, g2, ExprCost(g.funcs, r), f);
    ExprPlaced(g, l, n, f, en);
    ExprPlaced(g1, r, n, f, en);
    BinTailLinked(g2, op, f, en);
  }

  lemma {:induction false} ArgsPlaced(g: Gen, es: Exprs, limit: nat, n: nat, f: Gen, en: Entries)
    requires Sound(g) && GoodExprs(es, n) && es.Count() <= limit && Fits(g, ArgsCost(g.funcs, es))
    requires Extends(GenArgs(g, es, limit), f) && Final(f, en)
    ensures ArgsAt(Linked(f), en, es, |g.code|)
    decreases es, 1
  {
    hide Grows, Sound, FindFunc, Final, Extends, ExprAt, ExprCost, ExprSize, GenExpr, GoodExpr, Linked;
    FinalSound(f, en);
    if es.ECons? {
      var g1 := GenArgs(g, es.next, limit - 1);
      ArgsGrow(g, es.next, limit - 1, n);
      GrowsFacts(g, g1, ArgsCost(g.funcs, es.next));
      ExprGrows(g1, es.head, n);
      Before(g1, GenArgs(g, es, limit), ExprCost(g.funcs, es.head), f);
      ArgsPlaced(g, es.next, limit - 1, n, f, en);
      ExprPlaced(g1, es.head, n, f, en);
    }
  }
}
