/**
 Fixup records left over from an earlier compilation. The jump after a plain test
 does not set its record's call mark, so an old mark survives: the jump is then
 linked to whatever function the record named. Two compilations are followed side
 by side here, one from the table as found and one from the table without marks.
 */
module Leftovers {
  import opened Words
  import opened Machine
  import opened Options
  import opened Ast
  import opened Layout
  import opened Codegen
  import opened Patching
  import opened Placement
  import opened BodyPlacement

  /** What a fixup record is used for: a test jump, with the offset of its field and
      of its destination, or anything else. */
  datatype Jump = Direct | Test(site: int, target: int)

  function Directs(n: nat): (r: seq<Jump>)
    ensures |r| == n && forall i :: 0 <= i < n ==> r[i] == Direct
  {
    seq(n, _ => Direct)
  }

  function CondJumps(funcs: seq<FuncSym>, c: Expr, a: int, target: int): seq<Jump> {
    if c.Bin? then Directs(CondCost(funcs, c).fixups)
    else Directs(ExprCost(funcs, c).fixups) + [Test(a + CondSize(c) - 4, target)]
  }

  /** The records used by a statement whose code starts at `a`, in order. */
  function StmtJumps(funcs: seq<FuncSym>, s: Stmt, a: int): seq<Jump>
    decreases s, 0
  {
    match s
    case If(c, t, None) =>
      CondJumps(funcs, c, a, a + StmtSize(s)) + StmtJumps(funcs, t, a + CondSize(c))
    case If(c, t, Some(f)) =>
      var b := a + CondSize(c) + StmtSize(t) + 5;
      CondJumps(funcs, c, a, b) + StmtJumps(funcs, t, a + CondSize(c)) + [Direct] + StmtJumps(funcs, f, b)
    case While(c, body) =>
      CondJumps(funcs, c, a, a + StmtSize(s)) + StmtJumps(funcs, body, a + CondSize(c)) + [Direct]
    case Block(items) => ItemsJumps(funcs, items, a)
    case _ => Directs(StmtCost(funcs, s).fixups)
  }

  function ItemJumps(funcs: seq<FuncSym>, s: Stmt, a: int): seq<Jump>
    decreases s, 1
  {
    match s
    case Decl(_, None) => []
    case ExprStmt(Var(_)) => []
    case Decl(_, Some(e)) => Directs(ExprCost(funcs, e).fixups)
    case _ => StmtJumps(funcs, s, a)
  }

  function ItemsJumps(funcs: seq<FuncSym>, ss: Stmts, a: int): seq<Jump>
    decreases ss, 0
  {
    if ss.SNil? then [] else ItemJumps(funcs, ss.head, a) + ItemsJumps(funcs, ss.next, a + ItemSize(ss.head))
  }

  // ----- the two compilations -----

  /** The table without call marks. */
  function Cleared(table: seq<Fixup>): (r: seq<Fixup>)
    ensures |r| == |table| && Unmarked(r, 0)
    ensures forall i :: 0 <= i < |table| ==> r[i] == table[i].(isFuncCall := false)
  {
    seq(|table|, i requires 0 <= i < |table| => table[i].(isFuncCall := false))
  }

  /** Record `a` of the first and `b` of the second compilation, `left` in the table. */
  predicate RecordAlike(a: Fixup, b: Fixup, left: Fixup, j: Jump) {
    match j
    case Direct => a == b
    case Test(site, _) =>
      && a.patchPos == site && a == b.(isFuncCall := left.isFuncCall)
      && !b.isFuncCall && a.funcName == left.funcName
  }

  /** Every field behind a record still holds the placeholder. */
  ghost predicate Blank(g: Gen) {
    g.fixups <= |g.table| && forall i :: 0 <= i < g.fixups ==>
      g.table[i].patchPos + 4 <= |g.code| && g.code[g.table[i].patchPos..g.table[i].patchPos + 4] == PLACEHOLDER
  }

  /** The two compilations differ in the marks of test jumps alone. */
  ghost predicate Alike(g: Gen, c: Gen, t: seq<Fixup>, js: seq<Jump>) {
    && c == g.(table := c.table) && |g.table| == |c.table| == |t| == MAX_FIXUPS && g.fixups == |js| <= MAX_FIXUPS
    && (forall i :: 0 <= i < |js| ==> RecordAlike(g.table[i], c.table[i], t[i], js[i]))
    && (forall i :: |js| <= i < MAX_FIXUPS ==> g.table[i] == t[i] && c.table[i] == t[i].(isFuncCall := false))
    && Blank(c)
  }

  lemma PrefixSlice(code: seq<byte>, n: nat, pos: nat)
    requires pos + 4 <= n <= |code|
    ensures code[..n][pos..pos + 4] == code[pos..pos + 4]
  {
  }

  lemma EmitAlike(g: Gen, c: Gen, t: seq<Fixup>, js: seq<Jump>, bs: seq<byte>)
    requires Alike(g, c, t, js) && |g.code| <= CODE_BUF_SIZE
    ensures Alike(Emit(g, bs), Emit(c, bs), t, js)
  {
    var code, n := Emit(g, bs).code, |g.code|;
    assert code[..n] == g.code;
    forall i | 0 <= i < g.fixups
      ensures code[c.table[i].patchPos..c.table[i].patchPos + 4] == PLACEHOLDER
    {
      PrefixSlice(code, n, c.table[i].patchPos);
    }
  }

  lemma EmitIAlike(g: Gen, c: Gen, t: seq<Fixup>, js: seq<Jump>, i: Instr)
    requires Alike(g, c, t, js) && |g.code| <= CODE_BUF_SIZE
    ensures Alike(EmitI(g, i), EmitI(c, i), t, js) && |EmitI(g, i).code| <= CODE_BUF_SIZE
  {
    hide Encode, Alike;
    EmitAlike(g, c, t, js, Encode(i));
  }

  lemma TwoAlike(g: Gen, c: Gen, t: seq<Fixup>, js: seq<Jump>, i: Instr, k: Instr)
    requires Alike(g, c, t, js) && |g.code| <= CODE_BUF_SIZE
    ensures Alike(EmitI(EmitI(g, i), k), EmitI(EmitI(c, i), k), t, js) && |EmitI(EmitI(g, i), k).code| <= CODE_BUF_SIZE
  {
    hide EmitI, Alike;
    EmitIAlike(g, c, t, js, i);
    EmitIAlike(EmitI(g, i), EmitI(c, i), t, js, k);
  }

  lemma LabelsAlike(g: Gen, c: Gen, t: seq<Fixup>, js: seq<Jump>, id: nat)
    requires Alike(g, c, t, js)
    ensures Alike(AllocLabel(g), AllocLabel(c), t, js) && Alike(MarkLabel(g, id), MarkLabel(c, id), t, js)
  {
  }

  /** A record of either compilation and the placeholder behind it. */
  lemma RecordPut(g: Gen, c: Gen, t: seq<Fixup>, js: seq<Jump>, x: Fixup, y: Fixup, j: Jump)
    requires Alike(g, c, t, js) && |js| < MAX_FIXUPS && |g.code| + 4 <= CODE_BUF_SIZE
    requires x.patchPos == y.patchPos == |g.code| && RecordAlike(x, y, t[|js|], j)
    ensures Alike(Emit(PutFixup(g, x), PLACEHOLDER), Emit(PutFixup(c, y), PLACEHOLDER), t, js + [j])
  {
    var code := g.code + PLACEHOLDER;
    var d := Emit(PutFixup(c, y), PLACEHOLDER);
    assert d.code == code;
    forall i | 0 <= i < d.fixups
      ensures d.table[i].patchPos + 4 <= |d.code| && d.code[d.table[i].patchPos..d.table[i].patchPos + 4] == PLACEHOLDER
    {
      if i < |js| {
        assert d.table[i] == c.table[i];
        assert code[c.table[i].patchPos..c.table[i].patchPos + 4] == g.code[c.table[i].patchPos..c.table[i].patchPos + 4];
      }
    }
  }

  lemma AlikeRoom(g: Gen, c: Gen, t: seq<Fixup>, js: seq<Jump>)
    requires Alike(g, c, t, js)
    ensures g.fixups == c.fixups == |js| && |g.table| == |c.table| == |t| == MAX_FIXUPS && g.code == c.code
    ensures g.funcs == c.funcs && g.nextLabel == c.nextLabel && g.pool == c.pool && g.strs == c.strs && g.labels == c.labels
    ensures |js| < MAX_FIXUPS ==> g.table[|js|] == t[|js|] && c.table[|js|] == t[|js|].(isFuncCall := false)
  {
  }

  /** Opcode, record and placeholder of a jump or call; the record is set whole. */
  lemma JumpAlike(g: Gen, c: Gen, t: seq<Fixup>, js: seq<Jump>, op: seq<byte>, lbl: nat)
    requires Alike(g, c, t, js) && |js| < MAX_FIXUPS && |g.code| + |op| + 4 <= CODE_BUF_SIZE
    ensures Alike(Emit(JumpFixup(Emit(g, op), lbl), PLACEHOLDER), Emit(JumpFixup(Emit(c, op), lbl), PLACEHOLDER), t, js + [Direct])
  {
    hide Alike, PLACEHOLDER;
    EmitAlike(g, c, t, js, op);
    var g1, c1 := Emit(g, op), Emit(c, op);
    AlikeRoom(g1, c1, t, js);
    var x := t[|js|].(labelId := lbl, patchPos := |g1.code|, isFuncCall := false);
    RecordPut(g1, c1, t, js, x, x, Direct);
  }

  lemma TestAlike(g: Gen, c: Gen, t: seq<Fixup>, js: seq<Jump>, op: seq<byte>, lbl: nat, target: int)
    requires Alike(g, c, t, js) && |js| < MAX_FIXUPS && |g.code| + |op| + 4 <= CODE_BUF_SIZE
    ensures Alike(Emit(TestFixup(Emit(g, op), lbl), PLACEHOLDER), Emit(TestFixup(Emit(c, op), lbl), PLACEHOLDER),
                  t, js + [Test(|g.code| + |op|, target)])
  {
    hide Alike, PLACEHOLDER;
    EmitAlike(g, c, t, js, op);
    var g1, c1 := Emit(g, op), Emit(c, op);
    AlikeRoom(g1, c1, t, js);
    var x := t[|js|].(labelId := lbl, patchPos := |g1.code|);
    RecordPut(g1, c1, t, js, x, x.(isFuncCall := false), Test(|g1.code|, target));
  }

  lemma CallAlike(g: Gen, c: Gen, t: seq<Fixup>, js: seq<Jump>, name: string)
    requires Alike(g, c, t, js) && |g.code| + 5 <= CODE_BUF_SIZE
    requires FindFunc(g.funcs, name) == -1 ==> |js| < MAX_FIXUPS
    ensures Alike(EmitCall(g, name), EmitCall(c, name), t, js + Directs(if FindFunc(g.funcs, name) == -1 then 1 else 0))
  {
    hide Alike, PLACEHOLDER, FindFunc;
    AlikeRoom(g, c, t, js);
    EmitAlike(g, c, t, js, [0xE8]);
    var g1, c1 := Emit(g, [0xE8]), Emit(c, [0xE8]);
    AlikeRoom(g1, c1, t, js);
    if FindFunc(g.funcs, name) == -1 {
      var x := t[|js|].(isFuncCall := true, funcName := Trunc(name), patchPos := |g1.code|);
      RecordPut(g1, c1, t, js, x, x, Direct);
      assert Directs(1) == [Direct];
    } else {
      EmitAlike(g1, c1, t, js, Bytes32(ToU32(FindFunc(g.funcs, name) - (|g1.code| + 4))));
      assert js + Directs(0) == js;
    }
  }

  lemma LeaAlike(g: Gen, c: Gen, t: seq<Fixup>, js: seq<Jump>, raw: string)
    requires Alike(g, c, t, js) && |g.code| <= CODE_BUF_SIZE
    ensures Alike(EmitLea(g, raw), EmitLea(c, raw), t, js)
  {
    hide Text, Emit;
    var g0, c0 := AddString(g, raw), AddString(c, raw);
    assert Alike(g0, c0, t, js);
    EmitAlike(g0, c0, t, js, [0x48, 0x8D, 0x05]);
    var g1, c1 := Emit(g0, [0x48, 0x8D, 0x05]), Emit(c0, [0x48, 0x8D, 0x05]);
    var g2, c2 := AddStrFixup(g1, |g.pool|), AddStrFixup(c1, |g.pool|);
    assert Alike(g2, c2, t, js);
    assert |g1.code| <= CODE_BUF_SIZE by { EmitBound(g0, [0x48, 0x8D, 0x05]); }
    EmitAlike(g2, c2, t, js, PLACEHOLDER);
  }

  lemma EmitBound(g: Gen, bs: seq<byte>)
    requires |g.code| <= CODE_BUF_SIZE
    ensures |Emit(g, bs).code| <= CODE_BUF_SIZE
  {
  }

  lemma SoundBound(c: Gen)
    requires Sound(c)
    ensures |c.code| <= CODE_BUF_SIZE
  {
  }

  lemma DirectsJoin(js: seq<Jump>, m: nat, n: nat)
    ensures js + Directs(m) + Directs(n) == js + Directs(m + n)
    ensures js + Directs(0) == js
  {
  }

  // ----- expressions -----

  lemma {:induction false} ExprAlike(g: Gen, c: Gen, t: seq<Fixup>, js: seq<Jump>, e: Expr, n: nat)
    requires Alike(g, c, t, js) && Sound(c) && GoodExpr(e, n) && Fits(c, ExprCost(c.funcs, e))
    ensures Alike(GenExpr(g, e), GenExpr(c, e), t, js + Directs(ExprCost(c.funcs, e).fixups))
    decreases e, 1
  {
    hide Alike, Sound, Grows, EmitI, EmitCall, EmitDrop, FindFunc, EmitLea, Text, Encode, Extends;
    AlikeRoom(g, c, t, js);
    SoundBound(c);
    match e
    case Int(k) => TwoAlike(g, c, t, js, MovRaxImm(ToWord(k)), PushRax); DirectsJoin(js, 0, 0);
    case Var(off) => TwoAlike(g, c, t, js, LoadInstr(off), PushRax); DirectsJoin(js, 0, 0);
    case Bin(_, _, _) => BinAlike(g, c, t, js, e, n);
    case CallE(name, args) => CallTailAlike(g, c, t, js, e, n);
    case Str(raw) =>
      LeaAlike(g, c, t, js, raw);
      LeaGrows(c, raw);
      GrowsFacts(c, EmitLea(c, raw), Cost(7, 0, 0, 1, |Text(raw)|));
      SoundBound(EmitLea(c, raw));
      AlikeRoom(EmitLea(g, raw), EmitLea(c, raw), t, js);
      EmitIAlike(EmitLea(g, raw), EmitLea(c, raw), t, js, PushRax);
      DirectsJoin(js, 0, 0);
  }

  lemma BinTailAlike(g: Gen, c: Gen, t: seq<Fixup>, js: seq<Jump>, op: Op)
    requires Alike(g, c, t, js) && |g.code| <= CODE_BUF_SIZE
    ensures Alike(BinTail(g, op), BinTail(c, op), t, js)
  {
    hide Alike, EmitI;
    TwoAlike(g, c, t, js, PopRbx, PopRax);
    var g1, c1 := EmitI(EmitI(g, PopRbx), PopRax), EmitI(EmitI(c, PopRbx), PopRax);
    match op
    case Add => TwoAlike(g1, c1, t, js, AddRaxRbx, PushRax);
    case Sub => TwoAlike(g1, c1, t, js, SubRaxRbx, PushRax);
    case Mul => TwoAlike(g1, c1, t, js, ImulRaxRbx, PushRax);
    case Div =>
      TwoAlike(g1, c1, t, js, Cqo, IdivRbx);
      EmitIAlike(EmitI(EmitI(g1, Cqo), IdivRbx), EmitI(EmitI(c1, Cqo), IdivRbx), t, js, PushRax);
    case _ => EmitIAlike(g1, c1, t, js, PushRax);
  }

  lemma {:induction false} BinAlike(g: Gen, c: Gen, t: seq<Fixup>, js: seq<Jump>, e: Expr, n: nat)
    requires e.Bin? && Alike(g, c, t, js) && Sound(c) && GoodExpr(e, n) && Fits(c, ExprCost(c.funcs, e))
    ensures Alike(GenExpr(g, e), GenExpr(c, e), t, js + Directs(ExprCost(c.funcs, e).fixups))
    decreases e, 0
  {
    hide Alike, Sound, Grows, GenExpr, ExprCost, ExprSize, GoodExpr, BinTail, OpSize, Extends, Directs;
    BinShape(g, e, n);
    BinShape(c, e, n);
    var Bin(op, l, r) := e;
    var k, m := ExprCost(c.funcs, l), ExprCost(c.funcs, r);
    var c1 := GenExpr(c, l);
    var c2 := GenExpr(c1, r);
    ExprGrows(c, l, n);
    GrowsFacts(c, c1, k);
    ExprGrows(c1, r, n);
    GrowsFacts(c1, c2, m);
    ExprAlike(g, c, t, js, l, n);
    var g1 := GenExpr(g, l);
    ExprAlike(g1, c1, t, js + Directs(k.fixups), r, n);
    DirectsJoin(js, k.fixups, m.fixups);
    var g2 := GenExpr(g1, r);
    AlikeRoom(g2, c2, t, js + Directs(k.fixups + m.fixups));
    SoundBound(c2);
    BinTailAlike(g2, c2, t, js + Directs(k.fixups + m.fixups), op);
  }

  lemma {:induction false} CallTailAlike(g: Gen, c: Gen, t: seq<Fixup>, js: seq<Jump>, e: Expr, n: nat)
    requires e.CallE? && Alike(g, c, t, js) && Sound(c) && GoodExpr(e, n) && Fits(c, ExprCost(c.funcs, e))
    ensures Alike(GenExpr(g, e), GenExpr(c, e), t, js + Directs(ExprCost(c.funcs, e).fixups))
    decreases e, 0
  {
    hide Alike, Sound, Grows, EmitI, EmitCall, FindFunc, Extends, Directs, GenArgs;
    var CallE(name, args) := e;
    var k := ArgsCost(c.funcs, args);
    var c1, g1 := GenArgs(c, args, 32), GenArgs(g, args, 32);
    ArgsGrow(c, args, 32, n);
    GrowsFacts(c, c1, k);
    ArgsAlike(g, c, t, js, args, 32, n);
    var js1 := js + Directs(k.fixups);
    AlikeRoom(g1, c1, t, js1);
    var count := args.Count();
    var m := if FindFunc(c.funcs, name) == -1 then 1 else 0;
    CallAlike(g1, c1, t, js1, name);
    DirectsJoin(js, k.fixups, m);
    var g2, c2, js2 := EmitCall(g1, name), EmitCall(c1, name), js + Directs(k.fixups + m);
    EmitCallGrows(c1, name);
    GrowsFacts(c1, c2, CallFields(c1, name));
    SoundBound(c2);
    AlikeRoom(g2, c2, t, js2);
    if count > 0 {
      TwoAlike(g2, c2, t, js2, AddRsp(SignedInt(ToU32(8 * count))), PushRax);
    } else {
      EmitIAlike(g2, c2, t, js2, PushRax);
    }
  }

  lemma {:induction false} ArgsAlike(g: Gen, c: Gen, t: seq<Fixup>, js: seq<Jump>, es: Exprs, limit: nat, n: nat)
    requires Alike(g, c, t, js) && Sound(c) && GoodExprs(es, n) && es.Count() <= limit && Fits(c, ArgsCost(c.funcs, es))
    ensures Alike(GenArgs(g, es, limit), GenArgs(c, es, limit), t, js + Directs(ArgsCost(c.funcs, es).fixups))
    decreases es, 2
  {
    hide Alike, Sound, Grows, FindFunc, ExprCost, ExprSize, GenExpr, GoodExpr, Extends;
    if es.ENil? {
      DirectsJoin(js, 0, 0);
    } else {
      var k, m := ArgsCost(c.funcs, es.next), ExprCost(c.funcs, es.head);
      var c1 := GenArgs(c, es.next, limit - 1);
      ArgsGrow(c, es.next, limit - 1, n);
      GrowsFacts(c, c1, k);
      ArgsAlike(g, c, t, js, es.next, limit - 1, n);
      ExprAlike(GenArgs(g, es.next, limit - 1), c1, t, js + Directs(k.fixups), es.head, n);
      DirectsJoin(js, k.fixups, m.fixups);
    }
  }

  // ----- conditions -----

  lemma CondAlike(g: Gen, c: Gen, t: seq<Fixup>, js: seq<Jump>, e: Expr, lbl: nat, target: int, n: nat)
    requires Alike(g, c, t, js) && Sound(c) && GoodExpr(e, n) && Fits(c, CondCost(c.funcs, e))
    ensures Alike(GenCond(g, e, lbl, false), GenCond(c, e, lbl, false), t, js + CondJumps(c.funcs, e, |c.code|, target))
  {
    hide Alike, Sound, Grows, GenExpr, ExprSize, ExprCost, EmitCondJump, EmitTestJump, JumpCC, Extends, Directs;
    if e.Bin? {
      ComparisonAlike(g, c, t, js, e, lbl, n);
    } else {
      var k := ExprCost(c.funcs, e);
      var g1, c1 := GenExpr(g, e), GenExpr(c, e);
      ExprGrows(c, e, n);
      GrowsFacts(c, c1, k);
      ExprAlike(g, c, t, js, e, n);
      TestJumpAlike(g1, c1, t, js + Directs(k.fixups), E, lbl, target);
      assert js + Directs(k.fixups) + [Test(|c1.code| + 6, target)] == js + (Directs(k.fixups) + [Test(|c1.code| + 6, target)]);
    }
  }

  lemma TestJumpAlike(g: Gen, c: Gen, t: seq<Fixup>, js: seq<Jump>, cc: CC, lbl: nat, target: int)
    requires Alike(g, c, t, js) && Sound(c) && Fits(c, Cost(10, 0, 1, 0, 0))
    ensures Alike(EmitTestJump(g, cc, lbl), EmitTestJump(c, cc, lbl), t, js + [Test(|c.code| + 6, target)])
  {
    hide Alike, Sound, Grows, EmitI, Encode, TestFixup, CCByte, Extends, Emit;
    CompareSizes();
    AlikeRoom(g, c, t, js);
    SoundBound(c);
    TwoAlike(g, c, t, js, PopRax, TestRax);
    var g1, c1 := EmitI(EmitI(g, PopRax), TestRax), EmitI(EmitI(c, PopRax), TestRax);
    TwoGrows(c, PopRax, TestRax);
    GrowsFacts(c, c1, Bytes(4));
    AlikeRoom(g1, c1, t, js);
    TestAlike(g1, c1, t, js, [0x0F, CCByte(cc)], lbl, target);
  }

  lemma CompareJumpAlike(g: Gen, c: Gen, t: seq<Fixup>, js: seq<Jump>, cc: CC, lbl: nat)
    requires Alike(g, c, t, js) && Sound(c) && Fits(c, Cost(11, 0, 1, 0, 0))
    ensures Alike(EmitCondJump(g, cc, lbl), EmitCondJump(c, cc, lbl), t, js + [Direct])
  {
    hide Alike, Sound, Grows, EmitI, Encode, JumpFixup, CCByte, Extends, Emit;
    CompareSizes();
    AlikeRoom(g, c, t, js);
    SoundBound(c);
    TwoAlike(g, c, t, js, PopRbx, PopRax);
    var g1, c1 := EmitI(EmitI(g, PopRbx), PopRax), EmitI(EmitI(c, PopRbx), PopRax);
    TwoGrows(c, PopRbx, PopRax);
    GrowsFacts(c, c1, Bytes(2));
    OneGrows(c1, CmpRaxRbx);
    var g2, c2 := EmitI(g1, CmpRaxRbx), EmitI(c1, CmpRaxRbx);
    GrowsFacts(c1, c2, Bytes(3));
    EmitIAlike(g1, c1, t, js, CmpRaxRbx);
    AlikeRoom(g2, c2, t, js);
    JumpAlike(g2, c2, t, js, [0x0F, CCByte(cc)], lbl);
  }

  lemma ComparisonAlike(g: Gen, c: Gen, t: seq<Fixup>, js: seq<Jump>, e: Expr, lbl: nat, n: nat)
    requires e.Bin? && Alike(g, c, t, js) && Sound(c) && GoodExpr(e, n) && Fits(c, CondCost(c.funcs, e))
    ensures Alike(GenCond(g, e, lbl, false), GenCond(c, e, lbl, false), t, js + Directs(CondCost(c.funcs, e).fixups))
  {
    hide Alike, Sound, Grows, GenExpr, ExprSize, ExprCost, EmitCondJump, JumpCC, Extends, Directs;
    var k, m := ExprCost(c.funcs, e.left), ExprCost(c.funcs, e.right);
    var g1, c1 := GenExpr(g, e.left), GenExpr(c, e.left);
    var g2, c2 := GenExpr(g1, e.right), GenExpr(c1, e.right);
    ExprGrows(c, e.left, n);
    GrowsFacts(c, c1, k);
    ExprGrows(c1, e.right, n);
    GrowsFacts(c1, c2, m);
    ExprAlike(g, c, t, js, e.left, n);
    ExprAlike(g1, c1, t, js + Directs(k.fixups), e.right, n);
    DirectsJoin(js, k.fixups, m.fixups);
    CompareJumpAlike(g2, c2, t, js + Directs(k.fixups + m.fixups), JumpCC(e.op, false), lbl);
    OneDirect(js, k.fixups + m.fixups);
  }

  lemma OneDirect(js: seq<Jump>, n: nat)
    ensures js + Directs(n) + [Direct] == js + Directs(n + 1)
  {
  }

  // ----- statements -----

  lemma {:induction false} GuardedAlike(g: Gen, c: Gen, t: seq<Fixup>, js: seq<Jump>, e: Expr, lbl: nat, target: int, s: Stmt, n: nat)
    requires Alike(g, c, t, js) && Sound(c) && GoodExpr(e, n) && GoodStmt(s, n) && Fits(c, GuardedCost(c.funcs, e, s))
    ensures Alike(Guarded(g, e, lbl, s), Guarded(c, e, lbl, s), t,
                  js + CondJumps(c.funcs, e, |c.code|, target) + StmtJumps(c.funcs, s, |c.code| + CondSize(e)))
    decreases s, 4
  {
    hide Alike, Sound, Grows, GenCond, CondCost, CondSize, GenStmt, StmtCost, StmtSize, GoodExpr, GoodStmt, Extends, StmtJumps, CondJumps;
    var c1 := GenCond(c, e, lbl, false);
    CondGrows(c, e, lbl, false, n);
    GrowsFacts(c, c1, CondCost(c.funcs, e));
    CondAlike(g, c, t, js, e, lbl, target, n);
    StmtAlike(GenCond(g, e, lbl, false), c1, t, js + CondJumps(c.funcs, e, |c.code|, target), s, n);
  }

  lemma AllocAlike(g: Gen, c: Gen, t: seq<Fixup>, js: seq<Jump>)
    requires Alike(g, c, t, js)
    ensures Alike(AllocLabel(AllocLabel(g)), AllocLabel(AllocLabel(c)), t, js)
  {
    hide Alike;
    LabelsAlike(g, c, t, js, 0);
    LabelsAlike(AllocLabel(g), AllocLabel(c), t, js, 0);
  }

  lemma JmpAlike(g: Gen, c: Gen, t: seq<Fixup>, js: seq<Jump>, lbl: nat)
    requires Alike(g, c, t, js) && Fits(c, Cost(5, 0, 1, 0, 0))
    ensures Alike(EmitJmp(g, lbl), EmitJmp(c, lbl), t, js + [Direct])
  {
    hide Alike;
    AlikeRoom(g, c, t, js);
    JumpAlike(g, c, t, js, [0xE9], lbl);
  }

  lemma {:induction false} IfAlike(g: Gen, c: Gen, t: seq<Fixup>, js: seq<Jump>, s: Stmt, n: nat)
    requires s.If? && s.els.None? && Alike(g, c, t, js) && Sound(c) && GoodStmt(s, n) && Fits(c, StmtCost(c.funcs, s))
    ensures Alike(GenStmt(g, s), GenStmt(c, s), t, js + StmtJumps(c.funcs, s, |c.code|))
    decreases s, 1
  {
    hide Alike, Sound, Grows, AllocLabel, MarkLabel, Guarded, CondSize, CondCost, Extends, GoodExpr, GenStmt, CondJumps;
    AlikeRoom(g, c, t, js);
    var c1, c2 := IfParts(c, s, n);
    GrowsFacts(c, c1, Cost(0, 2, 0, 0, 0));
    AllocAlike(g, c, t, js);
    var g1, lbl := AllocLabel(AllocLabel(g)), c.nextLabel + 1;
    var target := |c.code| + StmtSize(s);
    GuardedAlike(g1, c1, t, js, s.cond, lbl, target, s.thn, n);
    var js2 := js + CondJumps(c.funcs, s.cond, |c.code|, target) + StmtJumps(c.funcs, s.thn, |c.code| + CondSize(s.cond));
    assert js2 == js + StmtJumps(c.funcs, s, |c.code|);
    var g2 := Guarded(g1, s.cond, lbl, s.thn);
    LabelsAlike(g2, c2, t, js2, lbl);
    IfIs(g, s);
  }

  lemma IfIs(g: Gen, s: Stmt)
    requires s.If? && s.els.None?
    ensures GenStmt(g, s) == MarkLabel(Guarded(AllocLabel(AllocLabel(g)), s.cond, g.nextLabel + 1, s.thn), g.nextLabel + 1)
  {
    hide GenCond, AllocLabel, MarkLabel;
  }

  lemma IfElseIs(g: Gen, s: Stmt)
    requires s.If? && s.els.Some?
    ensures var g3 := EmitJmp(Guarded(AllocLabel(AllocLabel(g)), s.cond, g.nextLabel, s.thn), g.nextLabel + 1);
            GenStmt(g, s) == MarkLabel(GenStmt(MarkLabel(g3, g.nextLabel), s.els.value), g.nextLabel + 1)
  {
    hide GenCond, AllocLabel, MarkLabel, EmitJmp;
  }

  lemma WhileIs(g: Gen, s: Stmt)
    requires s.While?
    ensures var g3 := Guarded(MarkLabel(AllocLabel(AllocLabel(g)), g.nextLabel), s.cond, g.nextLabel + 1, s.body);
            GenStmt(g, s) == MarkLabel(EmitJmp(g3, g.nextLabel), g.nextLabel + 1)
  {
    hide GenCond, AllocLabel, MarkLabel, EmitJmp;
  }

  lemma {:induction false} IfElseAlike(g: Gen, c: Gen, t: seq<Fixup>, js: seq<Jump>, s: Stmt, n: nat)
    requires s.If? && s.els.Some? && Alike(g, c, t, js) && Sound(c) && GoodStmt(s, n) && Fits(c, StmtCost(c.funcs, s))
    ensures Alike(GenStmt(g, s), GenStmt(c, s), t, js + StmtJumps(c.funcs, s, |c.code|))
    decreases s, 2
  {
    hide Alike, Sound, Grows, AllocLabel, MarkLabel, Guarded, CondSize, CondCost, Extends, GoodExpr, GenStmt, CondJumps, EmitJmp, StmtCost, GuardedCost, StmtSize, Fits;
    AlikeRoom(g, c, t, js);
    var c1, c2, c3, c4, c5 := IfElseParts(c, s, n);
    GrowsFacts(c, c1, Cost(0, 2, 0, 0, 0));
    GrowsFacts(c1, c2, GuardedCost(c.funcs, s.cond, s.thn));
    GrowsFacts(c2, c3, Cost(5, 0, 1, 0, 0));
    MarkCode(c3, c.nextLabel);
    AllocAlike(g, c, t, js);
    var a, b := |c.code|, |c.code| + CondSize(s.cond) + StmtSize(s.thn) + 5;
    var g1 := AllocLabel(AllocLabel(g));
    GuardedAlike(g1, c1, t, js, s.cond, c.nextLabel, b, s.thn, n);
    var g2 := Guarded(g1, s.cond, c.nextLabel, s.thn);
    var js2 := js + CondJumps(c.funcs, s.cond, a, b) + StmtJumps(c.funcs, s.thn, a + CondSize(s.cond));
    JmpAlike(g2, c2, t, js2, c.nextLabel + 1);
    var g3 := EmitJmp(g2, c.nextLabel + 1);
    LabelsAlike(g3, c3, t, js2 + [Direct], c.nextLabel);
    var g4 := MarkLabel(g3, c.nextLabel);
    StmtAlike(g4, c4, t, js2 + [Direct], s.els.value, n);
    var js5 := js2 + [Direct] + StmtJumps(c.funcs, s.els.value, b);
    assert js5 == js + StmtJumps(c.funcs, s, a);
    LabelsAlike(GenStmt(g4, s.els.value), c5, t, js5, c.nextLabel + 1);
    IfElseIs(g, s);
  }

  lemma {:induction false} WhileAlike(g: Gen, c: Gen, t: seq<Fixup>, js: seq<Jump>, s: Stmt, n: nat)
    requires s.While? && Alike(g, c, t, js) && Sound(c) && GoodStmt(s, n) && Fits(c, StmtCost(c.funcs, s))
    ensures Alike(GenStmt(g, s), GenStmt(c, s), t, js + StmtJumps(c.funcs, s, |c.code|))
    decreases s, 1
  {
    hide Alike, Sound, Grows, AllocLabel, MarkLabel, Guarded, CondSize, CondCost, Extends, GoodExpr, GenStmt, CondJumps, EmitJmp;
    AlikeRoom(g, c, t, js);
    var c1, c2, c3, c4 := WhileParts(c, s, n);
    MarkCode(c1, c.nextLabel);
    GrowsFacts(c2, c3, GuardedCost(c.funcs, s.cond, s.body));
    AllocAlike(g, c, t, js);
    var a, target := |c.code|, |c.code| + StmtSize(s);
    var g1 := AllocLabel(AllocLabel(g));
    LabelsAlike(g1, c1, t, js, c.nextLabel);
    var g2 := MarkLabel(g1, c.nextLabel);
    GuardedAlike(g2, c2, t, js, s.cond, c.nextLabel + 1, target, s.body, n);
    var g3 := Guarded(g2, s.cond, c.nextLabel + 1, s.body);
    var js3 := js + CondJumps(c.funcs, s.cond, a, target) + StmtJumps(c.funcs, s.body, a + CondSize(s.cond));
    JmpAlike(g3, c3, t, js3, c.nextLabel);
    LabelsAlike(EmitJmp(g3, c.nextLabel), c4, t, js3 + [Direct], c.nextLabel + 1);
    assert js3 + [Direct] == js + StmtJumps(c.funcs, s, a);
    WhileIs(g, s);
  }

  lemma ReturnAlike(g: Gen, c: Gen, t: seq<Fixup>, js: seq<Jump>, i: Instr)
    requires Alike(g, c, t, js) && |g.code| <= CODE_BUF_SIZE
    ensures Alike(EmitEpilogue(EmitI(g, i)), EmitEpilogue(EmitI(c, i)), t, js)
  {
    hide Alike, EmitI;
    EmitIAlike(g, c, t, js, i);
    TwoAlike(EmitI(g, i), EmitI(c, i), t, js, Leave, Ret);
  }

  /** A computed value and two instructions that use it. */
  lemma UsedAlike(g: Gen, c: Gen, t: seq<Fixup>, js: seq<Jump>, e: Expr, n: nat)
    requires Alike(g, c, t, js) && Sound(c) && GoodExpr(e, n) && Fits(c, ExprCost(c.funcs, e))
    ensures var js' := js + Directs(ExprCost(c.funcs, e).fixups);
            && Alike(GenExpr(g, e), GenExpr(c, e), t, js') && |GenExpr(g, e).code| <= CODE_BUF_SIZE
            && (forall off: int :: Alike(EmitStore(GenExpr(g, e), off), EmitStore(GenExpr(c, e), off), t, js'))
            && Alike(EmitEpilogue(EmitI(GenExpr(g, e), PopRax)), EmitEpilogue(EmitI(GenExpr(c, e), PopRax)), t, js')
  {
    hide Alike, Sound, Grows, EmitI, GenExpr, ExprCost, Extends, EmitEpilogue, GoodExpr, Directs, Fits;
    var c1, js' := GenExpr(c, e), js + Directs(ExprCost(c.funcs, e).fixups);
    ExprGrows(c, e, n);
    GrowsFacts(c, c1, ExprCost(c.funcs, e));
    SoundBound(c1);
    ExprAlike(g, c, t, js, e, n);
    var g1 := GenExpr(g, e);
    AlikeRoom(g1, c1, t, js');
    forall off: int ensures Alike(EmitStore(g1, off), EmitStore(c1, off), t, js') {
      TwoAlike(g1, c1, t, js', PopRax, StoreInstr(off));
    }
    ReturnAlike(g1, c1, t, js', PopRax);
  }

  lemma {:induction false} StmtAlike(g: Gen, c: Gen, t: seq<Fixup>, js: seq<Jump>, s: Stmt, n: nat)
    requires Alike(g, c, t, js) && Sound(c) && GoodStmt(s, n) && Fits(c, StmtCost(c.funcs, s))
    ensures Alike(GenStmt(g, s), GenStmt(c, s), t, js + StmtJumps(c.funcs, s, |c.code|))
    decreases s, 3
  {
    hide Alike, Sound, Grows, GenExpr, ExprCost, ExprSize, GoodExpr, EmitI, Encode, CondCost, CondSize, EmitStore, EmitEpilogue, MarkLabel, AllocLabel, Extends, CondJumps, Directs;
    AlikeRoom(g, c, t, js);
    SoundBound(c);
    DirectsJoin(js, 0, 0);
    match s
    case ExprStmt(e) => UsedAlike(g, c, t, js, e, n);
    case Decl(off, _) => LoadAlike(g, c, t, js, off);
    case Assign(nodeOff, off, rhs) => UsedAlike(g, c, t, js, rhs, n);
    case If(_, _, None) => IfAlike(g, c, t, js, s, n);
    case If(_, _, Some(_)) => IfElseAlike(g, c, t, js, s, n);
    case While(_, _) => WhileAlike(g, c, t, js, s, n);
    case Block(items) => ItemsAlike(g, c, t, js, items, n);
    case Return(None) => ReturnAlike(g, c, t, js, XorEax);
    case Return(Some(e)) => UsedAlike(g, c, t, js, e, n);
  }

  lemma LoadAlike(g: Gen, c: Gen, t: seq<Fixup>, js: seq<Jump>, off: int)
    requires Alike(g, c, t, js) && |g.code| <= CODE_BUF_SIZE
    ensures Alike(EmitLoad(g, off), EmitLoad(c, off), t, js)
  {
    hide Alike, EmitI;
    TwoAlike(g, c, t, js, LoadInstr(off), PushRax);
  }

  lemma {:induction false} ItemAlike(g: Gen, c: Gen, t: seq<Fixup>, js: seq<Jump>, s: Stmt, n: nat)
    requires Alike(g, c, t, js) && Sound(c) && GoodStmt(s, n) && Fits(c, ItemCost(c.funcs, s))
    ensures Alike(GenItem(g, s), GenItem(c, s), t, js + ItemJumps(c.funcs, s, |c.code|))
    decreases s, 4
  {
    hide Alike, Sound, Grows, GenExpr, ExprCost, ExprSize, GoodExpr, EmitStore, GenStmt, StmtCost, StmtSize, Directs, StmtJumps;
    DirectsJoin(js, 0, 0);
    match s
    case Decl(_, None) => assert js + [] == js;
    case ExprStmt(Var(_)) => assert js + [] == js;
    case Decl(off, Some(e)) => UsedAlike(g, c, t, js, e, n);
    case _ => StmtAlike(g, c, t, js, s, n);
  }

  lemma {:induction false} ItemsAlike(g: Gen, c: Gen, t: seq<Fixup>, js: seq<Jump>, ss: Stmts, n: nat)
    requires Alike(g, c, t, js) && Sound(c) && GoodStmts(ss, n) && Fits(c, ItemsCost(c.funcs, ss))
    ensures Alike(GenItems(g, ss), GenItems(c, ss), t, js + ItemsJumps(c.funcs, ss, |c.code|))
    decreases ss, 5
  {
    hide Alike, Sound, Grows, GenItem, ItemCost, ItemSize, GoodStmt, ItemJumps, Extends;
    if ss.SNil? {
      assert js + [] == js;
    } else {
      var c1 := GenItem(c, ss.head);
      ItemGrows(c, ss.head, n);
      GrowsFacts(c, c1, ItemCost(c.funcs, ss.head));
      ItemAlike(g, c, t, js, ss.head, n);
      var js1 := js + ItemJumps(c.funcs, ss.head, |c.code|);
      ItemsAlike(GenItem(g, ss.head), c1, t, js1, ss.next, n);
      assert js1 + ItemsJumps(c.funcs, ss.next, |c1.code|) == js + ItemsJumps(c.funcs, ss, |c.code|);
    }
  }

  // ----- where the test jumps are -----

  /** The field of a test jump and its destination, inside the code from `lo` to `hi`. */
  predicate Between(j: Jump, lo: int, hi: int) {
    j.Test? ==> lo < j.site && j.site + 4 <= j.target <= hi
  }

  lemma CondBetween(funcs: seq<FuncSym>, c: Expr, a: int, target: int)
    requires a + CondSize(c) <= target
    ensures forall j :: j in CondJumps(funcs, c, a, target) ==> Between(j, a, target)
  {
  }

  lemma BetweenWider(js: seq<Jump>, lo: int, hi: int, lo': int, hi': int)
    requires lo' <= lo && hi <= hi' && forall j :: j in js ==> Between(j, lo, hi)
    ensures forall j :: j in js ==> Between(j, lo', hi')
  {
  }

  lemma {:induction false} JumpsBetween(funcs: seq<FuncSym>, s: Stmt, a: int)
    ensures forall j :: j in StmtJumps(funcs, s, a) ==> Between(j, a, a + StmtSize(s))
    decreases s, 0
  {
    hide CondSize, CondJumps, ExprSize, StmtCost, Between;
    match s
    case If(c, t, None) =>
      CondBetween(funcs, c, a, a + StmtSize(s));
      JumpsBetween(funcs, t, a + CondSize(c));
      BetweenWider(StmtJumps(funcs, t, a + CondSize(c)), a + CondSize(c), a + CondSize(c) + StmtSize(t), a, a + StmtSize(s));
    case If(c, t, Some(f)) =>
      var b := a + CondSize(c) + StmtSize(t) + 5;
      CondBetween(funcs, c, a, b);
      BetweenWider(CondJumps(funcs, c, a, b), a, b, a, a + StmtSize(s));
      JumpsBetween(funcs, t, a + CondSize(c));
      BetweenWider(StmtJumps(funcs, t, a + CondSize(c)), a + CondSize(c), a + CondSize(c) + StmtSize(t), a, a + StmtSize(s));
      JumpsBetween(funcs, f, b);
      BetweenWider(StmtJumps(funcs, f, b), b, b + StmtSize(f), a, a + StmtSize(s));
      DirectBetween(a, a + StmtSize(s), 0);
    case While(c, body) =>
      CondBetween(funcs, c, a, a + StmtSize(s));
      JumpsBetween(funcs, body, a + CondSize(c));
      BetweenWider(StmtJumps(funcs, body, a + CondSize(c)), a + CondSize(c), a + CondSize(c) + StmtSize(body), a, a + StmtSize(s));
      DirectBetween(a, a + StmtSize(s), 0);
    case Block(items) => ItemsBetween(funcs, items, a);
    case _ => DirectBetween(a, a + StmtSize(s), StmtCost(funcs, s).fixups);
  }

  lemma DirectBetween(lo: int, hi: int, n: nat)
    ensures Between(Direct, lo, hi) && forall j :: j in Directs(n) ==> Between(j, lo, hi)
  {
  }

  lemma {:induction false} ItemsBetween(funcs: seq<FuncSym>, ss: Stmts, a: int)
    ensures forall j :: j in ItemsJumps(funcs, ss, a) ==> Between(j, a, a + ItemsSize(ss))
    decreases ss, 2
  {
    hide Between, ItemSize, ItemJumps;
    if ss.SCons? {
      var s, b := ss.head, a + ItemSize(ss.head);
      ItemBetween(funcs, s, a);
      BetweenWider(ItemJumps(funcs, s, a), a, b, a, a + ItemsSize(ss));
      ItemsBetween(funcs, ss.next, b);
      BetweenWider(ItemsJumps(funcs, ss.next, b), b, b + ItemsSize(ss.next), a, a + ItemsSize(ss));
    }
  }

  lemma {:induction false} ItemBetween(funcs: seq<FuncSym>, s: Stmt, a: int)
    ensures forall j :: j in ItemJumps(funcs, s, a) ==> Between(j, a, a + ItemSize(s))
    decreases s, 1
  {
    hide ExprSize, StmtCost, Between, StmtSize, StmtJumps, ExprCost, Directs;
    match s
    case Decl(_, Some(e)) => DirectBetween(a, a + ItemSize(s), ExprCost(funcs, e).fixups);
    case Decl(_, None) =>
    case ExprStmt(Var(_)) =>
    case _ =>
      JumpsBetween(funcs, s, a);
      assert ItemJumps(funcs, s, a) == StmtJumps(funcs, s, a) && ItemSize(s) == StmtSize(s);
  }

  /** In finished code a test jump goes to its destination. */
  ghost predicate Lands(code: seq<byte>, j: Jump) {
    j.Test? ==> At(code, j.site - 2, Jcc(E, Rel(j.target, j.site + 4)))
  }

  lemma CondLands(code: seq<byte>, en: Entries, funcs: seq<FuncSym>, c: Expr, a: int, target: int)
    requires CondAt(code, en, c, a, target, false)
    ensures forall j :: j in CondJumps(funcs, c, a, target) ==> Lands(code, j)
  {
    hide At, ExprAt;
  }

  lemma {:induction false} JumpsLand(code: seq<byte>, en: Entries, funcs: seq<FuncSym>, s: Stmt, a: int)
    requires StmtAt(code, en, s, a)
    ensures forall j :: j in StmtJumps(funcs, s, a) ==> Lands(code, j)
    decreases s, 0
  {
    hide CondSize, CondJumps, ExprSize, StmtCost, Lands, At, ExprAt, CondAt, StoreAt;
    match s
    case If(c, t, None) =>
      CondLands(code, en, funcs, c, a, a + StmtSize(s));
      JumpsLand(code, en, funcs, t, a + CondSize(c));
    case If(c, t, Some(f)) =>
      var b := a + CondSize(c) + StmtSize(t) + 5;
      CondLands(code, en, funcs, c, a, b);
      JumpsLand(code, en, funcs, t, a + CondSize(c));
      JumpsLand(code, en, funcs, f, b);
      DirectLands(code, 0);
    case While(c, body) =>
      CondLands(code, en, funcs, c, a, a + StmtSize(s));
      JumpsLand(code, en, funcs, body, a + CondSize(c));
      DirectLands(code, 0);
    case Block(items) => ItemsLand(code, en, funcs, items, a);
    case _ => DirectLands(code, StmtCost(funcs, s).fixups);
  }

  lemma DirectLands(code: seq<byte>, n: nat)
    ensures Lands(code, Direct) && forall j :: j in Directs(n) ==> Lands(code, j)
  {
  }

  lemma {:induction false} ItemsLand(code: seq<byte>, en: Entries, funcs: seq<FuncSym>, ss: Stmts, a: int)
    requires ItemsAt(code, en, ss, a)
    ensures forall j :: j in ItemsJumps(funcs, ss, a) ==> Lands(code, j)
    decreases ss, 1
  {
    hide ExprSize, StmtCost, Lands, StmtAt, ExprAt, StoreAt, StmtSize, StmtJumps, ExprCost;
    if ss.SCons? {
      match ss.head {
        case Decl(_, Some(e)) => DirectLands(code, ExprCost(funcs, e).fixups);
        case Decl(_, None) =>
        case ExprStmt(Var(_)) =>
        case _ => JumpsLand(code, en, funcs, ss.head, a);
      }
      ItemsLand(code, en, funcs, ss.next, a + ItemSize(ss.head));
    }
  }

  // ----- linking -----

  /** Sites lie inside the code and apart from each other. */
  ghost predicate Spread(g: Gen) {
    && SitesInside(g, |g.code|)
    && (forall i, j :: 0 <= i < j < g.fixups ==> g.table[i].patchPos + 4 <= g.table[j].patchPos)
    && (forall i, j :: 0 <= i < j < |g.strs| ==> g.strs[i].dispPos + 4 <= g.strs[j].dispPos)
    && (forall i, j :: 0 <= i < g.fixups && 0 <= j < |g.strs| ==>
          g.table[i].patchPos + 4 <= g.strs[j].dispPos || g.strs[j].dispPos + 4 <= g.table[i].patchPos)
  }

  lemma SoundSpread(c: Gen)
    requires Sound(c)
    ensures Spread(c)
  {
  }

  lemma AlikeSpread(g: Gen, c: Gen, t: seq<Fixup>, js: seq<Jump>)
    requires Alike(g, c, t, js) && Spread(c)
    ensures Spread(g)
  {
    assert forall i :: 0 <= i < |js| ==> RecordAlike(g.table[i], c.table[i], t[i], js[i]) && g.table[i].patchPos == c.table[i].patchPos;
  }

  /** The four bytes a record ends up with: those emitted while it leads nowhere. */
  function Field(g: Gen, i: nat): seq<byte>
    requires SitesInside(g, |g.code|) && i < g.fixups
  {
    var pos := g.table[i].patchPos;
    if Resolve(g, i) == -1 then g.code[pos..pos + 4] else Bytes32(ToU32(Resolve(g, i) - (pos + 4)))
  }

  lemma {:induction false} PatchField(g: Gen, code: seq<byte>, n: nat, i: nat)
    requires SitesInside(g, |code|) && i < g.fixups && n <= g.fixups
    requires forall i, j :: 0 <= i < j < g.fixups ==> g.table[i].patchPos + 4 <= g.table[j].patchPos
    ensures var pos := g.table[i].patchPos;
            PatchFixups(g, code, n)[pos..pos + 4]
            == if i < n && Resolve(g, i) != -1 then Bytes32(ToU32(Resolve(g, i) - (pos + 4))) else code[pos..pos + 4]
    decreases n
  {
    hide Write32, Resolve, Bytes32, ToU32;
    if n > 0 {
      PatchField(g, code, n - 1, i);
      var pos, before, last := g.table[i].patchPos, PatchFixups(g, code, n - 1), g.table[n - 1].patchPos;
      if Resolve(g, n - 1) != -1 {
        var v := Resolve(g, n - 1) - (last + 4);
        Write32Facts(before, last, v);
        if i != n - 1 {
          assert Apart(pos, pos + 4, last) by {
            if i < n - 1 {
              assert g.table[i].patchPos + 4 <= g.table[n - 1].patchPos;
            } else {
              assert g.table[n - 1].patchPos + 4 <= g.table[i].patchPos;
            }
          }
          WriteApart(before, last, v, pos);
        }
      }
    }
  }

  lemma WriteApart(code: seq<byte>, pos: nat, v: int, at: nat)
    requires pos + 4 <= |code| && at + 4 <= |code| && Apart(at, at + 4, pos)
    ensures Write32(code, pos, v)[at..at + 4] == code[at..at + 4]
  {
    hide Write32, Bytes32;
    Write32Facts(code, pos, v);
  }

  lemma LinkedField(g: Gen, i: nat)
    requires Spread(g) && Section(g) >= 0 && i < g.fixups
    ensures var pos := g.table[i].patchPos; Linked(g)[pos..pos + 4] == Field(g, i)
  {
    hide PatchFixups, PatchStrings, Resolve, Bytes32, ToU32;
    var pos := g.table[i].patchPos;
    PatchField(g, g.code, g.fixups, i);
    forall j | 0 <= j < |g.strs| ensures Apart(pos, pos + 4, g.strs[j].dispPos) {
    }
    StringsMiss(g, PatchFixups(g, g.code, g.fixups), Section(g), |g.strs|, pos, pos + 4);
  }

  /** Equal code, sites and fields link to equal images. */
  lemma {:induction false} PatchesSame(g: Gen, c: Gen, n: nat)
    requires Spread(g) && Spread(c) && c == g.(table := c.table) && n <= g.fixups
    requires forall i :: 0 <= i < g.fixups ==> g.table[i].patchPos == c.table[i].patchPos && Field(g, i) == Field(c, i)
    ensures PatchFixups(g, g.code, n) == PatchFixups(c, c.code, n)
    decreases n
  {
    hide Field, Spread, PatchFixups;
    SpreadInside(g);
    SpreadInside(c);
    if n > 0 {
      PatchesSame(g, c, n - 1);
      PatchStep(g, n);
      PatchStep(c, n);
      assert Field(g, n - 1) == Field(c, n - 1);
    } else {
      NoPatches(g);
      NoPatches(c);
    }
  }

  lemma NoPatches(g: Gen)
    requires SitesInside(g, |g.code|)
    ensures PatchFixups(g, g.code, 0) == g.code
  {
  }

  /** One more record: its field is put in place. */
  lemma PatchStep(g: Gen, n: nat)
    requires Spread(g) && 0 < n <= g.fixups
    ensures var before, pos := PatchFixups(g, g.code, n - 1), g.table[n - 1].patchPos;
            PatchFixups(g, g.code, n) == before[..pos] + Field(g, n - 1) + before[pos + 4..]
  {
    hide Resolve, Bytes32, ToU32;
    PatchField(g, g.code, n - 1, n - 1);
    var before, pos := PatchFixups(g, g.code, n - 1), g.table[n - 1].patchPos;
    assert before == before[..pos] + before[pos..pos + 4] + before[pos + 4..];
  }

  lemma {:induction false} StringsSame(g: Gen, c: Gen, code: seq<byte>, section: nat, n: nat)
    requires SitesInside(g, |code|) && SitesInside(c, |code|) && c.strs == g.strs && n <= |g.strs|
    ensures PatchStrings(g, code, section, n) == PatchStrings(c, code, section, n)
    decreases n
  {
    hide Write32;
    if n > 0 { StringsSame(g, c, code, section, n - 1); }
  }

  lemma LinkedSame(g: Gen, c: Gen)
    requires Spread(g) && Spread(c) && c == g.(table := c.table) && Section(g) >= 0
    requires forall i :: 0 <= i < g.fixups ==> g.table[i].patchPos == c.table[i].patchPos && Field(g, i) == Field(c, i)
    ensures Linked(g) == Linked(c)
  {
    hide Spread, Field, PatchFixups, PatchStrings;
    SpreadInside(g);
    SpreadInside(c);
    PatchesSame(g, c, g.fixups);
    StringsSame(g, c, PatchFixups(g, g.code, g.fixups), Section(g), |g.strs|);
  }

  lemma SpreadInside(g: Gen)
    requires Spread(g)
    ensures SitesInside(g, |g.code|)
  {
  }

  // ----- when the marks do no harm -----

  /** The old mark of a test jump's record does no harm: there is none, or the name
      it goes with is that of no function and the jump skips nothing. */
  predicate Harmless(left: Fixup, j: Jump, p: Program) {
    j.Test? && left.isFuncCall ==> Find(p, left.funcName) == |p| && j.target == j.site + 4
  }

  lemma DistanceBytes(a: int, b: int)
    requires 0 <= a - b < TWO32 || 0 <= b - a < TWO32
    ensures Bytes32(ToU32(a)) == Bytes32(ToU32(b)) <==> a == b
  {
    Read32Bytes32(ToU32(a));
    Read32Bytes32(ToU32(b));
  }

  lemma LandsField(code: seq<byte>, j: Jump)
    requires j.Test? && Lands(code, j) && j.site >= 2 && j.site + 4 <= |code|
    ensures code[j.site..j.site + 4] == Bytes32(ToU32(j.target - (j.site + 4)))
  {
    hide Bytes32, ToU32;
    var d := Rel(j.target, j.site + 4);
    var bytes := Encode(Jcc(E, d));
    assert bytes == [0x0F, CCByte(E)] + Bytes32(ToU32(d));
    FieldCast(j.target - (j.site + 4));
    assert code[j.site - 2..j.site + 4] == bytes;
    assert code[j.site..j.site + 4] == bytes[2..6];
  }

  /** One record: the two images agree in its field exactly when its mark is harmless. */
  lemma FieldAgrees(g: Gen, c: Gen, t: seq<Fixup>, js: seq<Jump>, p: Program, i: nat)
    requires Alike(g, c, t, js) && Spread(g) && Spread(c) && Section(c) >= 0 && i < g.fixups && |c.code| <= CODE_BUF_SIZE
    requires js[i].Test? ==> Lands(Linked(c), js[i]) && 2 <= js[i].site && js[i].site + 4 <= js[i].target <= |c.code|
    requires var e := FindFunc(c.funcs, t[i].funcName);
             e <= CODE_BUF_SIZE && (e == -1 <==> Find(p, t[i].funcName) == |p|) && (js[i].Test? ==> e != js[i].target)
    ensures Field(g, i) == Field(c, i) <==> Harmless(t[i], js[i], p)
  {
    hide FindFunc, Linked, Bytes32, ToU32, Find, Lands, Spread, Alike, Field, Resolve;
    AlikeRoom(g, c, t, js);
    RecordsAlike(g, c, t, js, i);
    SpreadInside(g);
    SpreadInside(c);
    if js[i].Test? && t[i].isFuncCall {
      var Test(site, target) := js[i];
      LinkedField(c, i);
      LandsField(Linked(c), js[i]);
      StaleField(g, c, t, js, i);
      var e := FindFunc(c.funcs, t[i].funcName);
      DistanceBytes((if e == -1 then site + 4 else e) - (site + 4), target - (site + 4));
    } else {
      SameField(g, c, i);
    }
  }

  lemma RecordsAlike(g: Gen, c: Gen, t: seq<Fixup>, js: seq<Jump>, i: nat)
    requires Alike(g, c, t, js) && i < |js|
    ensures RecordAlike(g.table[i], c.table[i], t[i], js[i]) && c == g.(table := c.table)
  {
  }

  lemma SameField(g: Gen, c: Gen, i: nat)
    requires SitesInside(g, |g.code|) && SitesInside(c, |c.code|) && c == g.(table := c.table) && i < g.fixups && g.table[i] == c.table[i]
    ensures Field(g, i) == Field(c, i)
  {
    hide Bytes32, ToU32;
  }

  /** A test jump with an old mark goes to the function named, or nowhere. */
  lemma StaleField(g: Gen, c: Gen, t: seq<Fixup>, js: seq<Jump>, i: nat)
    requires Alike(g, c, t, js) && SitesInside(g, |g.code|) && i < g.fixups && js[i].Test? && t[i].isFuncCall
    ensures var e, next := FindFunc(c.funcs, t[i].funcName), js[i].site + 4;
            Field(g, i) == Bytes32(ToU32((if e == -1 then next else e) - next))
  {
    hide Bytes32, ToU32, FindFunc;
    RecordsAlike(g, c, t, js, i);
    if Resolve(g, i) == -1 {
      assert c.code[c.table[i].patchPos..c.table[i].patchPos + 4] == PLACEHOLDER;
      ZeroBytes();
    }
  }

  lemma ZeroBytes()
    ensures PLACEHOLDER == Bytes32(ToU32(0))
  {
  }

  /** Both images are the same exactly when every old mark is harmless. */
  lemma ImagesAgree(g: Gen, c: Gen, t: seq<Fixup>, js: seq<Jump>, p: Program)
    requires Alike(g, c, t, js) && Sound(c) && Section(c) >= 0
    requires forall i :: 0 <= i < |js| && js[i].Test? ==>
               Lands(Linked(c), js[i]) && 2 <= js[i].site && js[i].site + 4 <= js[i].target <= |c.code|
    requires forall i :: 0 <= i < |js| ==>
               var e := FindFunc(c.funcs, t[i].funcName);
               e <= CODE_BUF_SIZE && (e == -1 <==> Find(p, t[i].funcName) == |p|) && (js[i].Test? ==> e != js[i].target)
    ensures SitesInside(g, |g.code|) && Section(g) >= 0
    ensures Linked(g) == Linked(c) <==> forall i :: 0 <= i < |js| ==> Harmless(t[i], js[i], p)
  {
    hide Sound, Alike, FindFunc, Linked, Find, Lands, Harmless, Field, Spread, RecordAlike;
    SoundBound(c);
    SoundSpread(c);
    AlikeSpread(g, c, t, js);
    SpreadInside(g);
    SpreadInside(c);
    AlikeRoom(g, c, t, js);
    forall i | 0 <= i < |js|
      ensures Field(g, i) == Field(c, i) <==> Harmless(t[i], js[i], p)
      ensures g.table[i].patchPos == c.table[i].patchPos
    {
      FieldAgrees(g, c, t, js, p, i);
      SamePlace(g, c, t, js, i);
    }
    if Linked(g) == Linked(c) {
      forall i | 0 <= i < |js| ensures Harmless(t[i], js[i], p) {
        LinkedField(g, i);
        LinkedField(c, i);
      }
    }
    if forall i :: 0 <= i < |js| ==> Harmless(t[i], js[i], p) {
      forall i | 0 <= i < |js| ensures Field(g, i) == Field(c, i) {
        assert Harmless(t[i], js[i], p);
      }
      LinkedSame(g, c);
    }
  }

  lemma SamePlace(g: Gen, c: Gen, t: seq<Fixup>, js: seq<Jump>, i: nat)
    requires Alike(g, c, t, js) && i < |js|
    ensures g.table[i].patchPos == c.table[i].patchPos && c == g.(table := c.table)
  {
    assert RecordAlike(g.table[i], c.table[i], t[i], js[i]);
  }
}
