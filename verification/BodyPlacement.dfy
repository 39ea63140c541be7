/** Placement of conditions, statements, functions and whole programs. */
module BodyPlacement {
  import opened Words
  import opened Machine
  import opened Options
  import opened Ast
  import opened Layout
  import opened Codegen
  import opened Patching
  import opened Placement

  // ----- jumps -----

  /** In the final tables, `lbl` is at code offset `target`. */
  ghost predicate LabelAt(f: Gen, lbl: nat, target: int) {
    Shaped(f) && lbl < MAX_LABELS && target >= 0 && f.labels[lbl] == target
  }

  lemma SiteBytes(n: nat)
    ensures Cost(n + 4, 0, 1, 0, 0) == Plus(Bytes(n), Cost(4, 0, 1, 0, 0))
  {
  }

  lemma ResolvesToLabel(f: Gen, i: nat, lbl: nat, target: int)
    requires LabelAt(f, lbl, target) && i < f.fixups
    requires !f.table[i].isFuncCall && f.table[i].labelId == lbl
    ensures Resolve(f, i) == target && target >= 0
  {
  }

  lemma JmpIsSite(g: Gen, lbl: nat)
    requires g.fixups < |g.table|
    ensures EmitJmp(g, lbl) == Site(g, [0xE9], g.table[g.fixups].(labelId := lbl, isFuncCall := false))
  {
  }

  lemma JmpGrows(g: Gen, lbl: nat)
    requires Sound(g) && Fits(g, Cost(5, 0, 1, 0, 0))
    ensures Grows(g, EmitJmp(g, lbl), Cost(5, 0, 1, 0, 0))
  {
    hide Grows, Sound, Site, EmitJmp;
    SoundShape(g);
    JmpIsSite(g, lbl);
    SiteGrows(g, [0xE9], g.table[g.fixups].(labelId := lbl, isFuncCall := false));
  }

  lemma JmpLinked(g: Gen, lbl: nat, target: int, f: Gen, en: Entries)
    requires Sound(g) && Fits(g, Cost(5, 0, 1, 0, 0)) && Extends(EmitJmp(g, lbl), f) && Final(f, en)
    requires LabelAt(f, lbl, target)
    ensures At(Linked(f), |g.code|, Jmp(Rel(target, |g.code| + 5)))
  {
    hide Sound, Site, EmitJmp, Extends, Bytes32, ToU32, Linked, At, Resolve, LabelAt;
    SoundShape(g);
    FinalSound(f, en);
    var x := g.table[g.fixups].(labelId := lbl, isFuncCall := false);
    JmpIsSite(g, lbl);
    SiteLinked(g, [0xE9], x, f);
    ResolvesToLabel(f, g.fixups, lbl, target);
    var v := target - (|g.code| + 5);
    FieldCast(v);
    FieldBytes(Linked(f), |g.code|, [0xE9], v, Jmp(Rel(target, |g.code| + 5)));
  }

  /** The conditional jump itself; a test jump inherits the record's flag. */
  function JccSite(g: Gen, cc: CC, lbl: nat, keepFlag: bool): Gen {
    var g1 := Emit(g, [0x0F, CCByte(cc)]);
    Emit(if keepFlag then TestFixup(g1, lbl) else JumpFixup(g1, lbl), PLACEHOLDER)
  }

  lemma JccIsSite(g: Gen, cc: CC, lbl: nat, keepFlag: bool)
    requires g.fixups < |g.table| && !g.table[g.fixups].isFuncCall
    ensures JccSite(g, cc, lbl, keepFlag) == Site(g, [0x0F, CCByte(cc)], g.table[g.fixups].(labelId := lbl))
  {
    var x := g.table[g.fixups];
    assert x.(isFuncCall := false) == x;
  }

  lemma JccGrows(g: Gen, cc: CC, lbl: nat, keepFlag: bool)
    requires Sound(g) && Fits(g, Cost(6, 0, 1, 0, 0))
    ensures Grows(g, JccSite(g, cc, lbl, keepFlag), Cost(6, 0, 1, 0, 0))
  {
    hide Grows, Sound, Site, JccSite;
    SoundShape(g);
    JccIsSite(g, cc, lbl, keepFlag);
    SiteGrows(g, [0x0F, CCByte(cc)], g.table[g.fixups].(labelId := lbl));
  }

  lemma JccLinked(g: Gen, cc: CC, lbl: nat, keepFlag: bool, target: int, f: Gen, en: Entries)
    requires Sound(g) && Fits(g, Cost(6, 0, 1, 0, 0)) && Extends(JccSite(g, cc, lbl, keepFlag), f) && Final(f, en)
    requires LabelAt(f, lbl, target)
    ensures At(Linked(f), |g.code|, Jcc(cc, Rel(target, |g.code| + 6)))
  {
    hide Sound, Site, JccSite, Extends, Bytes32, ToU32, Linked, At, Resolve, LabelAt, CCByte;
    SoundShape(g);
    FinalSound(f, en);
    var x, op := g.table[g.fixups].(labelId := lbl), [0x0F, CCByte(cc)];
    JccIsSite(g, cc, lbl, keepFlag);
    SiteLinked(g, op, x, f);
    ResolvesToLabel(f, g.fixups, lbl, target);
    var v := target - (|g.code| + 6);
    FieldCast(v);
    FieldBytes(Linked(f), |g.code|, op, v, Jcc(cc, Rel(target, |g.code| + 6)));
  }

  lemma CompareSizes()
    ensures |Encode(PopRbx)| == 1 && |Encode(PopRax)| == 1 && |Encode(CmpRaxRbx)| == 3 && |Encode(TestRax)| == 3
  {
  }

  lemma CondJumpGrows(g: Gen, cc: CC, lbl: nat)
    requires Sound(g) && Fits(g, Cost(11, 0, 1, 0, 0))
    ensures Grows(g, EmitCondJump(g, cc, lbl), Cost(11, 0, 1, 0, 0))
  {
    hide Grows, Sound, EmitI, Encode, Shaped, JumpFixup, CCByte;
    CompareSizes();
    var g1 := EmitI(EmitI(g, PopRbx), PopRax);
    var g2 := EmitI(g1, CmpRaxRbx);
    TwoGrows(g, PopRbx, PopRax);
    GrowsFacts(g, g1, Bytes(2));
    OneGrows(g1, CmpRaxRbx);
    GrowsFacts(g1, g2, Bytes(3));
    JccGrows(g2, cc, lbl, false);
    GrowsTrans(g, g1, g2, Bytes(2), Bytes(3));
    GrowsTrans(g, g2, EmitCondJump(g, cc, lbl), Bytes(5), Cost(6, 0, 1, 0, 0));
  }

  lemma CondJumpLinked(g: Gen, cc: CC, lbl: nat, target: int, f: Gen, en: Entries)
    requires Sound(g) && Fits(g, Cost(11, 0, 1, 0, 0)) && Extends(EmitCondJump(g, cc, lbl), f) && Final(f, en)
    requires LabelAt(f, lbl, target)
    ensures var b, code := |g.code|, Linked(f);
            && At(code, b, PopRbx) && At(code, b + 1, PopRax) && At(code, b + 2, CmpRaxRbx)
            && At(code, b + 5, Jcc(cc, Rel(target, b + 11)))
  {
    hide Grows, Sound, EmitI, Encode, Shaped, JumpFixup, CCByte, Linked, Final, Extends, At, LabelAt;
    CompareSizes();
    FinalSound(f, en);
    var g1 := EmitI(EmitI(g, PopRbx), PopRax);
    var g2 := EmitI(g1, CmpRaxRbx);
    TwoGrows(g, PopRbx, PopRax);
    GrowsFacts(g, g1, Bytes(2));
    OneGrows(g1, CmpRaxRbx);
    GrowsFacts(g1, g2, Bytes(3));
    JccGrows(g2, cc, lbl, false);
    Before(g2, EmitCondJump(g, cc, lbl), Cost(6, 0, 1, 0, 0), f);
    Before(g1, g2, Bytes(3), f);
    TwoLinked(g, PopRbx, PopRax, f, en);
    OneLinked(g1, CmpRaxRbx, f, en);
    JccLinked(g2, cc, lbl, false, target, f, en);
  }

  lemma TestJumpGrows(g: Gen, cc: CC, lbl: nat)
    requires Sound(g) && Fits(g, Cost(10, 0, 1, 0, 0))
    ensures Grows(g, EmitTestJump(g, cc, lbl), Cost(10, 0, 1, 0, 0))
  {
    hide Grows, Sound, EmitI, Encode, Shaped, TestFixup, CCByte;
    CompareSizes();
    var g1 := EmitI(EmitI(g, PopRax), TestRax);
    TwoGrows(g, PopRax, TestRax);
    GrowsFacts(g, g1, Bytes(4));
    JccGrows(g1, cc, lbl, true);
    GrowsTrans(g, g1, EmitTestJump(g, cc, lbl), Bytes(4), Cost(6, 0, 1, 0, 0));
  }

  lemma TestJumpLinked(g: Gen, cc: CC, lbl: nat, target: int, f: Gen, en: Entries)
    requires Sound(g) && Fits(g, Cost(10, 0, 1, 0, 0)) && Extends(EmitTestJump(g, cc, lbl), f) && Final(f, en)
    requires LabelAt(f, lbl, target)
    ensures var b, code := |g.code|, Linked(f);
            At(code, b, PopRax) && At(code, b + 1, TestRax) && At(code, b + 4, Jcc(cc, Rel(target, b + 10)))
  {
    hide Grows, Sound, EmitI, Encode, Shaped, TestFixup, CCByte, Linked, Final, Extends, At, LabelAt;
    CompareSizes();
    FinalSound(f, en);
    var g1 := EmitI(EmitI(g, PopRax), TestRax);
    TwoGrows(g, PopRax, TestRax);
    GrowsFacts(g, g1, Bytes(4));
    JccGrows(g1, cc, lbl, true);
    Before(g1, EmitTestJump(g, cc, lbl), Cost(6, 0, 1, 0, 0), f);
    TwoLinked(g, PopRax, TestRax, f, en);
    JccLinked(g1, cc, lbl, true, target, f, en);
  }

  lemma CondGrows(g: Gen, c: Expr, lbl: nat, onTrue: bool, n: nat)
    requires Sound(g) && GoodExpr(c, n) && Fits(g, CondCost(g.funcs, c))
    ensures Grows(g, GenCond(g, c, lbl, onTrue), CondCost(g.funcs, c)) && CondCost(g.funcs, c).code == CondSize(c)
  {
    hide Grows, Sound, GenExpr, ExprSize, ExprCost, EmitCondJump, EmitTestJump, JumpCC;
    if c.Bin? {
      var g1 := GenExpr(g, c.left);
      var g2 := GenExpr(g1, c.right);
      ExprGrows(g, c.left, n);
      GrowsFacts(g, g1, ExprCost(g.funcs, c.left));
      ExprGrows(g1, c.right, n);
      GrowsFacts(g1, g2, ExprCost(g.funcs, c.right));
      CondJumpGrows(g2, JumpCC(c.op, onTrue), lbl);
      GrowsTrans(g, g1, g2, ExprCost(g.funcs, c.left), ExprCost(g.funcs, c.right));
      GrowsTrans(g, g2, GenCond(g, c, lbl, onTrue), Plus(ExprCost(g.funcs, c.left), ExprCost(g.funcs, c.right)), Cost(11, 0, 1, 0, 0));
    } else {
      var g1 := GenExpr(g, c);
      ExprGrows(g, c, n);
      GrowsFacts(g, g1, ExprCost(g.funcs, c));
      TestJumpGrows(g1, if onTrue then NE else E, lbl);
      GrowsTrans(g, g1, GenCond(g, c, lbl, onTrue), ExprCost(g.funcs, c), Cost(10, 0, 1, 0, 0));
    }
  }

  lemma CondPlaced(g: Gen, c: Expr, lbl: nat, onTrue: bool, target: int, n: nat, f: Gen, en: Entries)
    requires Sound(g) && GoodExpr(c, n) && Fits(g, CondCost(g.funcs, c))
    requires Extends(GenCond(g, c, lbl, onTrue), f) && Final(f, en) && LabelAt(f, lbl, target)
    ensures CondAt(Linked(f), en, c, |g.code|, target, onTrue)
  {
    hide Grows, Sound, GenExpr, ExprSize, ExprCost, EmitCondJump, EmitTestJump, JumpCC, Linked, Final, Extends, At, ExprAt, LabelAt;
    FinalSound(f, en);
    if c.Bin? {
      var g1 := GenExpr(g, c.left);
      var g2 := GenExpr(g1, c.right);
      ExprGrows(g, c.left, n);
      GrowsFacts(g, g1, ExprCost(g.funcs, c.left));
      ExprGrows(g1, c.right, n);
      GrowsFacts(g1, g2, ExprCost(g.funcs, c.right));
      CondJumpGrows(g2, JumpCC(c.op, onTrue), lbl);
      Before(g2, GenCond(g, c, lbl, onTrue), Cost(11, 0, 1, 0, 0), f);
      Before(g1, g2, ExprCost(g.funcs, c.right), f);
      ExprPlaced(g, c.left, n, f, en);
      ExprPlaced(g1, c.right, n, f, en);
      CondJumpLinked(g2, JumpCC(c.op, onTrue), lbl, target, f, en);
    } else {
      var g1 := GenExpr(g, c);
      ExprGrows(g, c, n);
      GrowsFacts(g, g1, ExprCost(g.funcs, c));
      TestJumpGrows(g1, if onTrue then NE else E, lbl);
      Before(g1, GenCond(g, c, lbl, onTrue), Cost(10, 0, 1, 0, 0), f);
      ExprPlaced(g, c, n, f, en);
      TestJumpLinked(g1, if onTrue then NE else E, lbl, target, f, en);
    }
  }

  // ----- labels of one construct -----

  /** Two fresh labels, both unmarked. */
  lemma AllocTwo(g: Gen)
    requires Sound(g) && g.nextLabel + 2 <= MAX_LABELS
    ensures var g1 := AllocLabel(AllocLabel(g));
            && Grows(g, g1, Cost(0, 2, 0, 0, 0))
            && |g1.labels| == MAX_LABELS && g1.labels[g.nextLabel] == -1 && g1.labels[g.nextLabel + 1] == -1
  {
    AllocGrows(g);
    AllocGrows(AllocLabel(g));
    hide Extends, Sound;
    GrowsTrans(g, AllocLabel(g), AllocLabel(AllocLabel(g)), Cost(0, 1, 0, 0, 0), Cost(0, 1, 0, 0, 0));
  }

  /** A label of `g` that was unmarked is still unmarked after growth. */
  lemma StillUnmarked(g: Gen, f: Gen, c: Cost, id: nat)
    requires Grows(g, f, c) && id < g.nextLabel && id < MAX_LABELS && |g.labels| == MAX_LABELS && g.labels[id] == -1
    ensures |f.labels| == MAX_LABELS && f.labels[id] == -1
  {
  }

  /** Marking one of the construct's own labels. */
  lemma MarkOwn(g: Gen, f: Gen, c: Cost, id: nat)
    requires Grows(g, f, c) && g.nextLabel <= id < f.nextLabel && id < MAX_LABELS
    requires |f.labels| == MAX_LABELS && f.labels[id] == -1
    ensures Grows(g, MarkLabel(f, id), c) && Extends(f, MarkLabel(f, id)) && Sound(MarkLabel(f, id))
    ensures MarkLabel(f, id) == f.(labels := f.labels[id := |f.code|])
  {
    MarkExtends(f, id);
    ExtendsTrans(g, f, MarkLabel(f, id));
  }

  /** Final tables know a label marked earlier. */
  lemma MarkedFinally(g: Gen, f: Gen, id: nat)
    requires Extends(g, f) && id < g.nextLabel && id < MAX_LABELS && |g.labels| == MAX_LABELS && g.labels[id] >= 0
    ensures LabelAt(f, id, g.labels[id])
  {
  }

  // ----- statements -----

  lemma StoreGrows(g: Gen, off: int)
    requires Sound(g) && Fits(g, Bytes(1 + SlotSize(off)))
    ensures Grows(g, EmitStore(g, off), Bytes(1 + SlotSize(off)))
  {
    hide Grows, Sound, EmitI;
    TwoGrows(g, PopRax, StoreInstr(off));
  }

  lemma StorePlaced(g: Gen, off: int, f: Gen, en: Entries)
    requires Sound(g) && Fits(g, Bytes(1 + SlotSize(off))) && Extends(EmitStore(g, off), f) && Final(f, en)
    ensures StoreAt(Linked(f), off, |g.code|)
  {
    hide Sound, EmitI, Extends, Linked, Final, At;
    FinalSound(f, en);
    TwoLinked(g, PopRax, StoreInstr(off), f, en);
  }

  /** A computed value goes to a variable. */
  lemma AssignGrows(g: Gen, rhs: Expr, off: int, n: nat)
    requires Sound(g) && GoodExpr(rhs, n) && Fits(g, Plus(ExprCost(g.funcs, rhs), Bytes(1 + SlotSize(off))))
    ensures Grows(g, EmitStore(GenExpr(g, rhs), off), Plus(ExprCost(g.funcs, rhs), Bytes(1 + SlotSize(off))))
    ensures ExprCost(g.funcs, rhs).code == ExprSize(rhs)
  {
    hide Grows, Sound, GenExpr, ExprSize, ExprCost, EmitStore, GoodExpr;
    var g1 := GenExpr(g, rhs);
    ExprGrows(g, rhs, n);
    GrowsFacts(g, g1, ExprCost(g.funcs, rhs));
    StoreGrows(g1, off);
    GrowsTrans(g, g1, EmitStore(g1, off), ExprCost(g.funcs, rhs), Bytes(1 + SlotSize(off)));
  }

  lemma AssignPlaced(g: Gen, rhs: Expr, off: int, n: nat, f: Gen, en: Entries)
    requires Sound(g) && GoodExpr(rhs, n) && Fits(g, Plus(ExprCost(g.funcs, rhs), Bytes(1 + SlotSize(off))))
    requires Extends(EmitStore(GenExpr(g, rhs), off), f) && Final(f, en)
    ensures ExprAt(Linked(f), en, rhs, |g.code|) && StoreAt(Linked(f), off, |g.code| + ExprSize(rhs))
  {
    hide Grows, Sound, GenExpr, ExprSize, ExprCost, EmitStore, GoodExpr, Extends, Linked, Final, ExprAt, StoreAt;
    FinalSound(f, en);
    var g1 := GenExpr(g, rhs);
    ExprGrows(g, rhs, n);
    GrowsFacts(g, g1, ExprCost(g.funcs, rhs));
    StoreGrows(g1, off);
    Before(g1, EmitStore(g1, off), Bytes(1 + SlotSize(off)), f);
    ExprPlaced(g, rhs, n, f, en);
    StorePlaced(g1, off, f, en);
  }

  lemma EpilogueSizes()
    ensures |Encode(Leave)| == 1 && |Encode(Ret)| == 1 && |Encode(XorEax)| == 2 && |Encode(PopRax)| == 1
  {
  }

  /** One instruction and the epilogue. */
  lemma LeaveGrows(g: Gen, i: Instr)
    requires Sound(g) && Fits(g, Bytes(|Encode(i)| + 2))
    ensures Grows(g, EmitEpilogue(EmitI(g, i)), Bytes(|Encode(i)| + 2))
  {
    hide Grows, Sound, EmitI, Encode;
    EpilogueSizes();
    var g1 := EmitI(g, i);
    OneGrows(g, i);
    GrowsFacts(g, g1, Bytes(|Encode(i)|));
    TwoGrows(g1, Leave, Ret);
    GrowsTrans(g, g1, EmitEpilogue(g1), Bytes(|Encode(i)|), Bytes(2));
  }

  lemma LeavePlaced(g: Gen, i: Instr, f: Gen, en: Entries)
    requires Sound(g) && Fits(g, Bytes(|Encode(i)| + 2))
    requires Extends(EmitEpilogue(EmitI(g, i)), f) && Final(f, en)
    ensures var b, code := |g.code| + |Encode(i)|, Linked(f);
            At(code, |g.code|, i) && At(code, b, Leave) && At(code, b + 1, Ret)
  {
    hide Grows, Sound, EmitI, Encode, Extends, Linked, Final, At;
    EpilogueSizes();
    FinalSound(f, en);
    var g1 := EmitI(g, i);
    OneGrows(g, i);
    GrowsFacts(g, g1, Bytes(|Encode(i)|));
    TwoGrows(g1, Leave, Ret);
    Before(g1, EmitEpilogue(g1), Bytes(2), f);
    OneLinked(g, i, f, en);
    TwoLinked(g1, Leave, Ret, f, en);
  }

  lemma ReturnGrows(g: Gen, e: Expr, n: nat)
    requires Sound(g) && GoodExpr(e, n) && Fits(g, Plus(ExprCost(g.funcs, e), Bytes(3)))
    ensures Grows(g, EmitEpilogue(EmitI(GenExpr(g, e), PopRax)), Plus(ExprCost(g.funcs, e), Bytes(3)))
    ensures ExprCost(g.funcs, e).code == ExprSize(e)
  {
    hide Grows, Sound, GenExpr, ExprSize, ExprCost, EmitEpilogue, EmitI, GoodExpr, Encode;
    EpilogueSizes();
    var g1 := GenExpr(g, e);
    ExprGrows(g, e, n);
    GrowsFacts(g, g1, ExprCost(g.funcs, e));
    LeaveGrows(g1, PopRax);
    GrowsTrans(g, g1, EmitEpilogue(EmitI(g1, PopRax)), ExprCost(g.funcs, e), Bytes(3));
  }

  lemma ReturnPlaced(g: Gen, e: Expr, n: nat, f: Gen, en: Entries)
    requires Sound(g) && GoodExpr(e, n) && Fits(g, Plus(ExprCost(g.funcs, e), Bytes(3)))
    requires Extends(EmitEpilogue(EmitI(GenExpr(g, e), PopRax)), f) && Final(f, en)
    ensures var b, code := |g.code| + ExprSize(e), Linked(f);
            ExprAt(code, en, e, |g.code|) && At(code, b, PopRax) && At(code, b + 1, Leave) && At(code, b + 2, Ret)
  {
    hide Grows, Sound, GenExpr, ExprSize, ExprCost, EmitEpilogue, EmitI, GoodExpr, Extends, Linked, Final, ExprAt, At, Encode;
    EpilogueSizes();
    FinalSound(f, en);
    var g1 := GenExpr(g, e);
    ExprGrows(g, e, n);
    GrowsFacts(g, g1, ExprCost(g.funcs, e));
    LeaveGrows(g1, PopRax);
    Before(g1, EmitEpilogue(EmitI(g1, PopRax)), Bytes(3), f);
    ExprPlaced(g, e, n, f, en);
    LeavePlaced(g1, PopRax, f, en);
  }

  // ----- if and while -----

  /** Tables after the condition and the guarded statement. */
  function Guarded(g: Gen, c: Expr, lbl: nat, t: Stmt): Gen {
    GenStmt(GenCond(g, c, lbl, false), t)
  }

  function GuardedCost(funcs: seq<FuncSym>, c: Expr, t: Stmt): Cost {
    Plus(CondCost(funcs, c), StmtCost(funcs, t))
  }

  /** The else branch: jump over it, mark its label, generate it. */
  function ElseBranch(g: Gen, lblElse: nat, lblExit: nat, f: Stmt): Gen {
    GenStmt(MarkLabel(EmitJmp(g, lblExit), lblElse), f)
  }

  lemma {:induction false} GuardedGrows(g: Gen, c: Expr, lbl: nat, t: Stmt, n: nat)
    requires Sound(g) && GoodExpr(c, n) && GoodStmt(t, n) && Fits(g, GuardedCost(g.funcs, c, t))
    ensures Grows(g, Guarded(g, c, lbl, t), GuardedCost(g.funcs, c, t))
    ensures GuardedCost(g.funcs, c, t).code == CondSize(c) + StmtSize(t)
    decreases t, 4
  {
    hide Grows, Sound, GenCond, CondCost, CondSize, GenStmt, StmtCost, StmtSize, GoodExpr, GoodStmt;
    var g1 := GenCond(g, c, lbl, false);
    CondGrows(g, c, lbl, false, n);
    GrowsFacts(g, g1, CondCost(g.funcs, c));
    StmtGrows(g1, t, n);
    GrowsTrans(g, g1, GenStmt(g1, t), CondCost(g.funcs, c), StmtCost(g.funcs, t));
  }

  lemma {:induction false} GuardedPlaced(g: Gen, c: Expr, lbl: nat, t: Stmt, target: int, n: nat, f: Gen, en: Entries)
    requires Sound(g) && GoodExpr(c, n) && GoodStmt(t, n) && Fits(g, GuardedCost(g.funcs, c, t))
    requires Extends(Guarded(g, c, lbl, t), f) && Final(f, en) && LabelAt(f, lbl, target)
    ensures CondAt(Linked(f), en, c, |g.code|, target, false)
    ensures StmtAt(Linked(f), en, t, |g.code| + CondSize(c))
    decreases t, 4
  {
    hide Grows, Sound, GenCond, CondCost, CondSize, GenStmt, StmtCost, StmtSize, GoodExpr, GoodStmt, Extends, Linked, Final, CondAt, StmtAt, LabelAt;
    FinalSound(f, en);
    var g1 := GenCond(g, c, lbl, false);
    CondGrows(g, c, lbl, false, n);
    GrowsFacts(g, g1, CondCost(g.funcs, c));
    StmtGrows(g1, t, n);
    Before(g1, GenStmt(g1, t), StmtCost(g.funcs, t), f);
    CondPlaced(g, c, lbl, false, target, n, f, en);
    StmtPlaced(g1, t, n, f, en);
  }

  /** Intermediate tables of an if without else. */
  lemma {:induction false} IfParts(g: Gen, s: Stmt, n: nat) returns (g1: Gen, g2: Gen)
    requires s.If? && s.els.None? && Sound(g) && GoodStmt(s, n) && Fits(g, StmtCost(g.funcs, s))
    ensures g1 == AllocLabel(AllocLabel(g)) && Grows(g, g1, Cost(0, 2, 0, 0, 0))
    ensures g2 == Guarded(g1, s.cond, g.nextLabel + 1, s.thn) && Grows(g1, g2, GuardedCost(g.funcs, s.cond, s.thn))
    ensures GuardedCost(g.funcs, s.cond, s.thn).code == CondSize(s.cond) + StmtSize(s.thn)
    ensures var r := MarkLabel(g2, g.nextLabel + 1);
            r == GenStmt(g, s) && Grows(g, r, StmtCost(g.funcs, s)) && Extends(g2, r) && |g2.labels| == MAX_LABELS
    decreases s, 0
  {
    hide Grows, Sound, AllocLabel, Guarded, CondSize, StmtSize, CondCost, Extends, GoodExpr;
    g1 := AllocLabel(AllocLabel(g));
    AllocTwo(g);
    GrowsFacts(g, g1, Cost(0, 2, 0, 0, 0));
    g2 := Guarded(g1, s.cond, g.nextLabel + 1, s.thn);
    GuardedGrows(g1, s.cond, g.nextLabel + 1, s.thn, n);
    var k := GuardedCost(g.funcs, s.cond, s.thn);
    GrowsFacts(g1, g2, k);
    GrowsTrans(g, g1, g2, Cost(0, 2, 0, 0, 0), k);
    StillUnmarked(g1, g2, k, g.nextLabel + 1);
    MarkOwn(g, g2, StmtCost(g.funcs, s), g.nextLabel + 1);
    GuardedIs(g1, s.cond, g.nextLabel + 1, s.thn);
  }

  lemma GuardedIs(g: Gen, c: Expr, lbl: nat, t: Stmt)
    ensures Guarded(g, c, lbl, t) == GenStmt(GenCond(g, c, lbl, false), t)
  {
  }

  lemma {:induction false} IfPlaced(g: Gen, s: Stmt, n: nat, f: Gen, en: Entries)
    requires s.If? && s.els.None? && Sound(g) && GoodStmt(s, n) && Fits(g, StmtCost(g.funcs, s))
    requires Extends(GenStmt(g, s), f) && Final(f, en)
    ensures StmtAt(Linked(f), en, s, |g.code|)
    decreases s, 1
  {
    hide Grows, Sound, AllocLabel, Guarded, CondSize, CondCost, Extends, Linked, Final, CondAt, GoodExpr, LabelAt, GenStmt;
    FinalSound(f, en);
    var g1, g2 := IfParts(g, s, n);
    var k, lblExit := GuardedCost(g.funcs, s.cond, s.thn), g.nextLabel + 1;
    GrowsFacts(g, g1, Cost(0, 2, 0, 0, 0));
    GrowsFacts(g1, g2, k);
    MarkedFinally(MarkLabel(g2, lblExit), f, lblExit);
    ExtendsTrans(g2, MarkLabel(g2, lblExit), f);
    GuardedPlaced(g1, s.cond, lblExit, s.thn, |g2.code|, n, f, en);
  }

  /** Tables of an if with else up to the mark of the else label. */
  lemma {:induction false} IfElseHead(g: Gen, s: Stmt, n: nat) returns (g1: Gen, g2: Gen, g3: Gen, g4: Gen)
    requires s.If? && s.els.Some? && Sound(g) && GoodStmt(s, n) && Fits(g, StmtCost(g.funcs, s))
    ensures g1 == AllocLabel(AllocLabel(g)) && Grows(g, g1, Cost(0, 2, 0, 0, 0))
    ensures g2 == Guarded(g1, s.cond, g.nextLabel, s.thn) && Grows(g1, g2, GuardedCost(g.funcs, s.cond, s.thn))
    ensures GuardedCost(g.funcs, s.cond, s.thn).code == CondSize(s.cond) + StmtSize(s.thn)
    ensures g3 == EmitJmp(g2, g.nextLabel + 1) && Grows(g2, g3, Cost(5, 0, 1, 0, 0))
    ensures g4 == MarkLabel(g3, g.nextLabel) && Extends(g3, g4) && |g3.labels| == MAX_LABELS
    ensures Grows(g, g4, Plus(Cost(0, 2, 0, 0, 0), Plus(GuardedCost(g.funcs, s.cond, s.thn), Cost(5, 0, 1, 0, 0))))
    ensures |g4.labels| == MAX_LABELS && g4.labels[g.nextLabel + 1] == -1
    decreases s, 0
  {
    hide Grows, Sound, AllocLabel, Guarded, CondSize, StmtSize, CondCost, Extends, GoodExpr, EmitJmp;
    var lblElse, lblExit := g.nextLabel, g.nextLabel + 1;
    var k0, k1, k2 := Cost(0, 2, 0, 0, 0), GuardedCost(g.funcs, s.cond, s.thn), Cost(5, 0, 1, 0, 0);
    g1 := AllocLabel(AllocLabel(g));
    AllocTwo(g);
    GrowsFacts(g, g1, k0);
    g2 := Guarded(g1, s.cond, lblElse, s.thn);
    GuardedGrows(g1, s.cond, lblElse, s.thn, n);
    GrowsFacts(g1, g2, k1);
    g3 := EmitJmp(g2, lblExit);
    JmpGrows(g2, lblExit);
    GrowsFacts(g2, g3, k2);
    GrowsTrans(g1, g2, g3, k1, k2);
    GrowsTrans(g, g1, g3, k0, Plus(k1, k2));
    StillUnmarked(g1, g3, Plus(k1, k2), lblElse);
    StillUnmarked(g1, g3, Plus(k1, k2), lblExit);
    g4 := MarkLabel(g3, lblElse);
    MarkOwn(g, g3, Plus(k0, Plus(k1, k2)), lblElse);
  }

  /** Intermediate tables of an if with else. */
  lemma {:induction false} IfElseParts(g: Gen, s: Stmt, n: nat) returns (g1: Gen, g2: Gen, g3: Gen, g4: Gen, g5: Gen)
    requires s.If? && s.els.Some? && Sound(g) && GoodStmt(s, n) && Fits(g, StmtCost(g.funcs, s))
    ensures g1 == AllocLabel(AllocLabel(g)) && Grows(g, g1, Cost(0, 2, 0, 0, 0))
    ensures g2 == Guarded(g1, s.cond, g.nextLabel, s.thn) && Grows(g1, g2, GuardedCost(g.funcs, s.cond, s.thn))
    ensures GuardedCost(g.funcs, s.cond, s.thn).code == CondSize(s.cond) + StmtSize(s.thn)
    ensures g3 == EmitJmp(g2, g.nextLabel + 1) && Grows(g2, g3, Cost(5, 0, 1, 0, 0))
    ensures g4 == MarkLabel(g3, g.nextLabel) && Extends(g3, g4) && Sound(g4) && |g3.labels| == MAX_LABELS
    ensures g5 == GenStmt(g4, s.els.value) && Grows(g4, g5, StmtCost(g.funcs, s.els.value))
    ensures StmtCost(g.funcs, s.els.value).code == StmtSize(s.els.value) && |g5.labels| == MAX_LABELS
    ensures var r := MarkLabel(g5, g.nextLabel + 1);
            r == GenStmt(g, s) && Grows(g, r, StmtCost(g.funcs, s)) && Extends(g5, r)
    ensures Fits(g1, GuardedCost(g.funcs, s.cond, s.thn)) && Fits(g2, Cost(5, 0, 1, 0, 0))
    ensures g4.funcs == g.funcs && Fits(g4, StmtCost(g.funcs, s.els.value))
    ensures g.nextLabel + 1 < MAX_LABELS
    decreases s, 1
  {
    hide Grows, Sound, AllocLabel, Guarded, CondSize, StmtSize, CondCost, Extends, GoodExpr, EmitJmp, GuardedCost;
    var lblExit, els := g.nextLabel + 1, s.els.value;
    g1, g2, g3, g4 := IfElseHead(g, s, n);
    var k, k3 := Plus(Cost(0, 2, 0, 0, 0), Plus(GuardedCost(g.funcs, s.cond, s.thn), Cost(5, 0, 1, 0, 0))), StmtCost(g.funcs, els);
    IfElseCost(g.funcs, s);
    GrowsFacts(g, g1, Cost(0, 2, 0, 0, 0));
    GrowsFacts(g1, g2, GuardedCost(g.funcs, s.cond, s.thn));
    GrowsFacts(g2, g3, Cost(5, 0, 1, 0, 0));
    GrowsFacts(g, g4, k);
    g5 := GenStmt(g4, els);
    StmtGrows(g4, els, n);
    GrowsTrans(g, g4, g5, k, k3);
    StillUnmarked(g4, g5, k3, lblExit);
    GrowsFacts(g4, g5, k3);
    MarkOwn(g, g5, StmtCost(g.funcs, s), lblExit);
    GuardedIs(g1, s.cond, g.nextLabel, s.thn);
  }

  lemma {:induction false} IfElseCost(funcs: seq<FuncSym>, s: Stmt)
    requires s.If? && s.els.Some?
    ensures StmtCost(funcs, s)
         == Plus(Plus(Cost(0, 2, 0, 0, 0), Plus(GuardedCost(funcs, s.cond, s.thn), Cost(5, 0, 1, 0, 0))), StmtCost(funcs, s.els.value))
  {
    hide CondCost, Plus;
    var a, b, c, d := Cost(0, 2, 0, 0, 0), GuardedCost(funcs, s.cond, s.thn), Cost(5, 0, 1, 0, 0), StmtCost(funcs, s.els.value);
    PlusFacts(b, c, d, 0, 0);
    PlusFacts(a, Plus(b, c), d, 0, 0);
  }

  lemma {:induction false} IfElsePlaced(g: Gen, s: Stmt, n: nat, f: Gen, en: Entries)
    requires s.If? && s.els.Some? && Sound(g) && GoodStmt(s, n) && Fits(g, StmtCost(g.funcs, s))
    requires Extends(GenStmt(g, s), f) && Final(f, en)
    ensures StmtAt(Linked(f), en, s, |g.code|)
    decreases s, 2
  {
    hide Grows, Sound, AllocLabel, MarkLabel, Guarded, CondSize, CondCost, Extends, Linked, Final, CondAt, GoodExpr, LabelAt, GenStmt, At, EmitJmp,
         Fits, StmtCost, GuardedCost, Shaped, StmtSize;
    FinalSound(f, en);
    var g1, g2, g3, g4, g5 := IfElseParts(g, s, n);
    var lblElse, lblExit, els := g.nextLabel, g.nextLabel + 1, s.els.value;
    GrowsFacts(g, g1, Cost(0, 2, 0, 0, 0));
    GrowsFacts(g1, g2, GuardedCost(g.funcs, s.cond, s.thn));
    GrowsFacts(g2, g3, Cost(5, 0, 1, 0, 0));
    GrowsFacts(g4, g5, StmtCost(g.funcs, els));
    MarkCode(g3, lblElse);
    MarkFinally(g5, f, lblExit);
    ExtendsTrans(g5, MarkLabel(g5, lblExit), f);
    ExtendsTrans(g4, g5, f);
    MarkFinally(g3, f, lblElse);
    ExtendsTrans(g3, g4, f);
    ExtendsTrans(g2, g3, f);
    GuardedPlaced(g1, s.cond, lblElse, s.thn, |g3.code|, n, f, en);
    JmpLinked(g2, lblExit, |g5.code|, f, en);
    StmtPlaced(g4, els, n, f, en);
    IfElseSizes(s);
  }

  lemma IfElseSizes(s: Stmt)
    requires s.If? && s.els.Some?
    ensures StmtSize(s) == CondSize(s.cond) + StmtSize(s.thn) + 5 + StmtSize(s.els.value)
  {
  }

  lemma MarkCode(g: Gen, id: nat)
    ensures MarkLabel(g, id).code == g.code && MarkLabel(g, id).nextLabel == g.nextLabel
  {
  }

  lemma MarkFinally(g: Gen, f: Gen, id: nat)
    requires Extends(MarkLabel(g, id), f) && id < g.nextLabel && id < MAX_LABELS && |g.labels| == MAX_LABELS
    ensures LabelAt(f, id, |g.code|)
  {
    MarkedFinally(MarkLabel(g, id), f, id);
  }

  /** Intermediate tables of a loop. */
  lemma {:induction false} WhileParts(g: Gen, s: Stmt, n: nat) returns (g1: Gen, g2: Gen, g3: Gen, g4: Gen)
    requires s.While? && Sound(g) && GoodStmt(s, n) && Fits(g, StmtCost(g.funcs, s))
    ensures g1 == AllocLabel(AllocLabel(g)) && |g1.labels| == MAX_LABELS && |g1.code| == |g.code|
    ensures g2 == MarkLabel(g1, g.nextLabel) && Sound(g2) && g2.nextLabel == g.nextLabel + 2 && g2.funcs == g.funcs
    ensures Fits(g2, GuardedCost(g.funcs, s.cond, s.body))
    ensures g3 == Guarded(g2, s.cond, g.nextLabel + 1, s.body) && Grows(g2, g3, GuardedCost(g.funcs, s.cond, s.body))
    ensures GuardedCost(g.funcs, s.cond, s.body).code == CondSize(s.cond) + StmtSize(s.body)
    ensures Fits(g3, Cost(5, 0, 1, 0, 0)) && g4 == EmitJmp(g3, g.nextLabel) && Grows(g3, g4, Cost(5, 0, 1, 0, 0)) && |g4.labels| == MAX_LABELS
    ensures var r := MarkLabel(g4, g.nextLabel + 1);
            r == GenStmt(g, s) && Grows(g, r, StmtCost(g.funcs, s)) && Extends(g4, r)
    decreases s, 0
  {
    hide Grows, Sound, AllocLabel, Guarded, CondSize, StmtSize, CondCost, Extends, GoodExpr, EmitJmp;
    var lblStart, lblExit := g.nextLabel, g.nextLabel + 1;
    var k0, k1, k2 := Cost(0, 2, 0, 0, 0), GuardedCost(g.funcs, s.cond, s.body), Cost(5, 0, 1, 0, 0);
    g1 := AllocLabel(AllocLabel(g));
    AllocTwo(g);
    GrowsFacts(g, g1, k0);
    g2 := MarkLabel(g1, lblStart);
    MarkOwn(g, g1, k0, lblStart);
    GrowsFacts(g, g2, k0);
    g3 := Guarded(g2, s.cond, lblExit, s.body);
    GuardedIs(g2, s.cond, lblExit, s.body);
    GuardedGrows(g2, s.cond, lblExit, s.body, n);
    GrowsFacts(g2, g3, k1);
    g4 := EmitJmp(g3, lblStart);
    JmpGrows(g3, lblStart);
    GrowsFacts(g3, g4, k2);
    GrowsTrans(g2, g3, g4, k1, k2);
    StillUnmarked(g2, g4, Plus(k1, k2), lblExit);
    GrowsTrans(g, g2, g4, k0, Plus(k1, k2));
    assert Plus(k0, Plus(k1, k2)) == StmtCost(g.funcs, s);
    MarkOwn(g, g4, StmtCost(g.funcs, s), lblExit);
  }

  lemma {:induction false} WhilePlaced(g: Gen, s: Stmt, n: nat, f: Gen, en: Entries)
    requires s.While? && Sound(g) && GoodStmt(s, n) && Fits(g, StmtCost(g.funcs, s))
    requires Extends(GenStmt(g, s), f) && Final(f, en)
    ensures StmtAt(Linked(f), en, s, |g.code|)
    decreases s, 1
  {
    hide Grows, Sound, AllocLabel, Guarded, CondSize, CondCost, Extends, Linked, Final, CondAt, GoodExpr, LabelAt, GenStmt, At, EmitJmp;
    FinalSound(f, en);
    var g1, g2, g3, g4 := WhileParts(g, s, n);
    var lblStart, lblExit := g.nextLabel, g.nextLabel + 1;
    GrowsFacts(g2, g3, GuardedCost(g.funcs, s.cond, s.body));
    GrowsFacts(g3, g4, Cost(5, 0, 1, 0, 0));
    MarkedFinally(MarkLabel(g4, lblExit), f, lblExit);
    ExtendsTrans(g4, MarkLabel(g4, lblExit), f);
    ExtendsTrans(g3, g4, f);
    ExtendsTrans(g2, g3, f);
    MarkedFinally(g2, f, lblStart);
    GuardedPlaced(g2, s.cond, lblExit, s.body, |g4.code|, n, f, en);
    JmpLinked(g3, lblStart, |g.code|, f, en);
  }

  lemma {:induction false} StmtGrows(g: Gen, s: Stmt, n: nat)
    requires Sound(g) && GoodStmt(s, n) && Fits(g, StmtCost(g.funcs, s))
    ensures Grows(g, GenStmt(g, s), StmtCost(g.funcs, s)) && StmtCost(g.funcs, s).code == StmtSize(s)
    decreases s, 3
  {
    hide Grows, Sound, GenExpr, ExprCost, ExprSize, GoodExpr, EmitI, Encode, CondCost, CondSize, EmitStore, EmitEpilogue, MarkLabel, AllocLabel, Extends;
    match s
    case ExprStmt(e) => ExprGrows(g, e, n);
    case Decl(off, _) => VarGrows(g, off);
    case Assign(nodeOff, off, rhs) => AssignGrows(g, rhs, Target(nodeOff, off), n);
    case If(_, _, None) => var _, _ := IfParts(g, s, n);
    case If(_, _, Some(_)) => var _, _, _, _, _ := IfElseParts(g, s, n);
    case While(_, _) => var _, _, _, _ := WhileParts(g, s, n);
    case Block(items) => ItemsGrow(g, items, n);
    case Return(None) => EpilogueSizes(); LeaveGrows(g, XorEax);
    case Return(Some(e)) => ReturnGrows(g, e, n);
  }

  lemma VarGrows(g: Gen, off: int)
    requires Sound(g) && Fits(g, Bytes(SlotSize(off) + 1))
    ensures Grows(g, EmitLoad(g, off), Bytes(SlotSize(off) + 1))
  {
    hide Grows, Sound, EmitI;
    TwoGrows(g, LoadInstr(off), PushRax);
  }

  lemma {:induction false} StmtPlaced(g: Gen, s: Stmt, n: nat, f: Gen, en: Entries)
    requires Sound(g) && GoodStmt(s, n) && Fits(g, StmtCost(g.funcs, s))
    requires Extends(GenStmt(g, s), f) && Final(f, en)
    ensures StmtAt(Linked(f), en, s, |g.code|)
    decreases s, 3
  {
    hide Grows, Sound, GenExpr, ExprCost, ExprSize, GoodExpr, EmitI, Encode, CondCost, CondSize, EmitStore, EmitEpilogue,
         MarkLabel, AllocLabel, Extends, Linked, Final, At, ExprAt, CondAt, StoreAt;
    FinalSound(f, en);
    match s
    case ExprStmt(e) => ExprPlaced(g, e, n, f, en);
    case Decl(off, _) => VarPlaced(g, off, f, en);
    case Assign(nodeOff, off, rhs) => AssignPlaced(g, rhs, Target(nodeOff, off), n, f, en);
    case If(_, _, None) => IfPlaced(g, s, n, f, en);
    case If(_, _, Some(_)) => IfElsePlaced(g, s, n, f, en);
    case While(_, _) => WhilePlaced(g, s, n, f, en);
    case Block(items) => ItemsPlaced(g, items, n, f, en);
    case Return(None) => EpilogueSizes(); LeavePlaced(g, XorEax, f, en);
    case Return(Some(e)) => ReturnPlaced(g, e, n, f, en);
  }

  lemma VarPlaced(g: Gen, off: int, f: Gen, en: Entries)
    requires Sound(g) && Fits(g, Bytes(SlotSize(off) + 1)) && Extends(EmitLoad(g, off), f) && Final(f, en)
    ensures ExprAt(Linked(f), en, Var(off), |g.code|)
  {
    hide Sound, EmitI, Extends, Linked, Final, At;
    FinalSound(f, en);
    TwoLinked(g, LoadInstr(off), PushRax, f, en);
  }

  lemma {:induction false} ItemGrows(g: Gen, s: Stmt, n: nat)
    requires Sound(g) && GoodStmt(s, n) && Fits(g, ItemCost(g.funcs, s))
    ensures Grows(g, GenItem(g, s), ItemCost(g.funcs, s)) && ItemCost(g.funcs, s).code == ItemSize(s)
    decreases s, 4
  {
    hide Grows, Sound, GenExpr, ExprCost, ExprSize, GoodExpr, EmitStore, GenStmt, StmtCost, StmtSize;
    match s
    case Decl(_, None) => GrowsSelf(g);
    case ExprStmt(Var(_)) => GrowsSelf(g);
    case Decl(off, Some(e)) => AssignGrows(g, e, off, n);
    case _ => StmtGrows(g, s, n);
  }

  lemma {:induction false} ItemPlaced(g: Gen, s: Stmt, n: nat, f: Gen, en: Entries)
    requires Sound(g) && GoodStmt(s, n) && Fits(g, ItemCost(g.funcs, s))
    requires Extends(GenItem(g, s), f) && Final(f, en)
    ensures ItemAt(Linked(f), en, s, |g.code|)
    decreases s, 4
  {
    hide Grows, Sound, GenExpr, ExprCost, ExprSize, GoodExpr, EmitStore, GenStmt, StmtCost, StmtSize, Extends, Linked, Final, ExprAt, StoreAt, StmtAt;
    FinalSound(f, en);
    match s
    case Decl(_, None) =>
    case ExprStmt(Var(_)) =>
    case Decl(off, Some(e)) => AssignPlaced(g, e, off, n, f, en);
    case _ => StmtPlaced(g, s, n, f, en);
  }

  lemma {:induction false} ItemsGrow(g: Gen, ss: Stmts, n: nat)
    requires Sound(g) && GoodStmts(ss, n) && Fits(g, ItemsCost(g.funcs, ss))
    ensures Grows(g, GenItems(g, ss), ItemsCost(g.funcs, ss)) && ItemsCost(g.funcs, ss).code == ItemsSize(ss)
    decreases ss, 5
  {
    hide Grows, Sound, GenItem, ItemCost, ItemSize, GoodStmt;
    if ss.SNil? {
      GrowsSelf(g);
    } else {
      var g1 := GenItem(g, ss.head);
      ItemGrows(g, ss.head, n);
      GrowsFacts(g, g1, ItemCost(g.funcs, ss.head));
      ItemsGrow(g1, ss.next, n);
      GrowsTrans(g, g1, GenItems(g, ss), ItemCost(g.funcs, ss.head), ItemsCost(g.funcs, ss.next));
    }
  }

  lemma {:induction false} ItemsPlaced(g: Gen, ss: Stmts, n: nat, f: Gen, en: Entries)
    requires Sound(g) && GoodStmts(ss, n) && Fits(g, ItemsCost(g.funcs, ss))
    requires Extends(GenItems(g, ss), f) && Final(f, en)
    ensures ItemsAt(Linked(f), en, ss, |g.code|)
    decreases ss, 5
  {
    hide Grows, Sound, GenItem, ItemCost, ItemSize, GoodStmt, Extends, Linked, Final, ItemAt;
    FinalSound(f, en);
    if ss.SCons? {
      var g1 := GenItem(g, ss.head);
      ItemGrows(g, ss.head, n);
      GrowsFacts(g, g1, ItemCost(g.funcs, ss.head));
      ItemsGrow(g1, ss.next, n);
      Before(g1, GenItems(g, ss), ItemsCost(g.funcs, ss.next), f);
      ItemPlaced(g, ss.head, n, f, en);
      ItemsPlaced(g1, ss.next, n, f, en);
    }
  }
}
