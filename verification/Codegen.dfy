/**
 The one-pass code generator as a function on its tables: the code buffer with
 placeholders, label positions, fixups, function symbols and the string pool.
 */
module Codegen {
  import opened Words
  import opened Machine
  import opened Options
  import opened Ast
  import opened Layout

  const CODE_BUF_SIZE := 65536
  const MAX_LABELS := 512
  const MAX_FIXUPS := 1024
  const MAX_FUNCS := 128
  const MAX_STR_POOL := 8192
  const MAX_STR_FIXUPS := 256
  const HEADER_SIZE := 64

  datatype Fixup = Fixup(labelId: nat, patchPos: nat, isFuncCall: bool, funcName: string)

  datatype FuncSym = FuncSym(name: string, offset: nat)

  datatype StrFixup = StrFixup(dispPos: nat, poolOffset: nat)

  /** `table` keeps all 1024 fixup records; only the first `fixups` are in use,
      the others hold what an earlier compilation left there. */
  datatype Gen = Gen(code: seq<byte>, labels: seq<int>, nextLabel: nat,
                     table: seq<Fixup>, fixups: nat, funcs: seq<FuncSym>,
                     pool: seq<byte>, strs: seq<StrFixup>)

  ghost predicate Shaped(g: Gen) {
    && |g.code| <= CODE_BUF_SIZE && |g.labels| == MAX_LABELS
    && |g.table| == MAX_FIXUPS && g.fixups <= MAX_FIXUPS
    && |g.funcs| <= MAX_FUNCS && |g.strs| <= MAX_STR_FIXUPS
  }

  // ----- emission -----

  /** Bytes that do not fit are dropped. */
  function Emit(g: Gen, bs: seq<byte>): Gen {
    var all := g.code + bs;
    g.(code := if |all| <= CODE_BUF_SIZE then all else all[..Max(|g.code|, CODE_BUF_SIZE)])
  }

  function EmitI(g: Gen, i: Instr): Gen {
    Emit(g, Encode(i))
  }

  const PLACEHOLDER: seq<byte> := [0, 0, 0, 0]

  function AllocLabel(g: Gen): Gen {
    var id := g.nextLabel;
    g.(nextLabel := id + 1,
       labels := if id < |g.labels| then g.labels[id := -1] else g.labels)
  }

  function MarkLabel(g: Gen, id: nat): Gen {
    g.(labels := if id < |g.labels| then g.labels[id := |g.code|] else g.labels)
  }

  /** The next record of the fixup table becomes `f`. */
  function PutFixup(g: Gen, f: Fixup): Gen
    requires g.fixups < |g.table|
  {
    g.(table := g.table[g.fixups := f], fixups := g.fixups + 1)
  }

  function JumpFixup(g: Gen, lbl: nat): Gen {
    if g.fixups >= |g.table| then g
    else PutFixup(g, g.table[g.fixups].(labelId := lbl, patchPos := |g.code|, isFuncCall := false))
  }

  /** The jump after a plain test leaves `isFuncCall` as it finds it. */
  function TestFixup(g: Gen, lbl: nat): Gen {
    if g.fixups >= |g.table| then g
    else PutFixup(g, g.table[g.fixups].(labelId := lbl, patchPos := |g.code|))
  }

  /** Names are kept to 63 characters. */
  function Trunc(name: string): string {
    if |name| <= 63 then name else name[..63]
  }

  function CallFixup(g: Gen, name: string): Gen {
    if g.fixups >= |g.table| then g
    else PutFixup(g, g.table[g.fixups].(isFuncCall := true, funcName := Trunc(name), patchPos := |g.code|))
  }

  function FindFunc(funcs: seq<FuncSym>, name: string): (offset: int)
    ensures offset >= -1
  {
    if funcs == [] then -1
    else if funcs[0].name == name then funcs[0].offset
    else FindFunc(funcs[1..], name)
  }

  function RegisterFunc(g: Gen, name: string): Gen {
    if |g.funcs| < MAX_FUNCS then g.(funcs := g.funcs + [FuncSym(Trunc(name), |g.code|)]) else g
  }

  /** How many of `n` characters still go into a pool of that length. */
  function PoolRoom(pool: nat, n: nat): (m: nat)
    ensures m <= n
  {
    if pool + n <= MAX_STR_POOL - 2 then n else if pool <= MAX_STR_POOL - 2 then MAX_STR_POOL - 2 - pool else 0
  }

  /** A literal is cut when the pool is full; its terminator is written all the same. */
  function AddString(g: Gen, raw: string): Gen {
    var n := |Text(raw)| - 1;
    g.(pool := g.pool + Text(raw)[..PoolRoom(|g.pool|, n)] + [0])
  }

  function AddStrFixup(g: Gen, poolOffset: nat): Gen {
    if |g.strs| < MAX_STR_FIXUPS then g.(strs := g.strs + [StrFixup(|g.code|, poolOffset)]) else g
  }

  function EmitJmp(g: Gen, lbl: nat): Gen {
    Emit(JumpFixup(Emit(g, [0xE9]), lbl), PLACEHOLDER)
  }

  function EmitCondJump(g: Gen, cc: CC, lbl: nat): Gen {
    var g1 := EmitI(EmitI(EmitI(g, PopRbx), PopRax), CmpRaxRbx);
    Emit(JumpFixup(Emit(g1, [0x0F, CCByte(cc)]), lbl), PLACEHOLDER)
  }

  function EmitTestJump(g: Gen, cc: CC, lbl: nat): Gen {
    var g1 := EmitI(EmitI(g, PopRax), TestRax);
    Emit(TestFixup(Emit(g1, [0x0F, CCByte(cc)]), lbl), PLACEHOLDER)
  }

  function EmitLoad(g: Gen, off: int): Gen {
    EmitI(EmitI(g, LoadInstr(off)), PushRax)
  }

  function EmitStore(g: Gen, off: int): Gen {
    EmitI(EmitI(g, PopRax), StoreInstr(off))
  }

  function EmitOp(g: Gen, op: Op): Gen {
    match op
    case Add => EmitI(g, AddRaxRbx)
    case Sub => EmitI(g, SubRaxRbx)
    case Mul => EmitI(g, ImulRaxRbx)
    case Div => EmitI(EmitI(g, Cqo), IdivRbx)
    case _ => g
  }

  /** A call whose target is known is resolved at once, others by a fixup. */
  function EmitCall(g: Gen, name: string): Gen {
    var target := FindFunc(g.funcs, name);
    var g1 := Emit(g, [0xE8]);
    if target != -1 then Emit(g1, Bytes32(ToU32(target - (|g1.code| + 4))))
    else Emit(CallFixup(g1, name), PLACEHOLDER)
  }

  /** The caller removes its arguments. */
  function EmitDrop(g: Gen, count: nat): Gen {
    if count > 0 then EmitI(g, AddRsp(SignedInt(ToU32(8 * count)))) else g
  }

  function EmitLea(g: Gen, raw: string): Gen {
    var g1 := Emit(AddString(g, raw), [0x48, 0x8D, 0x05]);
    Emit(AddStrFixup(g1, |g.pool|), PLACEHOLDER)
  }

  function EmitEpilogue(g: Gen): Gen {
    EmitI(EmitI(g, Leave), Ret)
  }

  function EmitPrologue(g: Gen, localBytes: nat): Gen {
    EmitI(EmitI(EmitI(g, PushRbp), MovRbpRsp), SubRsp(SignedInt(ToU32(FrameSize(localBytes)))))
  }

  // ----- tree traversal -----

  /** Arguments a call passes: the traversal collects at most 32. */
  function Passed(args: Exprs): nat {
    if args.Count() <= 32 then args.Count() else 32
  }

  function GenExpr(g: Gen, e: Expr): Gen
    decreases e
  {
    match e
    case Int(n) => EmitI(EmitI(g, MovRaxImm(ToWord(n))), PushRax)
    case Var(off) => EmitLoad(g, off)
    case Bin(op, l, r) =>
      var g1 := GenExpr(GenExpr(g, l), r);
      EmitI(EmitOp(EmitI(EmitI(g1, PopRbx), PopRax), op), PushRax)
    case CallE(name, args) =>
      var g1 := EmitCall(GenArgs(g, args, 32), name);
      EmitI(EmitDrop(g1, Passed(args)), PushRax)
    case Str(raw) =>
      EmitI(EmitLea(g, raw), PushRax)
  }

  /** The first `n` arguments, pushed from the last to the first. */
  function GenArgs(g: Gen, es: Exprs, n: nat): Gen
    decreases es
  {
    if n == 0 || es.ENil? then g else GenExpr(GenArgs(g, es.next, n - 1), es.head)
  }

  function GenCond(g: Gen, c: Expr, lbl: nat, onTrue: bool): Gen {
    if c.Bin? then EmitCondJump(GenExpr(GenExpr(g, c.left), c.right), JumpCC(c.op, onTrue), lbl)
    else EmitTestJump(GenExpr(g, c), if onTrue then NE else E, lbl)
  }

  function GenStmt(g: Gen, s: Stmt): Gen
    decreases s, 0
  {
    match s
    case ExprStmt(e) => GenExpr(g, e)
    case Decl(off, _) => EmitLoad(g, off)
    case Assign(nodeOff, off, rhs) => EmitStore(GenExpr(g, rhs), Target(nodeOff, off))
    case Return(Some(e)) => EmitEpilogue(EmitI(GenExpr(g, e), PopRax))
    case Return(None) => EmitEpilogue(EmitI(g, XorEax))
    case If(c, t, f) =>
      var lblElse, lblExit := g.nextLabel, g.nextLabel + 1;
      var g1 := AllocLabel(AllocLabel(g));
      var g2 := GenStmt(GenCond(g1, c, if f.Some? then lblElse else lblExit, false), t);
      var g3 := if f.Some? then GenStmt(MarkLabel(EmitJmp(g2, lblExit), lblElse), f.value) else g2;
      MarkLabel(g3, lblExit)
    case While(c, body) =>
      var lblStart, lblExit := g.nextLabel, g.nextLabel + 1;
      var g1 := MarkLabel(AllocLabel(AllocLabel(g)), lblStart);
      var g2 := GenStmt(GenCond(g1, c, lblExit, false), body);
      MarkLabel(EmitJmp(g2, lblStart), lblExit)
    case Block(items) => GenItems(g, items)
  }

  function GenItem(g: Gen, s: Stmt): Gen
    decreases s, 1
  {
    match s
    case Decl(_, None) => g
    case ExprStmt(Var(_)) => g
    case Decl(off, Some(e)) => EmitStore(GenExpr(g, e), off)
    case _ => GenStmt(g, s)
  }

  function GenItems(g: Gen, ss: Stmts): Gen
    decreases ss, 0
  {
    if ss.SNil? then g else GenItems(GenItem(g, ss.head), ss.next)
  }

  function GenFunc(g: Gen, f: Func): Gen {
    var g1 := EmitPrologue(RegisterFunc(g, f.name), f.localBytes);
    var g2 := if f.body.Some? then GenStmt(g1, f.body.value) else g1;
    EmitEpilogue(g2)
  }

  /** The first `n` functions of the program. */
  function GenFuncs(g: Gen, p: Program, n: nat): Gen
    requires n <= |p|
  {
    if n == 0 then g else GenFunc(GenFuncs(g, p, n - 1), p[n - 1])
  }

  // ----- string section and patching -----

  function Padding(n: nat): nat {
    (8 - n % 8) % 8
  }

  function Nops(n: nat): (r: seq<byte>)
    ensures |r| == n
  {
    seq(n, _ => 0x90)
  }

  /** Pad to eight bytes. */
  function Align(g: Gen): Gen {
    Emit(g, Nops(Padding(|g.code|)))
  }

  function EmitPool(g: Gen): Gen {
    Emit(g, g.pool)
  }

  function Write32(code: seq<byte>, pos: nat, v: int): (r: seq<byte>)
    requires pos + 4 <= |code|
    ensures |r| == |code|
  {
    code[..pos] + Bytes32(ToU32(v)) + code[pos + 4..]
  }

  /** Where fixup `i` must jump, or -1 when that is not known. */
  function Resolve(g: Gen, i: nat): int
    requires i < |g.table|
  {
    var f := g.table[i];
    if f.isFuncCall then FindFunc(g.funcs, f.funcName)
    else if f.labelId < |g.labels| then g.labels[f.labelId] else -1
  }

  ghost predicate SitesInside(g: Gen, size: nat) {
    && g.fixups <= |g.table|
    && (forall i :: 0 <= i < g.fixups ==> g.table[i].patchPos + 4 <= size)
    && (forall i :: 0 <= i < |g.strs| ==> g.strs[i].dispPos + 4 <= size)
  }

  function PatchFixups(g: Gen, code: seq<byte>, n: nat): (r: seq<byte>)
    requires SitesInside(g, |code|) && n <= g.fixups
    ensures |r| == |code|
  {
    if n == 0 then code
    else
      var before, pos := PatchFixups(g, code, n - 1), g.table[n - 1].patchPos;
      if Resolve(g, n - 1) == -1 then before else Write32(before, pos, Resolve(g, n - 1) - (pos + 4))
  }

  function PatchStrings(g: Gen, code: seq<byte>, section: nat, n: nat): (r: seq<byte>)
    requires SitesInside(g, |code|) && n <= |g.strs|
    ensures |r| == |code|
  {
    if n == 0 then code
    else
      var f := g.strs[n - 1];
      Write32(PatchStrings(g, code, section, n - 1), f.dispPos, section + f.poolOffset - (f.dispPos + 4))
  }

  /** Offset of the string section: just before the pool bytes. */
  function Section(g: Gen): int {
    |g.code| - |g.pool|
  }

  /** Both passes of patching, for strings that start at `section`. */
  function LinkedAt(g: Gen, section: nat): (r: seq<byte>)
    requires SitesInside(g, |g.code|)
    ensures |r| == |g.code|
  {
    PatchStrings(g, PatchFixups(g, g.code, g.fixups), section, |g.strs|)
  }

  function Linked(g: Gen): (r: seq<byte>)
    requires SitesInside(g, |g.code|) && Section(g) >= 0
    ensures |r| == |g.code|
  {
    LinkedAt(g, Section(g))
  }

  /** Tables at the start of a compilation. */
  function Begin(header: seq<byte>, table: seq<Fixup>): Gen {
    Gen(header, seq(MAX_LABELS, _ => -1), 1, table, 0, [], [], [])
  }

  function GenProgram(header: seq<byte>, table: seq<Fixup>, p: Program): Gen {
    EmitPool(Align(GenFuncs(Begin(header, table), p, |p|)))
  }
}
