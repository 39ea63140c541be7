/**
 Where the finished code of each construct lies. Every construct has a fixed
 size, so all jump targets are determined by the tree: these predicates do not
 mention labels or fixups.
 */
module Layout {
  import opened Words
  import opened Machine
  import opened Options
  import opened Ast

  /** Code offset of each function's first byte. */
  type Entries = map<string, nat>

  function Rel(target: int, next: int): i32 {
    SignedInt(ToU32(target - next))
  }

  lemma RelExact(target: int, next: int)
    requires 0 <= target <= 0x1_0000 && 0 <= next <= 0x1_0000
    ensures next + Rel(target, next) == target
  {
  }

  /** Displacement from rbp of a slot. */
  function SlotDisp(off: int): i32 {
    SignedInt(ToU32(if off < 0 then 16 + ParamIndex(off) * 8 else -(off + 8)))
  }

  function LoadInstr(off: int): Instr {
    if off < 0 then LoadQ(SlotDisp(off)) else LoadD(SlotDisp(off))
  }

  function StoreInstr(off: int): Instr {
    if off < 0 then StoreQ(SlotDisp(off)) else StoreD(SlotDisp(off))
  }

  function SlotSize(off: int): nat {
    if off < 0 then 7 else 6
  }

  function OpInstrs(op: Op): seq<Instr> {
    match op
    case Add => [AddRaxRbx]
    case Sub => [SubRaxRbx]
    case Mul => [ImulRaxRbx]
    case Div => [Cqo, IdivRbx]
    case _ => []
  }

  function OpSize(op: Op): nat {
    match op
    case Add => 3
    case Sub => 3
    case Mul => 4
    case Div => 5
    case _ => 0
  }

  /** The jump taken on `op` or, when the jump is on false, on its inverse; an
      operator that is no comparison is not inverted and jumps on inequality. */
  function JumpCC(op: Op, onTrue: bool): CC {
    match op
    case Lt => if onTrue then L else GE
    case Gt => if onTrue then G else LE
    case Leq => if onTrue then LE else G
    case Geq => if onTrue then GE else L
    case Eq => if onTrue then E else NE
    case Neq => if onTrue then NE else E
    case _ => NE
  }

  function ArgBytes(n: nat): nat {
    if n > 0 then 7 else 0
  }

  function ExprSize(e: Expr): nat {
    match e
    case Int(_) => 11
    case Var(off) => SlotSize(off) + 1
    case Bin(op, l, r) => ExprSize(l) + ExprSize(r) + OpSize(op) + 3
    case CallE(_, args) => ArgsSize(args) + ArgBytes(args.Count()) + 6
    case Str(_) => 8
  }

  function ArgsSize(es: Exprs): nat {
    if es.ENil? then 0 else ArgsSize(es.next) + ExprSize(es.head)
  }

  function CondSize(c: Expr): nat {
    if c.Bin? then ExprSize(c.left) + ExprSize(c.right) + 11 else ExprSize(c) + 10
  }

  function StmtSize(s: Stmt): nat
    decreases s, 0
  {
    match s
    case ExprStmt(e) => ExprSize(e)
    case Decl(off, _) => SlotSize(off) + 1
    case Assign(nodeOff, off, rhs) => ExprSize(rhs) + 1 + SlotSize(Target(nodeOff, off))
    case If(c, t, None) => CondSize(c) + StmtSize(t)
    case If(c, t, Some(f)) => CondSize(c) + StmtSize(t) + 5 + StmtSize(f)
    case While(c, body) => CondSize(c) + StmtSize(body) + 5
    case Block(items) => ItemsSize(items)
    case Return(None) => 4
    case Return(Some(e)) => ExprSize(e) + 3
  }

  function ItemSize(s: Stmt): nat
    decreases s, 1
  {
    match s
    case Decl(_, None) => 0
    case ExprStmt(Var(_)) => 0
    case Decl(off, Some(e)) => ExprSize(e) + 1 + SlotSize(off)
    case _ => StmtSize(s)
  }

  function ItemsSize(ss: Stmts): nat
    decreases ss, 0
  {
    if ss.SNil? then 0 else ItemSize(ss.head) + ItemsSize(ss.next)
  }

  function BodySize(f: Func): nat {
    if f.body.Some? then StmtSize(f.body.value) else 0
  }

  /** Prologue, body and the default epilogue. */
  function FuncSize(f: Func): nat {
    11 + BodySize(f) + 2
  }

  /** Total bytes of the first `n` functions. */
  function FuncsSize(p: Program, n: nat): nat
    requires n <= |p|
  {
    if n == 0 then 0 else FuncsSize(p, n - 1) + FuncSize(p[n - 1])
  }

  /** A string literal's bytes with quotes stripped and escapes replaced. */
  function Unescape(s: string): string {
    if s == "" then ""
    else if s[0] == '\\' && |s| > 1 then [EscapedChar(s[1])] + Unescape(s[2..])
    else [s[0]] + Unescape(s[1..])
  }

  function EscapedChar(c: char): char {
    if c == 'n' then '\n' else if c == 't' then '\t' else if c == 'r' then '\r'
    else if c == '0' then '\0' else c
  }

  function Stripped(raw: string): string {
    var i := if |raw| > 0 && raw[0] == '"' then 1 else 0;
    var end := if |raw| > i && raw[|raw| - 1] == '"' then |raw| - 1 else |raw|;
    raw[i..end]
  }

  function CharByte(c: char): byte {
    c as int % 256
  }

  /** What a string literal denotes: its text, NUL-terminated. */
  function Text(raw: string): (s: seq<byte>)
    ensures |s| >= 1
  {
    var t := Unescape(Stripped(raw));
    seq(|t|, i requires 0 <= i < |t| => CharByte(t[i])) + [0]
  }

  ghost predicate TextAt(code: seq<byte>, p: int, text: seq<byte>) {
    0 <= p && p + |text| <= |code| && code[p..p + |text|] == text
  }

  ghost predicate OpAt(code: seq<byte>, op: Op, a: int) {
    match op
    case Add => At(code, a, AddRaxRbx)
    case Sub => At(code, a, SubRaxRbx)
    case Mul => At(code, a, ImulRaxRbx)
    case Div => At(code, a, Cqo) && At(code, a + 2, IdivRbx)
    case _ => true
  }

  ghost predicate ExprAt(code: seq<byte>, en: Entries, e: Expr, a: int)
    decreases e, 0
  {
    match e
    case Int(n) => At(code, a, MovRaxImm(ToWord(n))) && At(code, a + 10, PushRax)
    case Var(off) => At(code, a, LoadInstr(off)) && At(code, a + SlotSize(off), PushRax)
    case Bin(op, l, r) =>
      var b := a + ExprSize(l) + ExprSize(r);
      && ExprAt(code, en, l, a) && ExprAt(code, en, r, a + ExprSize(l))
      && At(code, b, PopRbx) && At(code, b + 1, PopRax)
      && OpAt(code, op, b + 2) && At(code, b + 2 + OpSize(op), PushRax)
    case CallE(name, args) =>
      var b, n := a + ArgsSize(args), args.Count();
      && ArgsAt(code, en, args, a)
      && 0 <= b && (name in en ==> At(code, b, Call(Rel(en[name], b + 5))))
      && (n > 0 ==> At(code, b + 5, AddRsp(SignedInt(ToU32(8 * n)))))
      && At(code, b + 5 + ArgBytes(n), PushRax)
    case Str(raw) =>
      && At(code, a + 7, PushRax)
      && exists rel: i32 :: At(code, a, LeaRax(rel)) && TextAt(code, a + 7 + rel, Text(raw))
  }

  /** Arguments are pushed from the last to the first. */
  ghost predicate ArgsAt(code: seq<byte>, en: Entries, es: Exprs, a: int)
    decreases es, 0
  {
    es.ECons? ==> ArgsAt(code, en, es.next, a) && ExprAt(code, en, es.head, a + ArgsSize(es.next))
  }

  ghost predicate CondAt(code: seq<byte>, en: Entries, c: Expr, a: int, target: int, onTrue: bool) {
    if c.Bin? then
      var b := a + ExprSize(c.left) + ExprSize(c.right);
      && ExprAt(code, en, c.left, a) && ExprAt(code, en, c.right, a + ExprSize(c.left))
      && At(code, b, PopRbx) && At(code, b + 1, PopRax) && At(code, b + 2, CmpRaxRbx)
      && At(code, b + 5, Jcc(JumpCC(c.op, onTrue), Rel(target, b + 11)))
    else
      var b := a + ExprSize(c);
      && ExprAt(code, en, c, a) && At(code, b, PopRax) && At(code, b + 1, TestRax)
      && At(code, b + 4, Jcc(if onTrue then NE else E, Rel(target, b + 10)))
  }

  ghost predicate StoreAt(code: seq<byte>, off: int, a: int) {
    At(code, a, PopRax) && At(code, a + 1, StoreInstr(off))
  }

  ghost predicate StmtAt(code: seq<byte>, en: Entries, s: Stmt, a: int)
    decreases s, 0
  {
    match s
    case ExprStmt(e) => ExprAt(code, en, e, a)
    case Decl(off, _) => ExprAt(code, en, Var(off), a)
    case Assign(nodeOff, off, rhs) =>
      ExprAt(code, en, rhs, a) && StoreAt(code, Target(nodeOff, off), a + ExprSize(rhs))
    case If(c, t, None) =>
      CondAt(code, en, c, a, a + StmtSize(s), false) && StmtAt(code, en, t, a + CondSize(c))
    case If(c, t, Some(f)) =>
      var b := a + CondSize(c) + StmtSize(t);
      && CondAt(code, en, c, a, b + 5, false) && StmtAt(code, en, t, a + CondSize(c))
      && At(code, b, Jmp(Rel(a + StmtSize(s), b + 5)))
      && StmtAt(code, en, f, b + 5)
    case While(c, body) =>
      var b := a + CondSize(c) + StmtSize(body);
      && CondAt(code, en, c, a, b + 5, false) && StmtAt(code, en, body, a + CondSize(c))
      && At(code, b, Jmp(Rel(a, b + 5)))
    case Block(items) => ItemsAt(code, en, items, a)
    case Return(None) => At(code, a, XorEax) && At(code, a + 2, Leave) && At(code, a + 3, Ret)
    case Return(Some(e)) =>
      var b := a + ExprSize(e);
      ExprAt(code, en, e, a) && At(code, b, PopRax) && At(code, b + 1, Leave) && At(code, b + 2, Ret)
  }

  ghost predicate ItemAt(code: seq<byte>, en: Entries, s: Stmt, a: int)
    decreases s, 1
  {
    match s
    case Decl(_, None) => true
    case ExprStmt(Var(_)) => true
    case Decl(off, Some(e)) => ExprAt(code, en, e, a) && StoreAt(code, off, a + ExprSize(e))
    case _ => StmtAt(code, en, s, a)
  }

  ghost predicate ItemsAt(code: seq<byte>, en: Entries, ss: Stmts, a: int)
    decreases ss, 0
  {
    ss.SCons? ==> ItemAt(code, en, ss.head, a) && ItemsAt(code, en, ss.next, a + ItemSize(ss.head))
  }

  ghost predicate FuncAt(code: seq<byte>, en: Entries, f: Func, a: int) {
    && f.body.Some?
    && At(code, a, PushRbp) && At(code, a + 1, MovRbpRsp)
    && At(code, a + 4, SubRsp(SignedInt(ToU32(FrameSize(f.localBytes)))))
    && StmtAt(code, en, f.body.value, a + 11)
    && At(code, a + 11 + BodySize(f), Leave) && At(code, a + 12 + BodySize(f), Ret)
  }

  /** For every name of the program, the function it stands for is in place. */
  ghost predicate ProgramAt(code: seq<byte>, en: Entries, p: Program) {
    && |code| <= 0x1_0000
    && forall i :: 0 <= i < |p| && Find(p, p[i].name) == i ==>
         p[i].name in en && en[p[i].name] <= |code| && FuncAt(code, en, p[i], en[p[i].name])
  }
}
