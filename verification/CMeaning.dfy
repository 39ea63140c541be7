/**
 What C means by the functions the parser read, on variables with names and block
 scope and on literals as C writes them; slots and the parser's readings play no part.
 The int semantics of the lowered trees agrees with it for functions in which every
 name resolves as in C.
 */
module CMeaning {
  import opened Words
  import opened Machine
  import opened Options
  import opened Ast
  import opened IntSemantics
  import opened Parser
  import opened StatementPrinting
  import opened Slots
  import opened Lowering
  import opened Scoping

  // ----- literals -----

  function OctalDigits(s: string, n: nat): nat
    decreases |s|
  {
    if s == [] || !('0' <= s[0] <= '7') then n else OctalDigits(s[1..], 8 * n + (s[0] as int - '0' as int))
  }

  /** The number a C integer constant of digits writes. */
  function CNumber(s: string): nat {
    if |s| > 1 && s[0] == '0' then OctalDigits(s[1..], 0) else Decimal(s, 0)
  }

  predicate IsOctal(s: string) {
    forall c :: c in s ==> '0' <= c <= '7'
  }

  /** Digits in base eight count for less than in base ten as soon as one is shifted. */
  lemma {:induction false} OctalBelow(s: string, n: nat, m: nat)
    requires IsOctal(s) && n <= m
    ensures OctalDigits(s, n) <= Decimal(s, m) && Decimal(s, m) >= m
    ensures n < m || (s != [] && m > 0) ==> OctalDigits(s, n) < Decimal(s, m)
    ensures s != [] && m > 0 ==> Decimal(s, m) >= 10
    decreases |s|
  {
    if s != [] {
      var d := s[0] as int - '0' as int;
      assert s[0] in s && forall c :: c in s[1..] ==> c in s;
      OctalBelow(s[1..], 8 * n + d, 10 * m + d);
    }
  }

  lemma {:induction false} OctalSmall(s: string)
    requires IsOctal(s)
    ensures OctalDigits(s, 0) == Decimal(s, 0) <==> Decimal(s, 0) < 8
    decreases |s|
  {
    if s != [] {
      var d := s[0] as int - '0' as int;
      assert s[0] in s && forall c :: c in s[1..] ==> c in s;
      if d == 0 {
        OctalSmall(s[1..]);
      } else {
        OctalBelow(s[1..], d, d);
      }
    }
  }

  /** The parser reads a number with a leading zero as decimal: it is the number C means
      exactly when it is below eight. */
  lemma OctalMeaning(s: string)
    requires |s| > 1 && s[0] == '0' && IsOctal(s)
    ensures CNumber(s) == Decimal(s, 0) <==> Decimal(s, 0) < 8
  {
    assert forall c :: c in s[1..] ==> c in s;
    OctalSmall(s[1..]);
  }

  /** The character behind a backslash. */
  function CEscape(e: char): Option<int> {
    if e == 'n' then Some(10)
    else if e == 't' then Some(9)
    else if e == 'r' then Some(13)
    else if e == 'a' then Some(7)
    else if e == 'b' then Some(8)
    else if e == 'f' then Some(12)
    else if e == 'v' then Some(11)
    else if '0' <= e <= '7' then Some(e as int - '0' as int)
    else if e == '\\' || e == '\'' || e == '"' || e == '?' then Some(e as int)
    else None
  }

  /** The value of a character constant of one character or a simple escape. */
  function CChar(s: string): Option<int> {
    if |s| == 3 && s[1] != '\\' && s[1] != '\'' then Some(s[1] as int)
    else if |s| == 4 && s[1] == '\\' then CEscape(s[2])
    else None
  }

  /** The parser knows some escapes only. */
  predicate KnownEscape(e: char) {
    e == 'n' || e == 't' || e == '0' || e == '\\' || e == '\'' || e == '"' || e == '?'
  }

  lemma CharMeaning(s: string)
    requires CChar(s).Some?
    ensures CharValue(s) == CChar(s).value <==> |s| == 3 || KnownEscape(s[2])
  {
  }

  predicate PlainNumber(s: string) {
    (|s| <= 1 || s[0] != '0') && Decimal(s, 0) < TWO31
  }

  predicate PlainChar(s: string) {
    CChar(s).Some? && (|s| == 3 || KnownEscape(s[2]))
  }

  // ----- variables -----

  /** A variable in force; `local` tells it from a parameter. */
  datatype Cell = Cell(name: string, local: bool, value: Option<int>)

  /** Index of the innermost variable of that name, or -1. */
  function Index(st: seq<Cell>, name: string): (i: int)
    ensures -1 <= i < |st|
    ensures i >= 0 ==> st[i].name == name
    decreases |st|
  {
    if st == [] then -1
    else if st[|st| - 1].name == name then |st| - 1
    else Index(st[..|st| - 1], name)
  }

  /** Reading a variable without value is undefined. */
  function CRead(st: seq<Cell>, name: string): Value {
    var i := Index(st, name);
    if i >= 0 && st[i].value.Some? then V(st[i].value.value) else Fail
  }

  datatype COutcome = Runs(st: seq<Cell>) | Ends(v: Value) | NoMeaning

  /** With `natural` set, storing a negative number in a local is refused. */
  function CWrite(st: seq<Cell>, name: string, v: int, natural: bool): COutcome {
    var i := Index(st, name);
    if i < 0 || (natural && st[i].local && v < 0) then NoMeaning else Runs(st[i := st[i].(value := Some(v))])
  }

  // ----- expressions -----

  function COperator(op: Op, x: int, y: int): Value {
    match op
    case Mod => if y == 0 || !IsInt(TruncDiv(x, y)) then Fail else V(x - y * TruncDiv(x, y))
    case Add => ArithInt(op, x, y)
    case Sub => ArithInt(op, x, y)
    case Mul => ArithInt(op, x, y)
    case Div => ArithInt(op, x, y)
    case _ => V(if Compare(CompareOp(op).value, x, y) then 1 else 0)
  }

  /** First function of that name. */
  function FindTree(fs: seq<FuncTree>, name: string): (i: nat)
    ensures i <= |fs|
    ensures i < |fs| ==> fs[i].name == name
  {
    if fs == [] then 0
    else if fs[0].name == name then 0
    else 1 + FindTree(fs[1..], name)
  }

  function CEval(fs: seq<FuncTree>, fuel: nat, st: seq<Cell>, t: Tree, natural: bool): Value
    decreases fuel, t, 0
  {
    match t
    case Lit(Number(s)) => if CNumber(s) < TWO31 then V(CNumber(s)) else Fail
    case Lit(CharTok(s)) => if CChar(s).Some? then V(CChar(s).value) else Fail
    case Lit(_) => Fail
    case Id(name, _) => CRead(st, name)
    case Node(op, l, r) =>
      var x, y := CEval(fs, fuel, st, l, natural), CEval(fs, fuel, st, r, natural);
      if x.V? && y.V? then COperator(op, x.v, y.v) else Fail
    case Deref(_) => Fail
    case CallT(name, args) =>
      var vals := CArgs(fs, fuel, st, args, natural);
      if vals.None? || fuel == 0 then Fail else CApply(fs, fuel - 1, name, vals.value, natural)
  }

  function CArgs(fs: seq<FuncTree>, fuel: nat, st: seq<Cell>, ts: Trees, natural: bool): Option<seq<int>>
    decreases fuel, ts, 0
  {
    if ts.TNil? then Some([])
    else
      var vs, v := CArgs(fs, fuel, st, ts.next, natural), CEval(fs, fuel, st, ts.head, natural);
      if vs.Some? && v.V? then Some([v.v] + vs.value) else None
  }

  function Passed(names: seq<string>, vals: seq<int>): (st: seq<Cell>)
    requires |names| == |vals|
    ensures |st| == |names|
  {
    seq(|names|, k requires 0 <= k < |names| => Cell(names[k], false, Some(vals[k])))
  }

  /** Calling a function: Void when it gives no value. */
  function CApply(fs: seq<FuncTree>, fuel: nat, name: string, vals: seq<int>, natural: bool): Value
    decreases fuel
  {
    var i := FindTree(fs, name);
    if i == |fs| || fs[i].body.None? || |vals| != |fs[i].params| then Fail
    else match CAll(fs, fuel, Passed(fs[i].params, vals), fs[i].body.value, natural)
      case Runs(_) => Void
      case Ends(v) => v
      case NoMeaning => Fail
  }

  // ----- statements -----

  /** Leaving a block takes its variables out of force. */
  function LeaveBlock(o: COutcome, n: nat): COutcome {
    if o.Runs? && n <= |o.st| then Runs(o.st[..n]) else o
  }

  function CExec(fs: seq<FuncTree>, fuel: nat, st: seq<Cell>, s: STree, natural: bool): COutcome
    decreases fuel, s, 1
  {
    match s
    case SExpr(e) => if CEval(fs, fuel, st, e, natural).Fail? then NoMeaning else Runs(st)
    case SAssign(_, l, r) =>
      var v := CEval(fs, fuel, st, r, natural);
      if l.Id? && v.V? then CWrite(st, l.name, v.v, natural) else NoMeaning
    case SDecl(name, _, init) =>
      var st1 := st + [Cell(name, true, None)];
      if init.None? then Runs(st1)
      else
        var v := CEval(fs, fuel, st1, init.value, natural);
        if v.V? then CWrite(st1, name, v.v, natural) else NoMeaning
    case SIf(e, t, f) =>
      var v := CEval(fs, fuel, st, e, natural);
      if !v.V? then NoMeaning
      else if v.v != 0 then LeaveBlock(CAll(fs, fuel, st, t, natural), |st|)
      else if f.Some? then LeaveBlock(CAll(fs, fuel, st, f.value, natural), |st|)
      else Runs(st)
    case SWhile(e, b) =>
      var v := CEval(fs, fuel, st, e, natural);
      if !v.V? then NoMeaning
      else if v.v == 0 then Runs(st)
      else
        var o := LeaveBlock(CAll(fs, fuel, st, b, natural), |st|);
        if o.Runs? then (if fuel == 0 then NoMeaning else CExec(fs, fuel - 1, o.st, s, natural)) else o
    case SFor(a, e, p, b) =>
      var o := CAll(fs, fuel, st, a, natural);
      if o.Runs? then LeaveBlock(CFor(fs, fuel, o.st, s, natural), |st|) else o
    case SBlock(items) => LeaveBlock(CAll(fs, fuel, st, items, natural), |st|)
    case SReturn(None) => Ends(Void)
    case SReturn(Some(e)) =>
      var v := CEval(fs, fuel, st, e, natural);
      if v.V? then Ends(v) else NoMeaning
  }

  /** The rounds of a for statement whose first part is done. */
  function CFor(fs: seq<FuncTree>, fuel: nat, st: seq<Cell>, s: STree, natural: bool): COutcome
    requires s.SFor?
    decreases fuel, s, 0
  {
    var v := CEval(fs, fuel, st, s.cond, natural);
    if !v.V? then NoMeaning
    else if v.v == 0 then Runs(st)
    else
      var o := LeaveBlock(CAll(fs, fuel, st, s.body, natural), |st|);
      if !o.Runs? then o
      else
        var q := CExec(fs, fuel, o.st, s.post, natural);
        if q.Runs? then (if fuel == 0 then NoMeaning else CFor(fs, fuel - 1, q.st, s, natural)) else q
  }

  function CAll(fs: seq<FuncTree>, fuel: nat, st: seq<Cell>, ss: STrees, natural: bool): COutcome
    decreases fuel, ss, 0
  {
    if ss.STNil? then Runs(st)
    else
      var o := CExec(fs, fuel, st, ss.head, natural);
      if o.Runs? then CAll(fs, fuel, o.st, ss.next, natural) else o
  }

  // ----- functions in the common part of both languages -----

  /** A value the generator computes: + - * /, calls, variables, plain literals. */
  predicate ValueTree(t: Tree) {
    match t
    case Lit(Number(s)) => PlainNumber(s)
    case Lit(CharTok(s)) => PlainChar(s)
    case Lit(_) => IsLiteral(t.tok)
    case Id(_, _) => true
    case Node(op, l, r) => (op.Add? || op.Sub? || op.Mul? || op.Div?) && ValueTree(l) && ValueTree(r)
    case Deref(_) => false
    case CallT(_, args) => ValueArgs(args)
  }

  predicate ValueArgs(ts: Trees) {
    ts.TCons? ==> ValueTree(ts.head) && ValueArgs(ts.next)
  }

  /** A comparison of values, or a value with no operator on top. */
  predicate CondTree(t: Tree) {
    if t.Node? then CompareOp(t.op).Some? && ValueTree(t.left) && ValueTree(t.right) else ValueTree(t)
  }

  /** One statement that is no declaration, as C asks of branches and loop bodies. */
  predicate OneStatement(ss: STrees) {
    Single(ss) && !ss.head.SDecl?
  }

  predicate PlainStmt(s: STree) {
    match s
    case SExpr(e) => ValueTree(e)
    case SAssign(_, l, r) => l.Id? && ValueTree(r)
    case SDecl(_, _, init) => init.Some? ==> ValueTree(init.value)
    case SIf(e, t, f) =>
      CondTree(e) && OneStatement(t) && PlainStmts(t) && (f.Some? ==> OneStatement(f.value) && PlainStmts(f.value))
    case SWhile(e, b) => CondTree(e) && OneStatement(b) && PlainStmts(b)
    case SFor(a, e, p, b) =>
      && Single(a) && PlainStmts(a) && CondTree(e) && OneStatement(b) && PlainStmts(b)
      && (p.SExpr? || p.SAssign?) && PlainStmt(p)
    case SBlock(items) => PlainStmts(items)
    case SReturn(v) => v.Some? ==> ValueTree(v.value)
  }

  predicate PlainStmts(ss: STrees) {
    ss.STCons? ==> PlainStmt(ss.head) && PlainStmts(ss.next)
  }

  // ----- variables and slots -----

  /** The variables in force hold what their slots hold, as far as they have a value. */
  ghost predicate CellsHold(st: seq<Cell>, vis: seq<Declared>, env: IntEnv) {
    && |st| == |vis|
    && forall i :: 0 <= i < |st| ==>
         st[i].name == vis[i].name && (st[i].local <==> vis[i].slot >= 0)
         && (st[i].value.Some? ==> ReadInt(env, vis[i].slot) == V(st[i].value.value))
  }

  /** Slots in force are pairwise different; locals lie below `bp`, parameters are among
      the first `n`. */
  ghost predicate Apart(vis: seq<Declared>, bp: int, n: nat) {
    && (forall i, j :: 0 <= i < j < |vis| ==> vis[i].slot != vis[j].slot)
    && forall i :: 0 <= i < |vis| ==>
         if vis[i].slot < 0 then vis[i].slot % 4 == 0 && 0 <= ParamIndex(vis[i].slot) < n && vis[i].slot <= -12 else vis[i].slot < bp
  }

  lemma {:induction false} IndexSeen(st: seq<Cell>, vis: seq<Declared>, name: string)
    requires |st| == |vis| && forall i :: 0 <= i < |st| ==> st[i].name == vis[i].name
    ensures var i := Index(st, name); if i < 0 then Seen(vis, name).None? else Seen(vis, name) == Some(vis[i].slot)
    decreases |st|
  {
    if st != [] && st[|st| - 1].name != name { IndexSeen(st[..|st| - 1], vis[..|vis| - 1], name); }
  }

  lemma ReadHolds(st: seq<Cell>, vis: seq<Declared>, env: IntEnv, name: string, at: Binding)
    requires CellsHold(st, vis, env) && Resolves(Id(name, at), vis) && CRead(st, name).V?
    ensures at.Local? && ReadInt(env, at.off) == CRead(st, name)
  {
    hide Seen, Index, ReadInt;
    IndexSeen(st, vis, name);
  }

  lemma ParamIndexApart(a: int, b: int)
    requires a < 0 && b < 0 && a % 4 == 0 && b % 4 == 0 && a <= -12 && b <= -12 && ParamIndex(a) == ParamIndex(b)
    ensures a == b
  {
  }

  lemma WriteHolds(st: seq<Cell>, vis: seq<Declared>, env: IntEnv, bp: int, name: string, off: int, v: int, natural: bool)
    requires CellsHold(st, vis, env) && Apart(vis, bp, |env.params|) && Seen(vis, name) == Some(off)
    requires CWrite(st, name, v, natural).Runs?
    ensures var o := WriteInt(env, off, v, natural);
            o.Goes? && |o.env.params| == |env.params| && CellsHold(CWrite(st, name, v, natural).st, vis, o.env)
  {
    hide Seen, Index, ParamIndex;
    IndexSeen(st, vis, name);
    var i := Index(st, name);
    var o, st' := WriteInt(env, off, v, natural), CWrite(st, name, v, natural).st;
    assert vis[i].slot == off;
    forall j | 0 <= j < |st'|
      ensures st'[j].value.Some? ==> ReadInt(o.env, vis[j].slot) == V(st'[j].value.value)
    {
      if j != i {
        assert vis[j].slot != off by { if j < i { assert vis[j].slot != vis[i].slot; } else { assert vis[i].slot != vis[j].slot; } }
        if off < 0 && vis[j].slot < 0 && ParamIndex(off) == ParamIndex(vis[j].slot) { ParamIndexApart(off, vis[j].slot); }
      }
    }
  }

  lemma DeclareHolds(st: seq<Cell>, vis: seq<Declared>, env: IntEnv, bp: int, n: nat, name: string)
    requires CellsHold(st, vis, env) && Apart(vis, bp, n) && bp >= 0
    ensures CellsHold(st + [Cell(name, true, None)], vis + [Declared(name, bp)], env)
    ensures Apart(vis + [Declared(name, bp)], bp + 4, n) && Seen(vis + [Declared(name, bp)], name) == Some(bp)
  {
    hide ReadInt, Seen, ParamIndex;
    SeenNext(vis, Declared(name, bp), name);
  }

  lemma LeaveHolds(st: seq<Cell>, vis: seq<Declared>, env: IntEnv, n: nat)
    requires CellsHold(st, vis, env) && n <= |st|
    ensures CellsHold(st[..n], vis[..n], env)
  {
    hide ReadInt;
  }

  lemma ApartGrows(vis: seq<Declared>, a: int, b: int, n: nat)
    requires Apart(vis, a, n) && a <= b
    ensures Apart(vis, b, n)
  {
  }

  lemma ApartPrefix(vis: seq<Declared>, bp: int, n: nat, m: nat)
    requires Apart(vis, bp, n) && m <= |vis|
    ensures Apart(vis[..m], bp, n)
  {
  }

  lemma {:induction false} SeenGrows(ss: STrees, vis: seq<Declared>)
    ensures |SeenAfterAll(ss, vis)| >= |vis| && SeenAfterAll(ss, vis)[..|vis|] == vis
    decreases ss
  {
    if ss.STCons? {
      var next := SeenAfter(ss.head, vis);
      SeenGrows(ss.next, next);
      assert SeenAfterAll(ss, vis)[..|vis|] == SeenAfterAll(ss, vis)[..|next|][..|vis|];
    }
  }

  // ----- one function of the unit -----

  /** A function read in some scope, over its own scalar variables, in the common part
      of both languages, each name resolving as in C. */
  ghost predicate Common(fn: FuncTree) {
    && (exists c, first :: ReadIn(fn, c, first))
    && UsesAll(fn.body.value, NameSet(fn.params)) && fn.localBytes >= 0
    && ScalarAll(fn.body.value) && Single(fn.body.value) && fn.body.value.head.SBlock? && PlainStmts(fn.body.value)
    && ResolvesAll(fn.body.value, ParamDecls(fn.params, |fn.params|))
  }

  /** The program the generator gets for these functions. */
  ghost predicate Lowers(fs: seq<FuncTree>, p: Program) {
    && |p| == |fs|
    && forall k :: 0 <= k < |fs| ==> Common(fs[k]) && p[k] == LowerFunc(fs[k])
  }

  lemma {:induction false} SameIndex(fs: seq<FuncTree>, p: Program, name: string)
    requires |p| == |fs| && forall k :: 0 <= k < |fs| ==> p[k].name == fs[k].name
    ensures Find(p, name) == FindTree(fs, name)
    decreases |fs|
  {
    if fs != [] && fs[0].name != name { SameIndex(fs[1..], p[1..], name); }
  }

  lemma LowersName(fs: seq<FuncTree>, p: Program, name: string)
    requires Lowers(fs, p)
    ensures Find(p, name) == FindTree(fs, name)
  {
    hide Common, LowerHead;
    SameIndex(fs, p, name);
  }
}
