/**
 The parser's trees as the code generator sees them, and the conditions under
 which a parsed function meets everything the compiler theorem asks of it.
 */
module Lowering {
  import opened Words
  import opened Options
  import opened Ast
  import opened Parser
  import opened StatementPrinting
  import opened Slots

  // ----- nodes -----

  /** The number that the leading digits write. */
  function Decimal(s: string, n: nat): nat
    decreases |s|
  {
    if s == [] || !('0' <= s[0] <= '9') then n else Decimal(s[1..], 10 * n + (s[0] as int - '0' as int))
  }

  /** The int that the parser makes of a number token: it is accumulated in 32 bits. */
  function Atoi(s: string, n: i32): i32
    decreases |s|
  {
    if s == [] || !('0' <= s[0] <= '9') then n else Atoi(s[1..], WrapInt(10 * n + (s[0] as int - '0' as int)))
  }

  lemma {:induction false} AtoiWraps(s: string, n: nat, m: i32)
    requires m == WrapInt(n)
    ensures Atoi(s, m) == WrapInt(Decimal(s, n))
    decreases |s|
  {
    if s != [] && '0' <= s[0] <= '9' {
      var d := s[0] as int - '0' as int;
      WrapDigit(n, m, d);
      AtoiWraps(s[1..], 10 * n + d, WrapInt(10 * m + d));
    }
  }

  lemma WrapDigit(n: nat, m: i32, d: int)
    requires m == WrapInt(n)
    ensures WrapInt(10 * m + d) == WrapInt(10 * n + d)
  {
    var k := (n - m) / TWO32;
    assert n == m + k * TWO32;
    assert 10 * n + d == 10 * m + d + (10 * k) * TWO32;
    assert (10 * m + d + (10 * k) * TWO32) % TWO32 == (10 * m + d) % TWO32;
  }

  /** A number token stands for the number it writes exactly when that is an int. */
  lemma LiteralValue(s: string)
    ensures Atoi(s, 0) == WrapInt(Atoi(s, 0))
    ensures Atoi(s, 0) == Decimal(s, 0) <==> Decimal(s, 0) < TWO31
  {
    AtoiWraps(s, 0, 0);
  }

  /** The integer of a character token: the parser reads what follows the opening
      quote, also when that is the closing one. */
  function CharValue(s: string): int {
    if |s| < 2 then 0
    else if s[1] != '\\' then s[1] as int
    else if |s| < 3 then 0
    else if s[2] == 'n' then 10
    else if s[2] == 't' then 9
    else if s[2] == '0' then 0
    else s[2] as int
  }

  /** Trees over literals, locals, parameters, operators and calls. */
  predicate Scalar(t: Tree) {
    match t
    case Lit(tok) => IsLiteral(tok)
    case Id(_, at) => at.Local?
    case Node(_, l, r) => Scalar(l) && Scalar(r)
    case CallT(_, args) => ScalarArgs(args)
    case Deref(_) => false
  }

  predicate ScalarArgs(ts: Trees) {
    ts.TCons? ==> Scalar(ts.head) && ScalarArgs(ts.next)
  }

  function LowerE(t: Tree): Expr
    requires Scalar(t)
  {
    match t
    case Lit(Number(s)) => Int(Atoi(s, 0))
    case Lit(CharTok(s)) => Int(CharValue(s))
    case Lit(StrTok(s)) => Str(s)
    case Id(_, Local(off)) => Var(off)
    case Node(op, l, r) => Bin(op, LowerE(l), LowerE(r))
    case CallT(name, args) => CallE(name, LowerArgs(args))
  }

  function LowerArgs(ts: Trees): Exprs
    requires ScalarArgs(ts)
  {
    match ts
    case TNil => ENil
    case TCons(t, rest) => ECons(LowerE(t), LowerArgs(rest))
  }

  predicate ScalarS(s: STree) {
    match s
    case SExpr(e) => Scalar(e)
    case SAssign(_, l, r) => l.Id? && l.at.Local? && Scalar(r)
    case SDecl(_, _, init) => init.Some? ==> Scalar(init.value)
    case SIf(e, t, f) => Scalar(e) && t.STCons? && ScalarAll(t) && (f.Some? ==> f.value.STCons? && ScalarAll(f.value))
    case SWhile(e, b) => Scalar(e) && b.STCons? && ScalarAll(b)
    case SFor(a, e, p, b) =>
      && a.STCons? && ScalarAll(a) && Scalar(e) && b.STCons? && ScalarAll(b)
      && (match p
          case SExpr(x) => Scalar(x)
          case SAssign(_, l, r) => l.Id? && l.at.Local? && Scalar(r)
          case _ => false)
    case SBlock(items) => ScalarAll(items)
    case SReturn(v) => v.Some? ==> Scalar(v.value)
  }

  predicate ScalarAll(ss: STrees) {
    ss.STCons? ==> ScalarS(ss.head) && ScalarAll(ss.next)
  }

  function Join(a: Stmts, b: Stmts): Stmts {
    if a.SNil? then b else SCons(a.head, Join(a.next, b))
  }

  /** A `for` becomes a block holding its first part and a loop whose body, made a
      block if it is none, ends in the third part. Branches keep their first node. */
  function LowerS(s: STree): Stmt
    requires ScalarS(s)
    decreases s, 0
  {
    match s
    case SExpr(e) => ExprStmt(LowerE(e))
    case SAssign(slot, l, r) => Assign(slot, l.at.off, LowerE(r))
    case SDecl(_, slot, None) => Decl(slot, None)
    case SDecl(_, slot, Some(e)) => Decl(slot, Some(LowerE(e)))
    case SIf(e, t, None) => If(LowerE(e), LowerHead(t), None)
    case SIf(e, t, Some(f)) => If(LowerE(e), LowerHead(t), Some(LowerHead(f)))
    case SWhile(e, b) => While(LowerE(e), LowerHead(b))
    case SFor(a, e, p, b) =>
      var body := LowerHead(b);
      var items := if body.Block? then body.items else LowerAll(b);
      Block(SCons(LowerHead(a), SCons(While(LowerE(e), Block(Join(items, SCons(LowerS(p), SNil)))), SNil)))
    case SBlock(items) => Block(LowerAll(items))
    case SReturn(None) => Return(None)
    case SReturn(Some(e)) => Return(Some(LowerE(e)))
  }

  function LowerAll(ss: STrees): Stmts
    requires ScalarAll(ss)
    decreases ss, 1
  {
    if ss.STNil? then SNil else SCons(LowerS(ss.head), LowerAll(ss.next))
  }

  function LowerHead(ss: STrees): Stmt
    requires ss.STCons? && ScalarAll(ss)
    decreases ss, 1
  {
    LowerS(ss.head)
  }

  // ----- functions that only use their own variables -----

  function ArgCount(ts: Trees): nat {
    if ts.TNil? then 0 else 1 + ArgCount(ts.next)
  }

  /** Only names in `known`, no dereference, at most 32 arguments a call and no call
      of a kernel routine. */
  predicate Uses(t: Tree, known: set<string>) {
    match t
    case Lit(_) => true
    case Id(name, _) => name in known
    case Node(_, l, r) => Uses(l, known) && Uses(r, known)
    case CallT(name, args) => !IsBuiltin(name) && ArgCount(args) <= 32 && UsesArgs(args, known)
    case Deref(_) => false
  }

  predicate UsesArgs(ts: Trees, known: set<string>) {
    ts.TCons? ==> Uses(ts.head, known) && UsesArgs(ts.next, known)
  }

  function Known(s: STree, known: set<string>): set<string> {
    match s
    case SDecl(name, _, _) => known + {name}
    case SIf(_, t, f) => if f.Some? then KnownAll(f.value, KnownAll(t, known)) else KnownAll(t, known)
    case SWhile(_, b) => KnownAll(b, known)
    case SFor(a, _, _, b) => KnownAll(b, KnownAll(a, known))
    case SBlock(items) => KnownAll(items, known)
    case _ => known
  }

  function KnownAll(ss: STrees, known: set<string>): set<string> {
    if ss.STNil? then known else KnownAll(ss.next, Known(ss.head, known))
  }

  predicate UsesPost(s: STree, known: set<string>) {
    match s
    case SExpr(e) => Uses(e, known)
    case SAssign(_, l, r) => l.Id? && Uses(l, known) && Uses(r, known)
    case _ => false
  }

  /** Every variable is declared before it is read or assigned to. */
  predicate UsesS(s: STree, known: set<string>) {
    match s
    case SExpr(e) => Uses(e, known)
    case SAssign(_, l, r) => l.Id? && Uses(l, known) && Uses(r, known)
    case SDecl(name, _, init) => init.Some? ==> Uses(init.value, known + {name})
    case SIf(e, t, f) => Uses(e, known) && UsesAll(t, known) && (f.Some? ==> UsesAll(f.value, KnownAll(t, known)))
    case SWhile(e, b) => Uses(e, known) && UsesAll(b, known)
    case SFor(a, e, p, b) =>
      UsesAll(a, known) && Uses(e, KnownAll(a, known)) && UsesPost(p, KnownAll(a, known)) && UsesAll(b, KnownAll(a, known))
    case SBlock(items) => UsesAll(items, known)
    case SReturn(v) => v.Some? ==> Uses(v.value, known)
  }

  predicate UsesAll(ss: STrees, known: set<string>) {
    ss.STCons? ==> UsesS(ss.head, known) && UsesAll(ss.next, Known(ss.head, known))
  }

  // ----- known names have good slots -----

  predicate GoodName(c: Scope, name: string) {
    var k := FindSymbol(c.syms, name);
    k >= 0 && !c.syms[k].isGlobal && c.bp >= 0 && GoodSlot(c.syms[k].offset, c.bp)
  }

  ghost predicate ScopeGood(c: Scope, known: set<string>) {
    c.bp >= 0 && c.bp % 4 == 0 && forall name :: name in known ==> GoodName(c, name)
  }

  lemma GoodSlotGrows(off: int, a: nat, b: nat)
    requires GoodSlot(off, a) && a <= b
    ensures GoodSlot(off, b)
  {
  }

  lemma FindInExtended(syms: seq<Symbol>, s: Symbol, name: string)
    ensures FindSymbol(syms + [s], name) == if s.name == name then |syms| else FindSymbol(syms, name)
  {
    assert (syms + [s])[..|syms|] == syms;
  }

  lemma DeclareGood(c: Scope, known: set<string>, name: string)
    requires ScopeGood(c, known)
    ensures ScopeGood(Declare(c, name), known + {name})
  {
    var k := Declare(c, name);
    forall x | x in known + {name} ensures GoodName(k, x) {
      FindInExtended(c.syms, Symbol(name, c.bp, false), x);
      if x != name {
        assert GoodName(c, x);
        GoodSlotGrows(c.syms[FindSymbol(c.syms, x)].offset, c.bp, k.bp);
      }
    }
  }

  lemma {:induction false} ExprGood(t: Tree, c: Scope, known: set<string>, n: nat)
    requires Bound(t, c.syms) && Uses(t, known) && ScopeGood(c, known) && c.bp <= n
    ensures Scalar(t) && GoodExpr(LowerE(t), n)
    decreases t
  {
    hide ScopeGood, GoodSlot;
    match t
    case Lit(_) =>
    case Id(name, _) => NameGood(c, known, name, n);
    case Node(_, l, r) =>
      ExprGood(l, c, known, n);
      ExprGood(r, c, known, n);
    case CallT(_, args) => ArgsGood(args, c, known, n);
    case Deref(_) =>
  }

  lemma NameGood(c: Scope, known: set<string>, name: string, n: nat)
    requires ScopeGood(c, known) && name in known && c.bp <= n
    ensures Bind(c.syms, name).Local? && GoodSlot(Bind(c.syms, name).off, n)
    ensures SlotOf(c.syms, name) == Bind(c.syms, name).off
  {
    assert GoodName(c, name);
    GoodSlotGrows(Bind(c.syms, name).off, c.bp, n);
  }

  lemma {:induction false} ArgsGood(ts: Trees, c: Scope, known: set<string>, n: nat)
    requires BoundArgs(ts, c.syms) && UsesArgs(ts, known) && ScopeGood(c, known) && c.bp <= n
    ensures ScalarArgs(ts) && GoodExprs(LowerArgs(ts), n) && LowerArgs(ts).Count() == ArgCount(ts)
    decreases ts
  {
    hide ScopeGood, Uses, Bound;
    if ts.TCons? {
      ExprGood(ts.head, c, known, n);
      ArgsGood(ts.next, c, known, n);
    }
  }

  lemma {:induction false} JoinGood(a: Stmts, b: Stmts, n: nat)
    requires GoodStmts(a, n) && GoodStmts(b, n)
    ensures GoodStmts(Join(a, b), n)
    decreases a
  {
    hide GoodStmt;
    if a.SCons? { JoinGood(a.next, b, n); }
  }

  /** What is to be shown of one statement. */
  ghost predicate FineS(s: STree, c: Scope, known: set<string>, n: nat) {
    && ScalarS(s) && GoodStmt(LowerS(s), n)
    && ScopeGood(After(s, c), Known(s, known)) && c.bp <= After(s, c).bp
  }

  ghost predicate FineAll(ss: STrees, c: Scope, known: set<string>, n: nat) {
    && ScalarAll(ss) && GoodStmts(LowerAll(ss), n)
    && ScopeGood(AfterAll(ss, c), KnownAll(ss, known)) && c.bp <= AfterAll(ss, c).bp
  }

  lemma {:induction false} StmtGood(s: STree, c: Scope, first: string, known: set<string>, n: nat)
    requires BoundS(s, c, first) && UsesS(s, known) && ScopeGood(c, known) && After(s, c).bp <= n
    ensures FineS(s, c, known, n)
    decreases s, 1
  {
    hide Bound, Uses, ScopeGood, Scalar, GoodExpr, LowerE, GoodSlot;
    match s
    case SExpr(e) => ExprGood(e, c, known, n);
    case SAssign(slot, l, r) =>
      ExprGood(r, c, known, n);
      AssignGood(s, c, first, known, n);
    case SDecl(name, slot, init) => DeclGood(s, c, first, known, n);
    case SIf(e, t, f) => IfGood(s, c, first, known, n);
    case SWhile(e, b) =>
      AllGrow(b, c, first);
      ExprGood(e, c, known, n);
      AllGood(b, c, first, known, n);
      HeadGood(b, n);
    case SFor(_, _, _, _) => ForGood(s, c, first, known, n);
    case SBlock(items) => AllGood(items, c, first, known, n);
    case SReturn(v) => if v.Some? { ExprGood(v.value, c, known, n); }
  }

  /** Offsets only grow. */
  lemma {:induction false} AllGrow(ss: STrees, c: Scope, first: string)
    requires BoundAll(ss, c, first)
    ensures c.bp <= AfterAll(ss, c).bp
  {
    SlotsAreCellsAll(ss, c, first);
  }

  lemma AssignGood(s: STree, c: Scope, first: string, known: set<string>, n: nat)
    requires s.SAssign? && s.left.Id? && Bound(s.left, c.syms) && Uses(s.left, known)
    requires s.slot == SlotOf(c.syms, NodeText(s.left, first)) && ScopeGood(c, known) && c.bp <= n
    ensures s.left.at.Local? && GoodSlot(Target(s.slot, s.left.at.off), n)
  {
    hide ScopeGood;
    NameGood(c, known, s.left.name, n);
  }

  lemma DeclGood(s: STree, c: Scope, first: string, known: set<string>, n: nat)
    requires s.SDecl? && BoundS(s, c, first) && UsesS(s, known) && ScopeGood(c, known) && After(s, c).bp <= n
    ensures FineS(s, c, known, n)
  {
    hide Bound, Uses, Scalar, GoodExpr, LowerE;
    var k := Declare(c, s.name);
    DeclareGood(c, known, s.name);
    if s.init.Some? { ExprGood(s.init.value, k, known + {s.name}, n); }
  }

  lemma {:induction false} IfGood(s: STree, c: Scope, first: string, known: set<string>, n: nat)
    requires s.SIf? && BoundS(s, c, first) && UsesS(s, known) && ScopeGood(c, known) && After(s, c).bp <= n
    ensures FineS(s, c, known, n)
    decreases s, 0
  {
    hide Bound, Uses, ScopeGood, Scalar, GoodExpr, LowerE;
    var k := AfterAll(s.thn, c);
    AllGrow(s.thn, c, first);
    if s.els.Some? { AllGrow(s.els.value, k, first); }
    ExprGood(s.cond, c, known, n);
    AllGood(s.thn, c, first, known, n);
    HeadGood(s.thn, n);
    if s.els.Some? {
      AllGood(s.els.value, k, first, KnownAll(s.thn, known), n);
      HeadGood(s.els.value, n);
    }
  }

  lemma {:induction false} ForGood(s: STree, c: Scope, first: string, known: set<string>, n: nat)
    requires s.SFor? && BoundS(s, c, first) && UsesS(s, known) && ScopeGood(c, known) && After(s, c).bp <= n
    ensures FineS(s, c, known, n)
    decreases s, 0
  {
    hide Bound, Uses, ScopeGood, Scalar, GoodExpr, LowerE, BoundAll, UsesAll, ScalarAll, GoodSlot;
    var k, known2 := AfterAll(s.start, c), KnownAll(s.start, known);
    AllGrow(s.start, c, first);
    AllGrow(s.body, k, first);
    AllGood(s.start, c, first, known, n);
    ExprGood(s.cond, k, known2, n);
    PostGood(s.post, k, first, known2, n);
    AllGood(s.body, k, first, known2, n);
    ForLowered(s, n);
  }

  lemma PostGood(p: STree, c: Scope, first: string, known: set<string>, n: nat)
    requires BoundPost(p, c.syms, first) && UsesPost(p, known) && ScopeGood(c, known) && c.bp <= n
    ensures (p.SExpr? || p.SAssign?) && ScalarS(p) && GoodStmt(LowerS(p), n)
  {
    hide Bound, Uses, ScopeGood, Scalar, GoodExpr, LowerE, GoodSlot;
    if p.SExpr? {
      ExprGood(p.e, c, known, n);
    } else {
      AssignGood(p, c, first, known, n);
      ExprGood(p.right, c, known, n);
    }
  }

  lemma ForLowered(s: STree, n: nat)
    requires s.SFor? && s.start.STCons? && s.body.STCons? && (s.post.SExpr? || s.post.SAssign?)
    requires ScalarAll(s.start) && ScalarAll(s.body) && Scalar(s.cond) && ScalarS(s.post)
    requires GoodStmts(LowerAll(s.start), n) && GoodStmts(LowerAll(s.body), n)
    requires GoodExpr(LowerE(s.cond), n) && GoodStmt(LowerS(s.post), n)
    ensures ScalarS(s) && GoodStmt(LowerS(s), n)
  {
    hide Scalar, GoodExpr, LowerE;
    var body := LowerHead(s.body);
    var items := if body.Block? then body.items else LowerAll(s.body);
    var last := SCons(LowerS(s.post), SNil);
    assert GoodStmts(last, n);
    JoinGood(items, last, n);
    var loop := While(LowerE(s.cond), Block(Join(items, last)));
    assert GoodStmt(loop, n);
    assert GoodStmts(SCons(loop, SNil), n);
  }

  lemma {:induction false} AllGood(ss: STrees, c: Scope, first: string, known: set<string>, n: nat)
    requires BoundAll(ss, c, first) && UsesAll(ss, known) && ScopeGood(c, known) && AfterAll(ss, c).bp <= n
    ensures FineAll(ss, c, known, n)
    decreases ss, 2
  {
    hide BoundS, UsesS, ScopeGood, ScalarS, GoodStmt, LowerS, After, Known;
    if ss.STCons? {
      var k := After(ss.head, c);
      AllGrow(ss.next, k, first);
      StmtGood(ss.head, c, first, known, n);
      AllGood(ss.next, k, first, Known(ss.head, known), n);
    }
  }

  // ----- whole functions -----

  function LowerFunc(f: FuncTree): Func
    requires f.body.Some? && f.body.value.STCons? && ScalarAll(f.body.value) && f.localBytes >= 0
  {
    Func(f.name, f.localBytes, Some(LowerHead(f.body.value)))
  }

  function NameSet(names: seq<string>): set<string> {
    set x | x in names
  }

  lemma {:induction false} ParamsGood(syms: seq<Symbol>, names: seq<string>, m: nat)
    requires m <= |names| <= 32 && |syms| >= |names|
    requires forall k :: 0 <= k < m ==> syms[|syms| - |names| + k] == Symbol(names[k], ParamSlot(k), false)
    ensures forall x :: x in names[..m] ==> GoodName(Scope(syms[..|syms| - |names| + m], 0), x)
    decreases m
  {
    if m > 0 {
      ParamsGood(syms, names, m - 1);
      var n := |syms| - |names| + m;
      assert syms[..n] == syms[..n - 1] + [syms[n - 1]];
      forall x | x in names[..m] ensures GoodName(Scope(syms[..n], 0), x) {
        FindInExtended(syms[..n - 1], syms[n - 1], x);
        if x != names[m - 1] {
          assert x in names[..m - 1];
          assert GoodName(Scope(syms[..n - 1], 0), x);
        }
      }
    }
  }

  /** From tokens to the compiler theorem: a parsed function that declares its
      variables before using them, has at most 32 parameters and stays within the
      scalar fragment lowers to a function whose every slot is one of its own
      parameter or local cells. */
  lemma ParsedFunctionGood(ts: seq<Token>, syms: seq<Symbol>, count: nat, i: nat)
    requires Ended(ts) && i < |ts| && ts[i].Type?
    requires ts[i + 1].Ident? && ts[i + 2] == LPar ==> ParamsEnd(ts, i + 3)
    requires ParseFunction(ts, syms, count, i).Ok?
    requires var fn := ParseFunction(ts, syms, count, i).value.fn;
             && fn.body.Some? && UsesAll(fn.body.value, NameSet(fn.params))
             && |fn.params| <= 32 && fn.localBytes <= 0x7000_0000
    ensures var fn := ParseFunction(ts, syms, count, i).value.fn;
            && fn.body.value.STCons? && ScalarAll(fn.body.value) && fn.localBytes >= 0
            && GoodFunc(LowerFunc(fn))
  {
    hide ParseBlock, ParseParams, ScalarAll, LowerS, GoodStmt, BoundAll, UsesAll, AfterAll, KnownAll;
    var c0 := Scope(syms + [Symbol(ts[i + 1].text, count, true)], -12);
    var ps := ParseParams(ts, c0, i + 3);
    var c := Scope(ps.value.scope.syms, 0);
    var fn := ParseFunction(ts, syms, count, i).value.fn;
    ParamsNumbered(ts, c0, i + 3);
    assert |c.syms| == |c0.syms| + |fn.params|;
    forall k | 0 <= k < |fn.params| ensures c.syms[|c.syms| - |fn.params| + k] == Symbol(fn.params[k], ParamSlot(k), false) {
      assert c.syms[|c0.syms| + k] == Symbol(fn.params[k], -12 - 4 * k, false);
    }
    ParamsGood(c.syms, fn.params, |fn.params|);
    assert c.syms[..|c.syms|] == c.syms && fn.params[..|fn.params|] == fn.params;
    assert ScopeGood(c, NameSet(fn.params));
    BlockBound(ts, c, ps.next);
    AllGrow(fn.body.value, c, FirstText(ts));
    AllGood(fn.body.value, c, FirstText(ts), NameSet(fn.params), fn.localBytes);
    HeadGood(fn.body.value, fn.localBytes);
  }

  lemma HeadGood(ss: STrees, n: nat)
    requires ss.STCons? && ScalarAll(ss) && GoodStmts(LowerAll(ss), n)
    ensures GoodStmt(LowerHead(ss), n)
  {
  }
}
