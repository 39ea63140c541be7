/**
 Block scope. The parser never drops a symbol, so that a name stands for the latest
 declaration read before it; in C it stands for the innermost one whose block is
 still open. When the two are the same.
 */
module Scoping {
  import opened Options
  import opened Ast
  import opened Parser
  import opened StatementPrinting
  import opened Slots
  import opened Lowering

  /** A declaration in force, with its slot. */
  datatype Declared = Declared(name: string, slot: int)

  /** Slot of the innermost declaration of `name` in force. */
  function Seen(vis: seq<Declared>, name: string): Option<int>
    decreases |vis|
  {
    if vis == [] then None
    else if vis[|vis| - 1].name == name then Some(vis[|vis| - 1].slot)
    else Seen(vis[..|vis| - 1], name)
  }

  /** Declarations in force behind a statement: only a declaration itself adds one. */
  function SeenAfter(s: STree, vis: seq<Declared>): seq<Declared> {
    if s.SDecl? then vis + [Declared(s.name, s.slot)] else vis
  }

  function SeenAfterAll(ss: STrees, vis: seq<Declared>): seq<Declared> {
    if ss.STNil? then vis else SeenAfterAll(ss.next, SeenAfter(ss.head, vis))
  }

  /** Every name has the slot of the declaration that C finds for it. */
  predicate Resolves(t: Tree, vis: seq<Declared>) {
    match t
    case Lit(_) => true
    case Id(name, at) => Seen(vis, name).Some? && at == Local(Seen(vis, name).value)
    case Node(_, l, r) => Resolves(l, vis) && Resolves(r, vis)
    case Deref(e) => Resolves(e, vis)
    case CallT(_, args) => ResolvesArgs(args, vis)
  }

  predicate ResolvesArgs(ts: Trees, vis: seq<Declared>) {
    ts.TCons? ==> Resolves(ts.head, vis) && ResolvesArgs(ts.next, vis)
  }

  predicate ResolvesS(s: STree, vis: seq<Declared>) {
    match s
    case SExpr(e) => Resolves(e, vis)
    case SAssign(_, l, r) => Resolves(l, vis) && Resolves(r, vis)
    case SDecl(_, _, init) => init.Some? ==> Resolves(init.value, SeenAfter(s, vis))
    case SIf(e, t, f) => Resolves(e, vis) && ResolvesAll(t, vis) && (f.Some? ==> ResolvesAll(f.value, vis))
    case SWhile(e, b) => Resolves(e, vis) && ResolvesAll(b, vis)
    case SFor(a, e, p, b) =>
      var inner := SeenAfterAll(a, vis);
      ResolvesAll(a, vis) && Resolves(e, inner) && ResolvesS(p, inner) && ResolvesAll(b, inner)
    case SBlock(items) => ResolvesAll(items, vis)
    case SReturn(v) => v.Some? ==> Resolves(v.value, vis)
  }

  predicate ResolvesAll(ss: STrees, vis: seq<Declared>) {
    ss.STCons? ==> ResolvesS(ss.head, vis) && ResolvesAll(ss.next, SeenAfter(ss.head, vis))
  }

  // ----- names whose latest declaration is out of force -----

  function DeclNames(s: STree): set<string> {
    match s
    case SDecl(name, _, _) => {name}
    case SIf(_, t, f) => DeclNamesAll(t) + (if f.Some? then DeclNamesAll(f.value) else {})
    case SWhile(_, b) => DeclNamesAll(b)
    case SFor(a, _, _, b) => DeclNamesAll(a) + DeclNamesAll(b)
    case SBlock(items) => DeclNamesAll(items)
    case _ => {}
  }

  function DeclNamesAll(ss: STrees): set<string> {
    if ss.STNil? then {} else DeclNames(ss.head) + DeclNamesAll(ss.next)
  }

  /** Names last declared in a block, branch or loop that is over. */
  function StaleAfter(s: STree, stale: set<string>): set<string> {
    if s.SDecl? then stale - {s.name} else stale + DeclNames(s)
  }

  function StaleAfterAll(ss: STrees, stale: set<string>): set<string> {
    if ss.STNil? then stale else StaleAfterAll(ss.next, StaleAfter(ss.head, stale))
  }

  predicate Fresh(t: Tree, stale: set<string>) {
    match t
    case Lit(_) => true
    case Id(name, _) => name !in stale
    case Node(_, l, r) => Fresh(l, stale) && Fresh(r, stale)
    case Deref(e) => Fresh(e, stale)
    case CallT(_, args) => FreshArgs(args, stale)
  }

  predicate FreshArgs(ts: Trees, stale: set<string>) {
    ts.TCons? ==> Fresh(ts.head, stale) && FreshArgs(ts.next, stale)
  }

  /** No name is used whose latest declaration was in a block that is over. */
  predicate FreshS(s: STree, stale: set<string>) {
    match s
    case SExpr(e) => Fresh(e, stale)
    case SAssign(_, l, r) => Fresh(l, stale) && Fresh(r, stale)
    case SDecl(_, _, init) => init.Some? ==> Fresh(init.value, StaleAfter(s, stale))
    case SIf(e, t, f) => Fresh(e, stale) && FreshAll(t, stale) && (f.Some? ==> FreshAll(f.value, stale + DeclNamesAll(t)))
    case SWhile(e, b) => Fresh(e, stale) && FreshAll(b, stale)
    case SFor(a, e, p, b) =>
      var inner := StaleAfterAll(a, stale);
      FreshAll(a, stale) && Fresh(e, inner) && FreshS(p, inner) && FreshAll(b, inner)
    case SBlock(items) => FreshAll(items, stale)
    case SReturn(v) => v.Some? ==> Fresh(v.value, stale)
  }

  predicate FreshAll(ss: STrees, stale: set<string>) {
    ss.STCons? ==> FreshS(ss.head, stale) && FreshAll(ss.next, StaleAfter(ss.head, stale))
  }

  // ----- the two views of a point in the text -----

  predicate Agrees(c: Scope, vis: seq<Declared>, stale: set<string>, name: string) {
    var at := Bind(c.syms, name);
    at.Local? && (name !in stale <==> Seen(vis, name) == Some(at.off))
  }

  ghost predicate Tracked(c: Scope, vis: seq<Declared>, stale: set<string>, known: set<string>) {
    && (forall name :: name in known ==> Agrees(c, vis, stale, name))
    && forall i :: 0 <= i < |vis| ==> vis[i].slot < c.bp
  }

  lemma {:induction false} SeenSlot(vis: seq<Declared>, name: string)
    ensures Seen(vis, name).Some? ==> exists i :: 0 <= i < |vis| && vis[i] == Declared(name, Seen(vis, name).value)
    decreases |vis|
  {
    if vis != [] {
      var n := |vis| - 1;
      if vis[n].name == name {
        assert vis[n] == Declared(name, Seen(vis, name).value);
      } else {
        SeenSlot(vis[..n], name);
        if Seen(vis, name).Some? {
          var i :| 0 <= i < n && vis[..n][i] == Declared(name, Seen(vis, name).value);
          assert vis[i] == Declared(name, Seen(vis, name).value);
        }
      }
    }
  }

  lemma SeenNext(vis: seq<Declared>, d: Declared, name: string)
    ensures Seen(vis + [d], name) == if d.name == name then Some(d.slot) else Seen(vis, name)
  {
    assert (vis + [d])[..|vis|] == vis;
  }

  lemma DeclareTracked(c: Scope, vis: seq<Declared>, stale: set<string>, known: set<string>, x: string)
    requires Tracked(c, vis, stale, known)
    ensures Tracked(Declare(c, x), vis + [Declared(x, c.bp)], stale - {x}, known + {x})
  {
    hide Bind, Seen;
    var k, next := Declare(c, x), vis + [Declared(x, c.bp)];
    forall name | name in known + {x} ensures Agrees(k, next, stale - {x}, name) {
      DeclareBinds(c, x, name);
      SeenNext(vis, Declared(x, c.bp), name);
      if name != x { assert Agrees(c, vis, stale, name); }
    }
  }

  /** Which names a list declares, and that their slots are new. */
  lemma {:induction false} LastDeclFacts(ss: STrees, name: string)
    ensures name in DeclNamesAll(ss) <==> LastDeclAll(ss, name).Some?
    ensures LastDeclAll(ss, name).Some? ==> LastDeclAll(ss, name).value in DeclSlotsAll(ss)
    decreases ss
  {
    hide DeclNames, LastDecl, DeclSlots;
    if ss.STCons? {
      LastDeclOne(ss.head, name);
      LastDeclFacts(ss.next, name);
    }
  }

  lemma {:induction false} LastDeclOne(s: STree, name: string)
    ensures name in DeclNames(s) <==> LastDecl(s, name).Some?
    ensures LastDecl(s, name).Some? ==> LastDecl(s, name).value in DeclSlots(s)
    decreases s
  {
    match s
    case SIf(_, t, f) => LastDeclFacts(t, name); if f.Some? { LastDeclFacts(f.value, name); }
    case SWhile(_, b) => LastDeclFacts(b, name);
    case SFor(a, _, _, b) => LastDeclFacts(a, name); LastDeclFacts(b, name);
    case SBlock(items) => LastDeclFacts(items, name);
    case _ =>
  }

  lemma {:induction false} KnownNames(s: STree, known: set<string>)
    ensures Known(s, known) == known + DeclNames(s)
    decreases s
  {
    match s
    case SIf(_, t, f) => KnownNamesAll(t, known); if f.Some? { KnownNamesAll(f.value, KnownAll(t, known)); }
    case SWhile(_, b) => KnownNamesAll(b, known);
    case SFor(a, _, _, b) => KnownNamesAll(a, known); KnownNamesAll(b, KnownAll(a, known));
    case SBlock(items) => KnownNamesAll(items, known);
    case _ =>
  }

  lemma {:induction false} KnownNamesAll(ss: STrees, known: set<string>)
    ensures KnownAll(ss, known) == known + DeclNamesAll(ss)
    decreases ss
  {
    hide Known, DeclNames;
    if ss.STCons? {
      KnownNames(ss.head, known);
      KnownNamesAll(ss.next, Known(ss.head, known));
    }
  }

  /** Leaving a block, branch or loop: what it declared is out of force. */
  lemma LeaveTracked(ss: STrees, c: Scope, first: string, vis: seq<Declared>, stale: set<string>, known: set<string>)
    requires BoundAll(ss, c, first) && Tracked(c, vis, stale, known)
    ensures Tracked(AfterAll(ss, c), vis, stale + DeclNamesAll(ss), KnownAll(ss, known))
    ensures KnownAll(ss, known) == known + DeclNamesAll(ss) && c.bp <= AfterAll(ss, c).bp
  {
    hide Bind, Seen, BoundAll, AfterAll, DeclNamesAll, LastDeclAll, DeclSlotsAll, KnownAll;
    SlotsAreCellsAll(ss, c, first);
    KnownNamesAll(ss, known);
    forall name | name in known + DeclNamesAll(ss) ensures Agrees(AfterAll(ss, c), vis, stale + DeclNamesAll(ss), name) {
      MeaningAfterAll(ss, c, first, name);
      LastDeclFacts(ss, name);
      if name in DeclNamesAll(ss) {
        SeenSlot(vis, name);
      } else {
        assert Agrees(c, vis, stale, name);
      }
    }
  }

  // ----- both conditions, side by side -----

  lemma {:induction false} ExprScoped(t: Tree, c: Scope, vis: seq<Declared>, stale: set<string>, known: set<string>)
    requires Bound(t, c.syms) && Uses(t, known) && Tracked(c, vis, stale, known)
    ensures Resolves(t, vis) <==> Fresh(t, stale)
    decreases t
  {
    hide Tracked, Bind, Seen;
    match t
    case Id(name, _) => TrackedName(c, vis, stale, known, name);
    case Node(_, l, r) =>
      ExprScoped(l, c, vis, stale, known);
      ExprScoped(r, c, vis, stale, known);
    case CallT(_, args) => ArgsScoped(args, c, vis, stale, known);
    case _ =>
  }

  lemma TrackedName(c: Scope, vis: seq<Declared>, stale: set<string>, known: set<string>, name: string)
    requires Tracked(c, vis, stale, known) && name in known
    ensures Agrees(c, vis, stale, name)
  {
  }

  lemma {:induction false} ArgsScoped(ts: Trees, c: Scope, vis: seq<Declared>, stale: set<string>, known: set<string>)
    requires BoundArgs(ts, c.syms) && UsesArgs(ts, known) && Tracked(c, vis, stale, known)
    ensures ResolvesArgs(ts, vis) <==> FreshArgs(ts, stale)
    decreases ts
  {
    hide Tracked, Bound, Uses, Resolves, Fresh;
    if ts.TCons? {
      ExprScoped(ts.head, c, vis, stale, known);
      ArgsScoped(ts.next, c, vis, stale, known);
    }
  }

  lemma {:induction false} AllScoped(ss: STrees, c: Scope, first: string, vis: seq<Declared>, stale: set<string>, known: set<string>)
    requires BoundAll(ss, c, first) && UsesAll(ss, known) && Tracked(c, vis, stale, known)
    ensures ResolvesAll(ss, vis) <==> FreshAll(ss, stale)
    ensures Tracked(AfterAll(ss, c), SeenAfterAll(ss, vis), StaleAfterAll(ss, stale), KnownAll(ss, known))
    decreases ss, 2
  {
    hide Tracked, BoundS, UsesS, ResolvesS, FreshS, SeenAfter, StaleAfter, After, Known;
    if ss.STCons? {
      var s := ss.head;
      StmtScoped(s, c, first, vis, stale, known);
      AllScoped(ss.next, After(s, c), first, SeenAfter(s, vis), StaleAfter(s, stale), Known(s, known));
    }
  }

  lemma {:induction false} StmtScoped(s: STree, c: Scope, first: string, vis: seq<Declared>, stale: set<string>, known: set<string>)
    requires BoundS(s, c, first) && UsesS(s, known) && Tracked(c, vis, stale, known)
    ensures ResolvesS(s, vis) <==> FreshS(s, stale)
    ensures Tracked(After(s, c), SeenAfter(s, vis), StaleAfter(s, stale), Known(s, known))
    decreases s, 1
  {
    hide Tracked, Bound, Uses, Resolves, Fresh;
    match s
    case SExpr(e) => ExprScoped(e, c, vis, stale, known); SameStale(stale);
    case SAssign(_, l, r) => ExprScoped(l, c, vis, stale, known); ExprScoped(r, c, vis, stale, known); SameStale(stale);
    case SDecl(name, _, init) =>
      DeclareTracked(c, vis, stale, known, name);
      if init.Some? { ExprScoped(init.value, Declare(c, name), SeenAfter(s, vis), StaleAfter(s, stale), known + {name}); }
    case SIf(_, _, _) => IfScoped(s, c, first, vis, stale, known);
    case SWhile(e, b) =>
      ExprScoped(e, c, vis, stale, known);
      AllScoped(b, c, first, vis, stale, known);
      LeaveTracked(b, c, first, vis, stale, known);
    case SFor(_, _, _, _) => ForScoped(s, c, first, vis, stale, known);
    case SBlock(items) =>
      AllScoped(items, c, first, vis, stale, known);
      LeaveTracked(items, c, first, vis, stale, known);
    case SReturn(v) => if v.Some? { ExprScoped(v.value, c, vis, stale, known); } SameStale(stale);
  }

  lemma SameStale(stale: set<string>)
    ensures stale + {} == stale
  {
  }

  lemma {:induction false} IfScoped(s: STree, c: Scope, first: string, vis: seq<Declared>, stale: set<string>, known: set<string>)
    requires s.SIf? && BoundS(s, c, first) && UsesS(s, known) && Tracked(c, vis, stale, known)
    ensures ResolvesS(s, vis) <==> FreshS(s, stale)
    ensures Tracked(After(s, c), SeenAfter(s, vis), StaleAfter(s, stale), Known(s, known))
    decreases s, 0
  {
    hide Tracked, Bound, Uses, Resolves, Fresh, ResolvesAll, FreshAll, BoundAll, UsesAll, KnownAll, DeclNamesAll, AfterAll;
    var SIf(e, t, f) := s;
    ExprScoped(e, c, vis, stale, known);
    AllScoped(t, c, first, vis, stale, known);
    LeaveTracked(t, c, first, vis, stale, known);
    if f.Some? {
      var k, left := AfterAll(t, c), stale + DeclNamesAll(t);
      AllScoped(f.value, k, first, vis, left, KnownAll(t, known));
      LeaveTracked(f.value, k, first, vis, left, KnownAll(t, known));
      assert left + DeclNamesAll(f.value) == StaleAfter(s, stale);
    } else {
      assert stale + DeclNamesAll(t) == StaleAfter(s, stale);
    }
  }

  lemma {:induction false} ForScoped(s: STree, c: Scope, first: string, vis: seq<Declared>, stale: set<string>, known: set<string>)
    requires s.SFor? && BoundS(s, c, first) && UsesS(s, known) && Tracked(c, vis, stale, known)
    ensures ResolvesS(s, vis) <==> FreshS(s, stale)
    ensures Tracked(After(s, c), SeenAfter(s, vis), StaleAfter(s, stale), Known(s, known))
    decreases s, 0
  {
    hide Tracked, Bound, Uses, Resolves, Fresh, ResolvesAll, FreshAll, BoundAll, UsesAll, KnownAll, DeclNamesAll, AfterAll, SeenAfterAll, StaleAfterAll;
    var SFor(a, e, p, b) := s;
    var k, inner, left, more := AfterAll(a, c), SeenAfterAll(a, vis), StaleAfterAll(a, stale), KnownAll(a, known);
    AllScoped(a, c, first, vis, stale, known);
    ExprScoped(e, k, inner, left, more);
    if p.SExpr? {
      ExprScoped(p.e, k, inner, left, more);
    } else {
      ExprScoped(p.left, k, inner, left, more);
      ExprScoped(p.right, k, inner, left, more);
    }
    AllScoped(b, k, first, inner, left, more);
    LeaveTracked(a, c, first, vis, stale, known);
    LeaveTracked(b, k, first, vis, stale + DeclNamesAll(a), more);
    assert stale + DeclNamesAll(a) + DeclNamesAll(b) == StaleAfter(s, stale);
  }

  // ----- functions -----

  function ParamDecls(names: seq<string>, n: nat): (vis: seq<Declared>)
    requires n <= |names|
    ensures |vis| == n && forall k :: 0 <= k < n ==> vis[k] == Declared(names[k], ParamSlot(k))
  {
    seq(n, k requires 0 <= k < n => Declared(names[k], ParamSlot(k)))
  }

  /** The scope a function's body is read in: its parameters come last. */
  predicate BodyScope(c: Scope, names: seq<string>) {
    && c.bp == 0 && |c.syms| >= |names|
    && forall k :: 0 <= k < |names| ==> c.syms[|c.syms| - |names| + k] == Symbol(names[k], ParamSlot(k), false)
  }

  lemma {:induction false} ParamsSeen(c: Scope, names: seq<string>, n: nat, name: string)
    requires BodyScope(c, names) && n <= |names| && name in names[..n]
    ensures var at := Bind(c.syms[..|c.syms| - |names| + n], name);
            at.Local? && Seen(ParamDecls(names, n), name) == Some(at.off)
    decreases n
  {
    var m := |c.syms| - |names| + n;
    var syms := c.syms[..m];
    assert syms[..m - 1] == c.syms[..m - 1] && syms[m - 1] == Symbol(names[n - 1], ParamSlot(n - 1), false);
    assert ParamDecls(names, n) == ParamDecls(names, n - 1) + [Declared(names[n - 1], ParamSlot(n - 1))];
    SeenNext(ParamDecls(names, n - 1), Declared(names[n - 1], ParamSlot(n - 1)), name);
    if names[n - 1] != name { ParamsSeen(c, names, n - 1, name); }
  }

  lemma ParamsTracked(c: Scope, names: seq<string>)
    requires BodyScope(c, names)
    ensures Tracked(c, ParamDecls(names, |names|), {}, NameSet(names))
  {
    hide Bind, Seen;
    var vis := ParamDecls(names, |names|);
    forall name | name in NameSet(names) ensures Agrees(c, vis, {}, name) {
      assert names[..|names|] == names && c.syms[..|c.syms|] == c.syms;
      ParamsSeen(c, names, |names|, name);
    }
  }

  /** The scope in which the parser read the body of this function. */
  ghost predicate ReadIn(fn: FuncTree, c: Scope, first: string) {
    fn.body.Some? && fn.body.value.STCons? && BodyScope(c, fn.params) && BoundAll(fn.body.value, c, first)
  }

  lemma FunctionReadIn(ts: seq<Token>, syms: seq<Symbol>, count: nat, i: nat) returns (c: Scope)
    requires Ended(ts) && i < |ts| && ts[i].Type?
    requires ts[i + 1].Ident? && ts[i + 2] == LPar ==> ParamsEnd(ts, i + 3)
    requires ParseFunction(ts, syms, count, i).Ok? && ParseFunction(ts, syms, count, i).value.fn.body.Some?
    ensures ReadIn(ParseFunction(ts, syms, count, i).value.fn, c, FirstText(ts))
  {
    hide ParseBlock, ParseParams, BoundAll, AfterAll;
    var c0 := Scope(syms + [Symbol(ts[i + 1].text, count, true)], -12);
    var ps := ParseParams(ts, c0, i + 3);
    c := Scope(ps.value.scope.syms, 0);
    var fn := ParseFunction(ts, syms, count, i).value.fn;
    ParamsNumbered(ts, c0, i + 3);
    forall k | 0 <= k < |fn.params| ensures c.syms[|c.syms| - |fn.params| + k] == Symbol(fn.params[k], ParamSlot(k), false) {
      assert c.syms[|c0.syms| + k] == Symbol(fn.params[k], -12 - 4 * k, false);
    }
    BlockBound(ts, c, ps.next);
  }

  /** In a parsed function that declares its variables before use, every name has the
      slot of the declaration C finds for it exactly when no name is used whose latest
      declaration was in a block that is over. */
  lemma ScopedAsC(fn: FuncTree, c: Scope, first: string)
    requires ReadIn(fn, c, first) && UsesAll(fn.body.value, NameSet(fn.params))
    ensures ResolvesAll(fn.body.value, ParamDecls(fn.params, |fn.params|)) <==> FreshAll(fn.body.value, {})
  {
    hide Tracked, BoundAll, UsesAll, ResolvesAll, FreshAll;
    ParamsTracked(c, fn.params);
    AllScoped(fn.body.value, c, first, ParamDecls(fn.params, |fn.params|), {}, NameSet(fn.params));
  }
}
