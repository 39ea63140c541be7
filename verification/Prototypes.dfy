/** Prototypes. The generator emits an empty function for a prototype and registers it
    under its name, so that every call of the name goes there when the prototype comes
    first. */
module Prototypes {
  import opened Words
  import opened Memory
  import opened Machine
  import opened Options
  import opened Ast
  import opened Layout
  import opened Codegen
  import opened Patching
  import opened Placement
  import opened Leftovers
  import opened Compiler
  import opened Simulation

  // ----- prototypes are empty functions -----

  function Empty(): Stmt {
    Block(SNil)
  }

  function Stub(f: Func): Func {
    if f.body.Some? then f else f.(body := Some(Empty()))
  }

  function Stubbed(p: Program): (q: Program)
    ensures |q| == |p| && forall i :: 0 <= i < |p| ==> q[i] == Stub(p[i])
  {
    seq(|p|, i requires 0 <= i < |p| => Stub(p[i]))
  }

  lemma {:induction false} EmptyFacts(g: Gen, funcs: seq<FuncSym>, a: int)
    ensures GenStmt(g, Empty()) == g && StmtCost(funcs, Empty()) == NOTHING && StmtSize(Empty()) == 0 && StmtJumps(funcs, Empty(), a) == []
  {
    assert GenItems(g, SNil) == g && ItemsCost(funcs, SNil) == NOTHING && ItemsSize(SNil) == 0 && ItemsJumps(funcs, SNil, a) == [];
  }

  lemma StubCode(g: Gen, f: Func)
    ensures GenFunc(g, Stub(f)) == GenFunc(g, f)
  {
    hide EmitPrologue, EmitEpilogue, RegisterFunc, GenStmt, Empty;
    if f.body.None? { EmptyFacts(EmitPrologue(RegisterFunc(g, f.name), f.localBytes), [], 0); }
  }

  lemma StubCost(f: Func, funcs: seq<FuncSym>, a: int)
    ensures FuncCost(funcs, Stub(f)) == FuncCost(funcs, f) && Stub(f).body.Some?
    ensures StmtJumps(funcs, Stub(f).body.value, a) == if f.body.Some? then StmtJumps(funcs, f.body.value, a) else []
  {
    hide StmtCost, StmtJumps, Empty, Plus;
    if f.body.None? { EmptyFacts(Begin([], []), funcs, a); }
  }

  lemma StubSize(f: Func)
    ensures FuncSize(Stub(f)) == FuncSize(f) && Stub(f).name == f.name && Stub(f).body.Some?
  {
    hide StmtSize, Empty;
    if f.body.None? { EmptyFacts(Begin([], []), [], 0); }
  }

  lemma {:induction false} StubbedSizes(p: Program, n: nat)
    requires n <= |p|
    ensures FuncsSize(Stubbed(p), n) == FuncsSize(p, n) && Symbols(Stubbed(p), n) == Symbols(p, n)
    decreases n
  {
    hide FuncSize, Stub, Trunc;
    if n > 0 {
      StubbedSizes(p, n - 1);
      StubSize(p[n - 1]);
    }
  }

  lemma StubbedStart(p: Program, k: nat)
    requires k < |p|
    ensures BodyStart(Stubbed(p), k) == BodyStart(p, k)
  {
    hide FuncsSize;
    StubbedSizes(p, k);
  }

  lemma {:induction false} StubbedCosts(p: Program, n: nat)
    requires n <= |p|
    ensures ProgramCost(Stubbed(p), n) == ProgramCost(p, n) && ProgramJumps(Stubbed(p), n) == ProgramJumps(p, n)
    decreases n
  {
    hide FuncsSize, Symbols, FuncCost, StmtJumps, Stub, Plus, GenFunc, FuncSize, BodyStart;
    if n > 0 {
      StubSize(p[n - 1]);
      StubbedStart(p, n - 1);
      StubbedCosts(p, n - 1);
      StubbedSizes(p, n);
      StubbedSizes(p, n - 1);
      StubCost(p[n - 1], Symbols(p, n), BodyStart(p, n - 1));
    }
  }

  lemma {:induction false} StubbedCode(g: Gen, p: Program, n: nat)
    requires n <= |p|
    ensures GenFuncs(g, Stubbed(p), n) == GenFuncs(g, p, n)
    decreases n
  {
    hide GenFunc, Stub;
    if n > 0 {
      StubbedCode(g, p, n - 1);
      StubCode(GenFuncs(g, p, n - 1), p[n - 1]);
    }
  }

  lemma StubbedFuncs(g: Gen, p: Program, n: nat)
    requires n <= |p|
    ensures var q := Stubbed(p);
            && GenFuncs(g, q, n) == GenFuncs(g, p, n) && FuncsSize(q, n) == FuncsSize(p, n)
            && Symbols(q, n) == Symbols(p, n) && ProgramCost(q, n) == ProgramCost(p, n) && ProgramJumps(q, n) == ProgramJumps(p, n)
  {
    hide *;
    StubbedSizes(p, n);
    StubbedCosts(p, n);
    StubbedCode(g, p, n);
  }

  lemma {:induction false} SameNames(q: Program, p: Program, name: string)
    requires |q| == |p| && forall i :: 0 <= i < |p| ==> q[i].name == p[i].name
    ensures Find(q, name) == Find(p, name)
    decreases |p|
  {
    if p != [] && p[0].name != name { SameNames(q[1..], p[1..], name); }
  }

  lemma StubbedLimits(table: seq<Fixup>, p: Program)
    ensures WithinLimits(Stubbed(p)) <==> WithinLimits(p)
    ensures HarmlessTable(table, Stubbed(p)) <==> HarmlessTable(table, p)
  {
    hide FuncsSize, Symbols, ProgramCost, ProgramJumps, Padding, GenFuncs, Find;
    var q := Stubbed(p);
    StubbedFuncs(Begin([], []), p, |p|);
    assert forall i :: 0 <= i < |p| ==> q[i].name == p[i].name;
    var js := ProgramJumps(p, |p|);
    forall i | 0 <= i < |js| && i < |table| ensures Harmless(table[i], js[i], q) <==> Harmless(table[i], js[i], p) {
      SameNames(q, p, table[i].funcName);
    }
  }

  lemma StubbedEntry(p: Program, name: string)
    ensures Find(Stubbed(p), name) == Find(p, name)
    ensures Find(p, name) < |p| ==> EntryOf(Stubbed(p), name) == EntryOf(p, name)
  {
    hide FuncsSize, Symbols, ProgramCost, ProgramJumps, Find, GenFuncs;
    SameNames(Stubbed(p), p, name);
    if Find(p, name) < |p| { StubbedFuncs(Begin([], []), p, Find(p, name)); }
  }

  /** A program with prototypes gets the very image of the program that has an empty
      function in the place of each. */
  lemma StubbedImage(header: seq<byte>, table: seq<Fixup>, p: Program)
    ensures var q := Stubbed(p);
            && GenProgram(header, table, q) == GenProgram(header, table, p)
            && (WithinLimits(q) <==> WithinLimits(p)) && (HarmlessTable(table, q) <==> HarmlessTable(table, p))
            && forall name :: Find(q, name) == Find(p, name) && (Find(p, name) < |p| ==> EntryOf(q, name) == EntryOf(p, name))
  {
    hide GenFuncs, FuncsSize, Symbols, ProgramCost, ProgramJumps, Find, Padding, EntryOf, WithinLimits, HarmlessTable, Begin;
    StubbedFuncs(Begin(header, table), p, |p|);
    StubbedLimits(table, p);
    forall name ensures Find(Stubbed(p), name) == Find(p, name) && (Find(p, name) < |p| ==> EntryOf(Stubbed(p), name) == EntryOf(p, name)) {
      StubbedEntry(p, name);
    }
  }

  // ----- what C means -----

  /** In C a prototype only announces the definition. */
  function Defined(p: Program): Program {
    if p == [] then [] else (if p[0].body.Some? then [p[0]] else []) + Defined(p[1..])
  }

  /** The first function of a name is a prototype, and there is a definition too. */
  predicate Shadowed(p: Program, name: string) {
    Find(p, name) < |p| && p[Find(p, name)].body.None? && Find(Defined(p), name) < |Defined(p)|
  }

  lemma {:induction false} DefinedFind(p: Program, name: string)
    ensures var q, k := Defined(p), Find(Defined(p), name);
            k < |q| ==> q[k].body.Some? && Find(p, name) < |p|
                        && (p[Find(p, name)].body.Some? ==> p[Find(p, name)] == q[k])
    decreases |p|
  {
    hide Find;
    if p != [] {
      var q, rest := Defined(p), Defined(p[1..]);
      DefinedFind(p[1..], name);
      FindStep(p[0], p[1..], name);
      assert [p[0]] + p[1..] == p;
      if p[0].body.Some? {
        FindStep(p[0], rest, name);
      } else {
        assert [] + rest == rest;
      }
    } else {
      FindNone(name);
    }
  }

  lemma FindNone(name: string)
    ensures Find([], name) == 0
  {
  }

  lemma FindStep(f: Func, rest: Program, name: string)
    ensures Find([f] + rest, name) == if f.name == name then 0 else 1 + Find(rest, name)
  {
    assert ([f] + rest)[1..] == rest;
  }

  /** The function of that name never comes to a return statement. */
  ghost predicate NoValue(q: Program, name: string) {
    forall fuel: nat, vals: seq<int> :: !Apply(q, fuel, name, vals).V?
  }

  /** Every function of `q` stands in `p`, or an empty one does for a function that
      gives no value. */
  ghost predicate Serves(p: Program, q: Program) {
    forall name :: Find(q, name) < |q| && q[Find(q, name)].body.Some? ==>
      && Find(p, name) < |p| && p[Find(p, name)].body.Some?
      && (p[Find(p, name)].body == q[Find(q, name)].body || (p[Find(p, name)].body == Some(Empty()) && NoValue(q, name)))
  }

  lemma {:induction false} EvalServed(p: Program, q: Program, fuel: nat, env: Env, e: Expr)
    requires Serves(p, q) && !Eval(q, fuel, env, e).Fail?
    ensures Eval(p, fuel, env, e) == Eval(q, fuel, env, e)
    decreases fuel, e, 0
  {
    hide Serves, Apply, Arith;
    match e
    case Bin(_, l, r) =>
      EvalServed(p, q, fuel, env, l);
      EvalServed(p, q, fuel, env, r);
    case CallE(name, args) =>
      ArgsServed(p, q, fuel, env, args);
      ApplyServed(p, q, fuel - 1, name, EvalArgs(q, fuel, env, args).value);
    case _ =>
  }

  lemma {:induction false} ArgsServed(p: Program, q: Program, fuel: nat, env: Env, es: Exprs)
    requires Serves(p, q) && EvalArgs(q, fuel, env, es).Some?
    ensures EvalArgs(p, fuel, env, es) == EvalArgs(q, fuel, env, es)
    decreases fuel, es, 0
  {
    hide Serves, Eval;
    if es.ECons? {
      ArgsServed(p, q, fuel, env, es.next);
      EvalServed(p, q, fuel, env, es.head);
    }
  }

  lemma {:induction false} ApplyServed(p: Program, q: Program, fuel: nat, name: string, vals: seq<int>)
    requires Serves(p, q) && !Apply(q, fuel, name, vals).Fail?
    ensures Apply(p, fuel, name, vals) == Apply(q, fuel, name, vals)
    decreases fuel
  {
    hide Exec;
    var body, env := q[Find(q, name)].body.value, Env(map[], vals);
    if p[Find(p, name)].body == Some(body) {
      ExecServed(p, q, fuel, env, body);
    } else {
      EmptyRuns(p, fuel, env);
      assert !Apply(q, fuel, name, vals).V?;
    }
  }

  lemma EmptyRuns(p: Program, fuel: nat, env: Env)
    ensures Exec(p, fuel, env, Empty()) == Normal(env)
  {
    assert ExecItems(p, fuel, env, SNil) == Normal(env);
  }

  lemma {:induction false} TruthServed(p: Program, q: Program, fuel: nat, env: Env, c: Expr)
    requires Serves(p, q) && Truth(q, fuel, env, c).Some?
    ensures Truth(p, fuel, env, c) == Truth(q, fuel, env, c)
    decreases fuel, c, 1
  {
    hide Serves, Eval;
    if c.Bin? {
      EvalServed(p, q, fuel, env, c.left);
      EvalServed(p, q, fuel, env, c.right);
    } else {
      EvalServed(p, q, fuel, env, c);
    }
  }

  lemma {:induction false} ExecServed(p: Program, q: Program, fuel: nat, env: Env, s: Stmt)
    requires Serves(p, q) && !Exec(q, fuel, env, s).Stuck?
    ensures Exec(p, fuel, env, s) == Exec(q, fuel, env, s)
    decreases fuel, s, 0
  {
    hide Serves, Eval, Truth, ExecItems, WriteSlot;
    match s
    case ExprStmt(e) => EvalServed(p, q, fuel, env, e);
    case Decl(_, _) =>
    case Assign(_, _, rhs) => EvalServed(p, q, fuel, env, rhs);
    case If(c, t, f) =>
      TruthServed(p, q, fuel, env, c);
      if Truth(q, fuel, env, c).value {
        ExecServed(p, q, fuel, env, t);
      } else if f.Some? {
        ExecServed(p, q, fuel, env, f.value);
      }
    case While(c, body) =>
      TruthServed(p, q, fuel, env, c);
      if Truth(q, fuel, env, c).value {
        ExecServed(p, q, fuel, env, body);
        var o := Exec(q, fuel, env, body);
        if o.Normal? && fuel > 0 { ExecServed(p, q, fuel - 1, o.env, s); }
      }
    case Block(items) => ItemsServed(p, q, fuel, env, items);
    case Return(v) => if v.Some? { EvalServed(p, q, fuel, env, v.value); }
  }

  lemma {:induction false} ItemServed(p: Program, q: Program, fuel: nat, env: Env, s: Stmt)
    requires Serves(p, q) && !ExecItem(q, fuel, env, s).Stuck?
    ensures ExecItem(p, fuel, env, s) == ExecItem(q, fuel, env, s)
    decreases fuel, s, 1
  {
    hide Serves, Eval, Exec, WriteSlot;
    match s
    case Decl(_, None) =>
    case Decl(_, Some(e)) => EvalServed(p, q, fuel, env, e);
    case ExprStmt(Var(_)) =>
    case _ => ExecServed(p, q, fuel, env, s);
  }

  lemma {:induction false} ItemsServed(p: Program, q: Program, fuel: nat, env: Env, ss: Stmts)
    requires Serves(p, q) && !ExecItems(q, fuel, env, ss).Stuck?
    ensures ExecItems(p, fuel, env, ss) == ExecItems(q, fuel, env, ss)
    decreases fuel, ss, 0
  {
    hide Serves, ExecItem;
    if ss.SCons? {
      ItemServed(p, q, fuel, env, ss.head);
      var o := ExecItem(q, fuel, env, ss.head);
      if o.Normal? { ItemsServed(p, q, fuel, o.env, ss.next); }
    }
  }

  // ----- when a prototype harms -----

  /** Every call means what it means without the prototypes. */
  ghost predicate MeansDefined(p: Program) {
    forall fuel: nat, name: string, vals: seq<int> ::
      !Apply(Defined(p), fuel, name, vals).Fail? ==> Apply(Stubbed(p), fuel, name, vals) == Apply(Defined(p), fuel, name, vals)
  }

  /** A call of a name whose prototype comes first runs the empty function. */
  lemma ShadowedIsEmpty(p: Program, fuel: nat, name: string, vals: seq<int>)
    requires Shadowed(p, name)
    ensures Apply(Stubbed(p), fuel, name, vals) == Void
  {
    hide Exec, Find;
    SameNames(Stubbed(p), p, name);
    EmptyRuns(Stubbed(p), fuel, Env(map[], vals));
  }

  lemma StubbedServes(p: Program)
    requires forall name :: Shadowed(p, name) ==> NoValue(Defined(p), name)
    ensures Serves(Stubbed(p), Defined(p))
  {
    hide NoValue, Find, Defined;
    forall name | Find(Defined(p), name) < |Defined(p)|
      ensures var q, k := Stubbed(p), Find(Stubbed(p), name);
              k < |q| && q[k].body.Some?
              && (q[k].body == Defined(p)[Find(Defined(p), name)].body || (q[k].body == Some(Empty()) && NoValue(Defined(p), name)))
    {
      SameNames(Stubbed(p), p, name);
      DefinedFind(p, name);
    }
  }

  /** Prototypes do no harm exactly when no name has its prototype before a definition
      that ever returns. */
  lemma PrototypesHarmlessIff(p: Program)
    ensures MeansDefined(p) <==> forall name :: Shadowed(p, name) ==> NoValue(Defined(p), name)
  {
    hide Apply, Shadowed, Serves, Stubbed, Defined;
    if forall name :: Shadowed(p, name) ==> NoValue(Defined(p), name) {
      StubbedServes(p);
      forall fuel: nat, name: string, vals: seq<int> | !Apply(Defined(p), fuel, name, vals).Fail?
        ensures Apply(Stubbed(p), fuel, name, vals) == Apply(Defined(p), fuel, name, vals)
      {
        ApplyServed(Stubbed(p), Defined(p), fuel, name, vals);
      }
    }
    if MeansDefined(p) {
      forall name | Shadowed(p, name) ensures NoValue(Defined(p), name) {
        forall fuel: nat, vals: seq<int> ensures !Apply(Defined(p), fuel, name, vals).V? {
          ShadowedIsEmpty(p, fuel, name, vals);
        }
      }
    }
  }

  /** The machine runs a program with prototypes as the program of its definitions,
      when no prototype comes before a definition that returns. */
  lemma PrototypesRun(header: seq<byte>, table: seq<Fixup>, p: Program, base: word,
                      fuel: nat, name: string, vals: seq<int>, m: State) returns (m': State)
    requires |header| == HEADER_SIZE && |table| == MAX_FIXUPS && HarmlessTable(table, p)
    requires GoodProgram(Stubbed(p)) && WithinLimits(p) && base + 0x1_0000 < TWO64
    requires forall other :: Shadowed(p, other) ==> NoValue(Defined(p), other)
    requires !Apply(Defined(p), fuel, name, vals).Fail? && |vals| <= 32 && Find(p, name) < |p|
    requires m.rip == EntryOf(p, name) && m.rsp + 8 + 8 * |vals| < TWO64
    requires m.rsp + 8 >= ApplyDepth(Stubbed(p), fuel, name, vals)
    requires forall k :: 0 <= k < |vals| ==> IsLong(vals[k]) && Load64(m.mem, m.rsp + 8 + 8 * k) == ToWord(vals[k])
    ensures var fin := GenProgram(header, table, p);
            SitesInside(fin, |fin.code|) && Section(fin) >= 0 && Reaches(Image(Linked(fin), base), m, m')
    ensures Left(Image([], base), vals, Apply(Defined(p), fuel, name, vals), m, m')
  {
    hide *;
    StubbedImage(header, table, p);
    StubbedServes(p);
    ApplyServed(Stubbed(p), Defined(p), fuel, name, vals);
    m' := CompiledCallCorrect(header, table, Stubbed(p), base, fuel, name, vals, m);
  }

  /** int f(); int f() { return 1; } : the call gives no value. */
  lemma PrototypeFirst(fuel: nat)
    ensures var p := [Func("f", 0, None), Func("f", 0, Some(Return(Some(Int(1)))))];
            && Shadowed(p, "f") && !MeansDefined(p)
            && Apply(Defined(p), fuel, "f", []) == V(1) && Apply(Stubbed(p), fuel, "f", []) == Void
  {
    var g := Func("f", 0, Some(Return(Some(Int(1)))));
    var p: Program := [Func("f", 0, None), g];
    assert p[1..] == [g] && [g][1..] == [];
    assert Defined([g]) == [g] + Defined([]);
    assert Defined(p) == [] + [g] == [g];
    assert Find(p, "f") == 0 && Find([g], "f") == 0;
    assert Exec([g], fuel, Env(map[], []), g.body.value) == Returned(1);
    ShadowedIsEmpty(p, fuel, "f", []);
  }
}
