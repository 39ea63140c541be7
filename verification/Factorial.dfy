/** A worked instance of the compiler theorem: a recursive function. */
module Factorial {
  import opened Words
  import opened Memory
  import opened Options
  import opened Machine
  import opened Ast
  import opened Layout
  import opened Codegen
  import opened Patching
  import opened Placement
  import opened Leftovers
  import opened Compiler

  /** int f(int n) { if (n < 2) return 1; return n * f(n - 1); } */
  function Body(): Stmt {
    Block(SCons(If(Small(), Return(Some(Int(1))), None), SCons(Return(Some(Product())), SNil)))
  }

  function Small(): Expr {
    Bin(Lt, Var(-12), Int(2))
  }

  function Product(): Expr {
    Bin(Mul, Var(-12), Recursion())
  }

  function Recursion(): Expr {
    CallE("f", ECons(Previous(), ENil))
  }

  function Previous(): Expr {
    Bin(Sub, Var(-12), Int(1))
  }

  function Source(): Program {
    [Func("f", 0, Some(Body()))]
  }

  function Factorial(n: nat): nat {
    if n < 2 then 1 else n * Factorial(n - 1)
  }

  lemma {:induction false} FactorialGrows(m: nat, n: nat)
    requires m <= n
    ensures Factorial(m) <= Factorial(n)
    decreases n
  {
    if m < n {
      FactorialGrows(m, n - 1);
      if n >= 2 { assert Factorial(n) == n * Factorial(n - 1) >= Factorial(n - 1); }
    }
  }

  lemma FactorialIsLong(n: nat)
    requires n <= 20
    ensures IsLong(Factorial(n))
  {
    FactorialGrows(n, 20);
    assert Factorial(5) == 120;
    assert Factorial(10) == 3628800;
    assert Factorial(15) == 1307674368000;
    assert Factorial(20) == 2432902008176640000;
  }

  function Start(n: nat): Env {
    Env(map[], [n])
  }

  lemma LeafValues(fuel: nat, n: nat, k: nat)
    requires n <= 20 && k <= 2
    ensures Eval(Source(), fuel, Start(n), Var(-12)) == V(n) && Eval(Source(), fuel, Start(n), Int(k)) == V(k)
  {
    ParamSlotIndex(0);
  }

  lemma PreviousValue(fuel: nat, n: nat)
    requires 1 <= n <= 20
    ensures Eval(Source(), fuel, Start(n), Previous()) == V(n - 1)
  {
    hide Source;
    LeafValues(fuel, n, 1);
  }

  lemma SmallTruth(fuel: nat, n: nat)
    requires n <= 20
    ensures Truth(Source(), fuel, Start(n), Small()) == Some(n < 2)
  {
    hide Source;
    LeafValues(fuel, n, 2);
  }

  lemma RecursionValue(fuel: nat, n: nat)
    requires 2 <= n <= 20 && fuel > 0 && Apply(Source(), fuel - 1, "f", [n - 1]) == V(Factorial(n - 1))
    ensures Eval(Source(), fuel, Start(n), Recursion()) == V(Factorial(n - 1))
  {
    hide Apply, Source, Previous, Factorial;
    PreviousValue(fuel, n);
    assert EvalArgs(Source(), fuel, Start(n), ENil) == Some([]);
    assert [n - 1] + [] == [n - 1];
    assert EvalArgs(Source(), fuel, Start(n), ECons(Previous(), ENil)) == Some([n - 1]);
  }

  lemma ProductValue(fuel: nat, n: nat)
    requires 2 <= n <= 20 && Eval(Source(), fuel, Start(n), Recursion()) == V(Factorial(n - 1))
    ensures Eval(Source(), fuel, Start(n), Product()) == V(Factorial(n))
  {
    hide Source, Recursion;
    LeafValues(fuel, n, 1);
    FactorialIsLong(n);
    assert Factorial(n) == n * Factorial(n - 1);
    assert Arith(Mul, n, Factorial(n - 1)) == V(Factorial(n)) by { SignedToWord(Factorial(n)); }
  }

  lemma BodyResult(fuel: nat, n: nat)
    requires n <= 20 && (n >= 2 ==> Eval(Source(), fuel, Start(n), Product()) == V(Factorial(n)))
    ensures Exec(Source(), fuel, Start(n), Body()) == Returned(Factorial(n))
  {
    hide Source, Small, Product;
    SmallTruth(fuel, n);
    LeafValues(fuel, n, 1);
    var test := If(Small(), Return(Some(Int(1))), None);
    var rest := SCons(Return(Some(Product())), SNil);
    if n < 2 {
      assert Exec(Source(), fuel, Start(n), Return(Some(Int(1)))) == Returned(1);
      assert ExecItem(Source(), fuel, Start(n), test) == Returned(1);
    } else {
      assert ExecItem(Source(), fuel, Start(n), test) == Normal(Start(n));
      assert ExecItem(Source(), fuel, Start(n), Return(Some(Product()))) == Returned(Factorial(n));
      assert ExecItems(Source(), fuel, Start(n), rest) == Returned(Factorial(n));
    }
    assert ExecItems(Source(), fuel, Start(n), SCons(test, rest)) == Returned(Factorial(n));
  }

  /** What the source means: the factorial, as far as it is a long. */
  lemma {:induction false} Computes(fuel: nat, n: nat)
    requires n <= 20 && fuel >= n
    ensures Apply(Source(), fuel, "f", [n]) == V(Factorial(n))
    decreases n
  {
    hide Exec, Body, Eval, Product;
    if n >= 2 {
      Computes(fuel - 1, n - 1);
      RecursionValue(fuel, n);
      ProductValue(fuel, n);
    }
    BodyResult(fuel, n);
    assert Find(Source(), "f") == 0;
  }

  // ----- the example meets the conditions of the theorem -----

  lemma ExprsGood()
    ensures GoodExpr(Small(), 0) && GoodExpr(Product(), 0)
  {
    assert GoodExpr(Previous(), 0);
    assert GoodExprs(ENil, 0) && ENil.Count() == 0;
    assert GoodExprs(ECons(Previous(), ENil), 0) && ECons(Previous(), ENil).Count() == 1;
    assert GoodExpr(Recursion(), 0);
  }

  lemma BodyGood()
    ensures GoodStmt(Body(), 0)
  {
    hide Small, Product;
    ExprsGood();
    assert GoodStmt(Return(Some(Int(1))), 0);
    assert GoodStmts(SCons(Return(Some(Product())), SNil), 0);
    assert GoodStmt(If(Small(), Return(Some(Int(1))), None), 0);
  }

  lemma ExprCosts(funcs: seq<FuncSym>)
    ensures var c := ExprCost(funcs, Small().left); c.code <= 10 && c == Bytes(c.code)
    ensures var c := ExprCost(funcs, Small().right); c.code <= 20 && c == Bytes(c.code)
    ensures var c := ExprCost(funcs, Product()); c.code <= 100 && c.labels == 0 && c.fixups <= 1 && c.strs == 0 && c.pool == 0
  {
    assert ExprCost(funcs, Previous()).code <= 40 && ExprCost(funcs, Previous()) == Bytes(ExprCost(funcs, Previous()).code);
    assert ArgsCost(funcs, ENil) == NOTHING;
    var c := ArgsCost(funcs, ECons(Previous(), ENil));
    assert c.code <= 40 && c == Bytes(c.code);
    assert ECons(Previous(), ENil).Count() == 1 by { assert ENil.Count() == 0; }
    var d := ExprCost(funcs, Recursion());
    assert d.code <= 60 && d.labels == 0 && d.fixups <= 1 && d.strs == 0 && d.pool == 0;
  }

  lemma BodyCost(funcs: seq<FuncSym>)
    ensures var c := StmtCost(funcs, Body()); c.code <= 300 && c.labels <= 2 && c.fixups <= 3 && c.strs == 0 && c.pool == 0
  {
    hide ExprCost, Product, ExprSize;
    ExprCosts(funcs);
    assert ExprCost(funcs, Int(1)) == Bytes(11) by { IntCost(funcs); }
    var c := StmtCost(funcs, Return(Some(Int(1))));
    assert c.code <= 20 && c == Bytes(c.code);
    var d := StmtCost(funcs, If(Small(), Return(Some(Int(1))), None));
    assert d.code <= 100 && d.labels == 2 && d.fixups == 1 && d.strs == 0 && d.pool == 0;
    var e := ItemsCost(funcs, SCons(Return(Some(Product())), SNil));
    assert ItemsCost(funcs, SNil) == NOTHING;
    assert e.code <= 150 && e.labels == 0 && e.fixups <= 1 && e.strs == 0 && e.pool == 0;
  }

  lemma IntCost(funcs: seq<FuncSym>)
    ensures ExprCost(funcs, Int(1)) == Bytes(11)
  {
  }

  lemma UnitCost()
    ensures var c := ProgramCost(Source(), 1); c.code <= 400 && c.labels <= 2 && c.fixups <= 3 && c.strs == 0 && c.pool == 0
  {
    hide StmtCost, Body, Symbols;
    BodyCost(Symbols(Source(), 1));
    CostOfOne(Source());
  }

  lemma CostOfOne(p: Program)
    requires |p| == 1
    ensures ProgramCost(p, 1) == Plus(NOTHING, FuncCost(Symbols(p, 1), p[0]))
  {
    hide FuncCost, Symbols;
    assert ProgramCost(p, 0) == NOTHING;
  }

  lemma IsGood()
    ensures GoodProgram(Source())
  {
    hide GoodStmt, Body;
    BodyGood();
  }

  lemma IsSmall()
    ensures WithinLimits(Source())
  {
    hide ProgramCost, Body;
    UnitCost();
  }

  /** Its one condition is a comparison, so that no leftover mark harms it. */
  lemma AnyTable(table: seq<Fixup>)
    ensures HarmlessTable(table, Source())
  {
    hide Small, Product, StmtCost, Symbols, CondCost;
    var p, a := Source(), BodyStart(Source(), 0);
    assert ProgramJumps(p, 0) == [];
    var funcs, items := Symbols(p, 1), Body().items;
    assert Small().Bin? by { SmallIsBin(); }
    assert forall j :: j in StmtJumps(funcs, items.head, a) ==> j.Direct?;
    assert forall j :: j in StmtJumps(funcs, items.next.head, a + ItemSize(items.head)) ==> j.Direct?;
    assert ItemsJumps(funcs, items.next.next, a + ItemSize(items.head) + ItemSize(items.next.head)) == [];
    assert forall j :: j in ItemsJumps(funcs, items.next, a + ItemSize(items.head)) ==> j.Direct?;
    assert forall j :: j in ItemsJumps(funcs, items, a) ==> j.Direct?;
    assert ProgramJumps(p, 1) == ItemsJumps(funcs, items, a);
  }

  lemma SmallIsBin()
    ensures Small().Bin?
  {
  }

  /** The machine code of the function leaves n! in rax, for every n whose factorial
      is a long, wherever the image is loaded, given the stack it needs and whatever
      was compiled before. */
  lemma FactorialRuns(header: seq<byte>, table: seq<Fixup>, base: word, n: nat, m: State) returns (m': State)
    requires |header| == HEADER_SIZE && |table| == MAX_FIXUPS && base + 0x1_0000 < TWO64 && n <= 20
    requires m.rip == EntryOf(Source(), "f") && m.rsp + 16 < TWO64 && m.rsp + 8 >= ApplyDepth(Source(), n, "f", [n])
    requires Load64(m.mem, m.rsp + 8) == n
    ensures var fin := GenProgram(header, table, Source());
            SitesInside(fin, |fin.code|) && Section(fin) >= 0 && Reaches(Image(Linked(fin), base), m, m')
    ensures m'.rax == Factorial(n) && m'.rsp == m.rsp + 8 && m'.rbp == m.rbp
  {
    hide Apply, ApplyDepth, WithinLimits, GoodProgram, GenProgram, Linked, Load64, Reaches, EntryOf, Sound, HarmlessTable;
    IsGood();
    AnyTable(table);
    IsSmall();
    Computes(n, n);
    m' := CompiledCallCorrect(header, table, Source(), base, n, "f", [n], m);
  }
}
