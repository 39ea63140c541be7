/** Parsing undoes printing, for statements: nesting, dangling else, declarations
    and the slots they give. */
module StatementPrinting {
  import opened Options
  import opened Ast
  import opened Parser
  import opened Printing

  predicate Single(ss: STrees) {
    ss.STCons? && ss.next.STNil?
  }

  // ----- scopes -----

  /** Symbols and next offset once `s` has been read. Leaving a block keeps both. */
  function After(s: STree, c: Scope): Scope {
    match s
    case SDecl(name, _, _) => Declare(c, name)
    case SIf(_, t, f) => if f.Some? then AfterAll(f.value, AfterAll(t, c)) else AfterAll(t, c)
    case SWhile(_, b) => AfterAll(b, c)
    case SFor(a, _, _, b) => AfterAll(b, AfterAll(a, c))
    case SBlock(items) => AfterAll(items, c)
    case _ => c
  }

  function AfterAll(ss: STrees, c: Scope): Scope {
    if ss.STNil? then c else AfterAll(ss.next, After(ss.head, c))
  }

  // ----- printable statements -----

  predicate PlainExpr(e: Tree, c: Scope) {
    Printable(e, c.syms)
  }

  predicate PlainAssign(s: STree, c: Scope, first: string)
    requires s.SAssign?
  {
    PlainExpr(s.left, c) && PlainExpr(s.right, c) && s.slot == SlotOf(c.syms, NodeText(s.left, first))
  }

  predicate PlainPost(s: STree, c: Scope, first: string) {
    match s
    case SExpr(e) => PlainExpr(e, c)
    case SAssign(_, _, _) => PlainAssign(s, c, first)
    case _ => false
  }

  /** Statements whose names and slots are those of the scope they stand in. */
  predicate Plain(s: STree, c: Scope, first: string) {
    match s
    case SExpr(e) => PlainExpr(e, c)
    case SAssign(_, _, _) => PlainAssign(s, c, first)
    case SDecl(name, slot, init) => slot == c.bp && (init.Some? ==> PlainExpr(init.value, Declare(c, name)))
    case SIf(e, t, f) =>
      && PlainExpr(e, c) && Single(t) && Plain(t.head, c, first)
      && (f.Some? ==> Single(f.value) && Closed(t.head) && Plain(f.value.head, AfterAll(t, c), first))
    case SWhile(e, b) => PlainExpr(e, c) && Single(b) && Plain(b.head, c, first)
    case SFor(a, e, p, b) =>
      && Single(a) && Plain(a.head, c, first)
      && PlainExpr(e, AfterAll(a, c)) && PlainPost(p, AfterAll(a, c), first)
      && Single(b) && Plain(b.head, AfterAll(a, c), first)
    case SBlock(items) => PlainAll(items, c, first)
    case SReturn(v) => v.Some? ==> PlainExpr(v.value, c)
  }

  predicate PlainAll(ss: STrees, c: Scope, first: string) {
    ss.STCons? ==> Plain(ss.head, c, first) && PlainAll(ss.next, After(ss.head, c), first)
  }

  /** An else after the statement cannot attach to an if inside it. */
  predicate Closed(s: STree) {
    match s
    case SIf(_, _, f) => f.Some? && (f.value.STCons? ==> Closed(f.value.head))
    case SWhile(_, b) => b.STCons? ==> Closed(b.head)
    case SFor(_, _, _, b) => b.STCons? ==> Closed(b.head)
    case _ => true
  }

  // ----- printing -----

  function PrintPost(s: STree): seq<Token> {
    match s
    case SExpr(e) => Print(e, 1)
    case SAssign(_, l, r) => Print(l, 1) + [Becomes] + Print(r, 1)
    case _ => []
  }

  function PrintHead(ss: STrees): seq<Token> {
    if ss.STCons? then PrintS(ss.head) else []
  }

  function PrintS(s: STree): seq<Token> {
    match s
    case SExpr(e) => Print(e, 1) + [Semi]
    case SAssign(_, l, r) => Print(l, 1) + [Becomes] + (Print(r, 1) + [Semi])
    case SDecl(name, _, None) => [Type("int")] + [Ident(name)] + [Semi]
    case SDecl(name, _, Some(e)) => [Type("int")] + [Ident(name)] + ([Becomes] + Print(e, 1) + [Semi])
    case SIf(e, t, None) => [KIf] + PrintCond(e) + PrintHead(t)
    case SIf(e, t, Some(f)) => [KIf] + PrintCond(e) + (PrintHead(t) + [KElse] + PrintHead(f))
    case SWhile(e, b) => [KWhile] + PrintCond(e) + PrintHead(b)
    case SFor(a, e, p, b) =>
      [KFor] + [LPar] + (PrintHead(a) + (Print(e, 1) + [Semi] + (PrintPost(p) + [RPar] + PrintHead(b))))
    case SBlock(items) => [LBrace] + PrintItems(items) + [RBrace]
    case SReturn(None) => [KReturn] + [Semi] + []
    case SReturn(Some(e)) => [KReturn] + (Print(e, 1) + [Semi])
  }

  function PrintItems(ss: STrees): seq<Token> {
    if ss.STNil? then [] else PrintS(ss.head) + PrintItems(ss.next)
  }

  function PrintCond(e: Tree): seq<Token> {
    [LPar] + (Print(e, 1) + [RPar])
  }

  // ----- pieces of statements -----

  /** An expression and the token that ends it. */
  lemma ExprThen(ts: seq<Token>, c: Scope, i: nat, e: Tree, t: Token, rest: seq<Token>)
    requires Ended(ts) && PlainExpr(e, c) && Precedence(t) == 0
    requires Stands(ts, i, Print(e, 1) + [t] + rest)
    ensures var n := i + |Print(e, 1)|;
            n < |ts| && ts[n] == t && ParseExpr(ts, c.syms, i, 0) == Ok(e, n) && Stands(ts, n + 1, rest)
    ensures StartsExpr(ts[i])
  {
    hide ParseExpr, Print, Printable;
    var a := Print(e, 1);
    StandsThree(ts, i, a, t, rest);
    ParseUndoesPrint(ts, c.syms, i, e);
    PrintStart(e, 1, c.syms);
    StandsHead(ts, i, a);
  }

  lemma CondThen(ts: seq<Token>, c: Scope, i: nat, e: Tree, rest: seq<Token>)
    requires Ended(ts) && PlainExpr(e, c) && Stands(ts, i, PrintCond(e) + rest)
    ensures var n := i + |PrintCond(e)|;
            n <= |ts| && Stands(ts, n, rest) && i < |ts|
            && (n < |ts| ==> ParseCond(ts, c.syms, i) == Ok(e, n))
  {
    hide ParseExpr, Print, Printable;
    assert PrintCond(e) + rest == [LPar] + (Print(e, 1) + [RPar] + rest);
    StandsApart(ts, i, [LPar], Print(e, 1) + [RPar] + rest);
    StandsOne(ts, i, LPar);
    ExprThen(ts, c, i + 1, e, RPar, rest);
  }

  lemma PostThen(ts: seq<Token>, c: Scope, i: nat, p: STree, rest: seq<Token>)
    requires Ended(ts) && PlainPost(p, c, FirstText(ts)) && Stands(ts, i, PrintPost(p) + [RPar] + rest)
    ensures var n := i + |PrintPost(p)|;
            n < |ts| && ts[n] == RPar && ParsePost(ts, c.syms, i) == Ok(p, n) && Stands(ts, n + 1, rest)
  {
    hide ParseExpr, Print, Printable, Stands;
    if p.SExpr? {
      ExprThen(ts, c, i, p.e, RPar, rest);
    } else {
      assert PrintPost(p) + [RPar] + rest == Print(p.left, 1) + [Becomes] + (Print(p.right, 1) + [RPar] + rest);
      ExprThen(ts, c, i, p.left, Becomes, Print(p.right, 1) + [RPar] + rest);
      ExprThen(ts, c, i + |Print(p.left, 1)| + 1, p.right, RPar, rest);
    }
  }

  // ----- statements -----

  /** What reading `s` at `i` gives. */
  ghost predicate Reads(ts: seq<Token>, c: Scope, i: nat, s: STree) {
    && Ended(ts) && i < i + |PrintS(s)| < |ts|
    && ParseStmt(ts, c, i) == Ok(Piece(One(s), After(s, c)), i + |PrintS(s)|)
  }

  /** A place where `s` stands and is not followed by an else it could take. */
  ghost predicate Placed(ts: seq<Token>, i: nat, s: STree) {
    && Ended(ts) && Stands(ts, i, PrintS(s)) && i + |PrintS(s)| < |ts|
    && (Closed(s) || ts[i + |PrintS(s)|] != KElse)
  }

  lemma SimpleReads(ts: seq<Token>, c: Scope, i: nat, s: STree)
    requires Placed(ts, i, s) && Plain(s, c, FirstText(ts)) && (s.SExpr? || s.SAssign?)
    ensures Reads(ts, c, i, s)
  {
    hide Stands, ParseExpr, Print, Printable;
    if s.SExpr? {
      assert PrintS(s) == Print(s.e, 1) + [Semi] + [];
      ExprThen(ts, c, i, s.e, Semi, []);
    } else {
      assert PrintS(s) == Print(s.left, 1) + [Becomes] + (Print(s.right, 1) + [Semi] + []);
      ExprThen(ts, c, i, s.left, Becomes, Print(s.right, 1) + [Semi] + []);
      ExprThen(ts, c, i + |Print(s.left, 1)| + 1, s.right, Semi, []);
      assert BaseOf(s.left) == s.left by { NotDeref(s.left, c.syms); }
    }
    assert ParseStmt(ts, c, i) == ParseSimple(ts, c, i);
  }

  lemma NotDeref(t: Tree, syms: seq<Symbol>)
    requires Printable(t, syms)
    ensures !t.Deref?
  {
  }

  lemma DeclReads(ts: seq<Token>, c: Scope, i: nat, s: STree)
    requires Placed(ts, i, s) && Plain(s, c, FirstText(ts)) && s.SDecl?
    ensures Reads(ts, c, i, s)
  {
    hide Stands, ParseExpr, Print, Printable, ParseStmt, ParseDecls;
    var k := Declare(c, s.name);
    if s.init.None? {
      StandsThree(ts, i, [Type("int")], Ident(s.name), [Semi]);
      StandsOne(ts, i + 2, Semi);
    } else {
      var e := s.init.value;
      StandsThree(ts, i, [Type("int")], Ident(s.name), [Becomes] + Print(e, 1) + [Semi]);
      assert [Becomes] + Print(e, 1) + [Semi] == [Becomes] + (Print(e, 1) + [Semi] + []);
      StandsApart(ts, i + 2, [Becomes], Print(e, 1) + [Semi] + []);
      StandsOne(ts, i + 2, Becomes);
      ExprThen(ts, k, i + 3, e, Semi, []);
    }
    StandsOne(ts, i, Type("int"));
    DeclStep(ts, c, i, s, i + |PrintS(s)| - 1);
  }

  /** A declaration of one variable, with its initial value read. */
  lemma DeclStep(ts: seq<Token>, c: Scope, i: nat, s: STree, n: nat)
    requires Ended(ts) && s.SDecl? && s.slot == c.bp && i + 1 < n < |ts| && ts[i].Type? && ts[i + 1] == Ident(s.name)
    requires ParseInit(ts, Declare(c, s.name).syms, i + 2) == Ok(s.init, n) && ts[n] == Semi
    ensures ParseStmt(ts, c, i) == Ok(Piece(One(s), Declare(c, s.name)), n + 1)
  {
    hide ParseExpr, ParseInit;
    assert SkipStars(ts, i + 1) == i + 1;
    assert ParseStmt(ts, c, i) == ParseDecls(ts, c, i + 1);
  }

  lemma ReturnReads(ts: seq<Token>, c: Scope, i: nat, s: STree)
    requires Placed(ts, i, s) && Plain(s, c, FirstText(ts)) && s.SReturn?
    ensures Reads(ts, c, i, s)
  {
    hide Stands, ParseExpr, Print, Printable;
    if s.value.None? {
      StandsThree(ts, i, [KReturn], Semi, []);
      StandsOne(ts, i, KReturn);
    } else {
      var e := s.value.value;
      assert PrintS(s) == [KReturn] + (Print(e, 1) + [Semi] + []);
      StandsApart(ts, i, [KReturn], Print(e, 1) + [Semi] + []);
      StandsOne(ts, i, KReturn);
      ExprThen(ts, c, i + 1, e, Semi, []);
    }
    assert ParseStmt(ts, c, i) == ParseReturn(ts, c, i);
  }

  /** No printed statement starts like the end of a block or an else. */
  lemma StmtStart(s: STree, c: Scope, first: string)
    requires Plain(s, c, first)
    ensures |PrintS(s)| > 0 && PrintS(s)[0] != KElse && PrintS(s)[0] != RBrace
  {
    hide Print;
    if s.SExpr? { PrintStart(s.e, 1, c.syms); }
    if s.SAssign? { PrintStart(s.left, 1, c.syms); }
  }

  lemma {:induction false} StmtReads(ts: seq<Token>, c: Scope, i: nat, s: STree)
    requires Placed(ts, i, s) && Plain(s, c, FirstText(ts))
    ensures Reads(ts, c, i, s)
    decreases s, 2
  {
    hide ParseStmt, ParseExpr, Print, Printable, Reads, Placed, Plain, Closed, After;
    match s
    case SExpr(_) => SimpleReads(ts, c, i, s);
    case SAssign(_, _, _) => SimpleReads(ts, c, i, s);
    case SDecl(_, _, _) => DeclReads(ts, c, i, s);
    case SIf(_, _, None) => IfReads(ts, c, i, s);
    case SIf(_, _, Some(_)) => IfElseReads(ts, c, i, s);
    case SWhile(_, _) => WhileReads(ts, c, i, s);
    case SFor(_, _, _, _) => ForReads(ts, c, i, s);
    case SBlock(_) => BlockReads(ts, c, i, s);
    case SReturn(_) => ReturnReads(ts, c, i, s);
  }

  lemma {:induction false} WhileReads(ts: seq<Token>, c: Scope, i: nat, s: STree)
    requires Placed(ts, i, s) && Plain(s, c, FirstText(ts)) && s.SWhile?
    ensures Reads(ts, c, i, s)
    decreases s, 1
  {
    hide Stands, ParseExpr, Print, Printable, ParseCond, PrintCond;
    var b := s.body.head;
    assert PrintS(s) == [KWhile] + (PrintCond(s.cond) + PrintS(b));
    StandsApart(ts, i, [KWhile], PrintCond(s.cond) + PrintS(b));
    StandsOne(ts, i, KWhile);
    CondThen(ts, c, i + 1, s.cond, PrintS(b));
    StmtReads(ts, c, i + 1 + |PrintCond(s.cond)|, b);
    assert ParseStmt(ts, c, i) == ParseWhile(ts, c, i);
    assert s.body == One(b) && AfterAll(s.body, c) == After(b, c);
  }

  lemma {:induction false} IfReads(ts: seq<Token>, c: Scope, i: nat, s: STree)
    requires Placed(ts, i, s) && Plain(s, c, FirstText(ts)) && s.SIf? && s.els.None?
    ensures Reads(ts, c, i, s)
    decreases s, 1
  {
    hide Stands, ParseExpr, Print, Printable, ParseCond, PrintCond, ParseStmt;
    var t := s.thn.head;
    assert PrintS(s) == [KIf] + (PrintCond(s.cond) + PrintS(t));
    StandsApart(ts, i, [KIf], PrintCond(s.cond) + PrintS(t));
    CondThen(ts, c, i + 1, s.cond, PrintS(t));
    StandsOne(ts, i, KIf);
    StmtReads(ts, c, i + 1 + |PrintCond(s.cond)|, t);
    OneAfter(s.thn, c);
    IfDispatch(ts, c, i);
  }

  lemma OneAfter(ss: STrees, c: Scope)
    requires Single(ss)
    ensures ss == One(ss.head) && AfterAll(ss, c) == After(ss.head, c)
  {
    assert AfterAll(STNil, After(ss.head, c)) == After(ss.head, c);
  }

  lemma {:induction false} IfElseReads(ts: seq<Token>, c: Scope, i: nat, s: STree)
    requires Placed(ts, i, s) && Plain(s, c, FirstText(ts)) && s.SIf? && s.els.Some?
    ensures Reads(ts, c, i, s)
    decreases s, 1
  {
    hide Stands, ParseExpr, Print, Printable, ParseCond, PrintCond, ParseStmt;
    var t, f := s.thn.head, s.els.value.head;
    var k := i + 1 + |PrintCond(s.cond)|;
    var rest := PrintS(t) + [KElse] + PrintS(f);
    assert PrintS(s) == [KIf] + (PrintCond(s.cond) + rest);
    StandsApart(ts, i, [KIf], PrintCond(s.cond) + rest);
    CondThen(ts, c, i + 1, s.cond, rest);
    StandsOne(ts, i, KIf);
    StandsThree(ts, k, PrintS(t), KElse, PrintS(f));
    IfElseAfter(c, s);
    StmtReads(ts, c, k, t);
    StmtReads(ts, After(t, c), k + |PrintS(t)| + 1, f);
    IfDispatch(ts, c, i);
  }

  lemma IfElseAfter(c: Scope, s: STree)
    requires s.SIf? && s.els.Some? && Single(s.thn) && Single(s.els.value)
    ensures s.thn == One(s.thn.head) && s.els.value == One(s.els.value.head)
    ensures AfterAll(s.thn, c) == After(s.thn.head, c)
    ensures After(s, c) == After(s.els.value.head, After(s.thn.head, c))
  {
    assert AfterAll(s.els.value, After(s.thn.head, c)) == After(s.els.value.head, After(s.thn.head, c));
  }

  lemma IfDispatch(ts: seq<Token>, c: Scope, i: nat)
    requires Ended(ts) && i < |ts| && ts[i] == KIf
    ensures ParseStmt(ts, c, i) == ParseIf(ts, c, i)
  {
    hide ParseFor, ParseExpr, ParseIf, ParseWhile, ParseDecls, ParseBlock, ParseReturn, ParseSimple;
  }

  /** Where the parts of a for statement stand. */
  lemma ForStands(ts: seq<Token>, i: nat, a: seq<Token>, rest: seq<Token>)
    requires Stands(ts, i, [KFor] + [LPar] + (a + rest))
    ensures i + 2 <= |ts| && ts[i] == KFor && ts[i + 1] == LPar && Stands(ts, i + 2, a) && Stands(ts, i + 2 + |a|, rest)
  {
    hide Stands;
    StandsThree(ts, i, [KFor], LPar, a + rest);
    StandsOne(ts, i, KFor);
    StandsApart(ts, i + 2, a, rest);
  }

  lemma {:induction false} ForReads(ts: seq<Token>, c: Scope, i: nat, s: STree)
    requires Placed(ts, i, s) && Plain(s, c, FirstText(ts)) && s.SFor?
    ensures Reads(ts, c, i, s)
    decreases s, 1
  {
    hide Stands, ParseExpr, Print, ParsePost, PrintPost, PlainPost, PlainExpr, ParseStmt, PrintS, After, Plain, Closed, StartsExpr;
    ForFacts(c, s, FirstText(ts));
    var a, b := s.start.head, s.body.head;
    var k := After(a, c);
    var rest2 := PrintPost(s.post) + [RPar] + PrintS(b);
    ForStands(ts, i, PrintS(a), Print(s.cond, 1) + [Semi] + rest2);
    var m := i + 2 + |PrintS(a)|;
    var n := m + |Print(s.cond, 1)| + 1;
    ExprThen(ts, k, m, s.cond, Semi, rest2);
    PostThen(ts, k, n, s.post, PrintS(b));
    StartsNoElse(ts[m]);
    StmtReads(ts, c, i + 2, a);
    StmtReads(ts, k, n + |PrintPost(s.post)| + 1, b);
    ForStep(ts, c, i, s, k, m, n, After(b, k), i + |PrintS(s)|);
  }

  lemma StartsNoElse(t: Token)
    requires StartsExpr(t)
    ensures t != KElse
  {
  }

  lemma ForFacts(c: Scope, s: STree, first: string)
    requires s.SFor? && Plain(s, c, first)
    ensures var a, b := s.start.head, s.body.head;
            var k := After(a, c);
            && s.start == One(a) && s.body == One(b) && After(s, c) == After(b, k)
            && Plain(a, c, first) && PlainExpr(s.cond, k) && PlainPost(s.post, k, first) && Plain(b, k, first)
            && (Closed(s) == Closed(b))
            && PrintS(s) == [KFor] + [LPar] + (PrintS(a) + (Print(s.cond, 1) + [Semi] + (PrintPost(s.post) + [RPar] + PrintS(b))))
  {
    hide PlainExpr, PlainPost, PrintPost, Print;
    assert AfterAll(s.start, c) == After(s.start.head, c);
    assert AfterAll(s.body, After(s.start.head, c)) == After(s.body.head, After(s.start.head, c));
  }

  /** A for statement from its four parts. */
  lemma ForStep(ts: seq<Token>, c: Scope, i: nat, s: STree, k: Scope, m: nat, n: nat, k2: Scope, e: nat)
    requires Ended(ts) && s.SFor? && i + 2 < m < n < e < |ts| && ts[i] == KFor && ts[i + 1] == LPar
    requires ParseStmt(ts, c, i + 2) == Ok(Piece(s.start, k), m)
    requires ParseExpr(ts, k.syms, m, 0) == Ok(s.cond, n - 1) && ts[n - 1] == Semi
    requires ParsePost(ts, k.syms, n).Ok? && ParsePost(ts, k.syms, n).value == s.post
    requires var p := ParsePost(ts, k.syms, n).next;
             ts[p] == RPar && p + 1 < |ts| && ParseStmt(ts, k, p + 1) == Ok(Piece(s.body, k2), e)
    ensures ParseStmt(ts, c, i) == Ok(Piece(One(s), k2), e)
  {
    hide ParseStmt, ParseExpr, ParsePost;
    ForDispatch(ts, c, i);
  }

  lemma ForDispatch(ts: seq<Token>, c: Scope, i: nat)
    requires Ended(ts) && i < |ts| && ts[i] == KFor
    ensures ParseStmt(ts, c, i) == ParseFor(ts, c, i)
  {
    hide ParseFor, ParseExpr, ParseIf, ParseWhile, ParseDecls, ParseBlock, ParseReturn, ParseSimple;
  }

  lemma {:induction false} BlockReads(ts: seq<Token>, c: Scope, i: nat, s: STree)
    requires Placed(ts, i, s) && Plain(s, c, FirstText(ts)) && s.SBlock?
    ensures Reads(ts, c, i, s)
    decreases s, 1
  {
    hide Stands, ParseExpr, Print, Printable, ParseItems;
    assert PrintS(s) == [LBrace] + (PrintItems(s.items) + [RBrace]);
    StandsApart(ts, i, [LBrace], PrintItems(s.items) + [RBrace]);
    StandsOne(ts, i, LBrace);
    ItemsRead(ts, c, i + 1, s.items);
    assert ParseStmt(ts, c, i) == ParseBlock(ts, c, i);
  }

  lemma {:induction false} ItemsRead(ts: seq<Token>, c: Scope, i: nat, ss: STrees)
    requires Ended(ts) && PlainAll(ss, c, FirstText(ts))
    requires Stands(ts, i, PrintItems(ss) + [RBrace]) && i + |PrintItems(ss)| + 1 < |ts|
    ensures ParseItems(ts, c, i) == Ok(Piece(ss, AfterAll(ss, c)), i + |PrintItems(ss)| + 1)
    decreases ss, 3
  {
    hide ParseStmt, ParseExpr, Print, Printable, Plain, Closed, After, PrintS, Stands;
    if ss.STNil? {
      assert PrintItems(ss) + [RBrace] == [RBrace];
      StandsOne(ts, i, RBrace);
    } else {
      var s, k := ss.head, After(ss.head, c);
      var rest := PrintItems(ss.next) + [RBrace];
      assert PrintItems(ss) + [RBrace] == PrintS(s) + rest;
      StandsApart(ts, i, PrintS(s), rest);
      var n := i + |PrintS(s)|;
      StmtStart(s, c, FirstText(ts));
      StandsHead(ts, i, PrintS(s));
      assert rest[0] != KElse by { if ss.next.STCons? { StmtStart(ss.next.head, k, FirstText(ts)); } }
      StandsHead(ts, n, rest);
      StmtReads(ts, c, i, s);
      ItemsRead(ts, k, n, ss.next);
      assert Append(One(s), ss.next) == ss;
    }
  }

  /** Round trip for statements: reading a printed statement, anywhere, gives back
      the tree, with every name and slot of its scope, and consumes exactly its
      tokens. An else belongs to the nearest if that can take it. */
  lemma ParseUndoesPrintStmt(ts: seq<Token>, c: Scope, i: nat, s: STree)
    requires Ended(ts) && Stands(ts, i, PrintS(s)) && i + |PrintS(s)| < |ts|
    requires Plain(s, c, FirstText(ts)) && (Closed(s) || ts[i + |PrintS(s)|] != KElse)
    ensures ParseStmt(ts, c, i) == Ok(Piece(One(s), After(s, c)), i + |PrintS(s)|)
  {
    hide ParseStmt, Plain, Closed, PrintS, After;
    StmtReads(ts, c, i, s);
  }
}
