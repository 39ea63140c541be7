/** Parsing undoes printing, for expressions with as few parentheses as their
    operators allow. */
module Printing {
  import opened Options
  import opened Ast
  import opened Parser

  /** Trees of literals, bound names, calls and binary operators. */
  predicate Printable(t: Tree, syms: seq<Symbol>) {
    match t
    case Lit(tok) => IsLiteral(tok)
    case Id(name, at) => at == Bind(syms, name)
    case Node(_, l, r) => Printable(l, syms) && Printable(r, syms)
    case CallT(_, args) => PrintableAll(args, syms)
    case Deref(_) => false
  }

  predicate PrintableAll(ts: Trees, syms: seq<Symbol>) {
    ts.TCons? ==> Printable(ts.head, syms) && PrintableAll(ts.next, syms)
  }

  function Strength(t: Tree): nat {
    if t.Node? then OpPrec(t.op) else 100
  }

  /** Tokens of a tree; parentheses only around operators weaker than `q`. */
  function Print(t: Tree, q: nat): seq<Token>
    decreases t, 1
  {
    if Strength(t) < q then [LPar] + Raw(t) + [RPar] else Raw(t)
  }

  function Raw(t: Tree): seq<Token>
    decreases t, 0
  {
    match t
    case Lit(tok) => [tok]
    case Id(s, _) => [Ident(s)]
    case Node(op, l, r) => Print(l, OpPrec(op)) + [OpTok(op)] + Print(r, OpPrec(op) + 1)
    case CallT(f, args) => [Ident(f), LPar] + PrintArgs(args) + [RPar]
    case Deref(e) => [OpTok(Mul)] + Print(e, 91)
  }

  function PrintArgs(ts: Trees): seq<Token> {
    match ts
    case TNil => []
    case TCons(t, TNil) => Print(t, 1)
    case TCons(t, rest) => Print(t, 1) + [Comma] + PrintArgs(rest)
  }

  /** The tokens `s` stand at position `i`. */
  ghost predicate Stands(ts: seq<Token>, i: nat, s: seq<Token>) {
    i + |s| <= |ts| && ts[i..i + |s|] == s
  }

  lemma StandsApart(ts: seq<Token>, i: nat, a: seq<Token>, b: seq<Token>)
    requires Stands(ts, i, a + b)
    ensures Stands(ts, i, a) && Stands(ts, i + |a|, b)
  {
    assert ts[i..i + |a|] == (a + b)[..|a|];
    assert ts[i + |a|..i + |a| + |b|] == (a + b)[|a|..];
  }

  lemma StandsOne(ts: seq<Token>, i: nat, t: Token)
    requires Stands(ts, i, [t])
    ensures i < |ts| && ts[i] == t
  {
    assert ts[i..i + 1][0] == t;
  }

  lemma StandsHead(ts: seq<Token>, i: nat, s: seq<Token>)
    requires Stands(ts, i, s) && s != []
    ensures i < |ts| && ts[i] == s[0]
  {
    assert ts[i..i + |s|][0] == s[0];
  }

  /** Two stretches and a single token between or after them. */
  lemma StandsThree(ts: seq<Token>, i: nat, a: seq<Token>, t: Token, b: seq<Token>)
    requires Stands(ts, i, a + [t] + b)
    ensures Stands(ts, i, a) && i + |a| < |ts| && ts[i + |a|] == t && Stands(ts, i + |a| + 1, b)
  {
    StandsApart(ts, i, a + [t], b);
    StandsApart(ts, i, a, [t]);
    StandsOne(ts, i + |a|, t);
  }

  /** A token that ends a tree of strength `q`: no call, no tighter operator. */
  predicate Stops(t: Token, q: nat) {
    Precedence(t) <= q && Precedence(t) < 80
  }

  // ----- single steps of the parser -----

  lemma ClimbStops(ts: seq<Token>, syms: seq<Symbol>, t: Tree, i: nat, p: nat)
    requires Ended(ts) && i < |ts| && Precedence(ts[i]) <= p
    ensures Climb(ts, syms, t, i, p) == Ok(t, i)
  {
  }

  lemma ClimbOperator(ts: seq<Token>, syms: seq<Symbol>, l: Tree, r: Tree, i: nat, n: nat, p: nat)
    requires Ended(ts) && i < n < |ts| && ts[i].OpTok? && OpPrec(ts[i].op) > p
    requires ParseExpr(ts, syms, i + 1, OpPrec(ts[i].op)) == Ok(r, n)
    ensures Climb(ts, syms, l, i, p) == Climb(ts, syms, Node(ts[i].op, l, r), n, p)
  {
    hide ParseExpr, Nud, ParseArgs;
    assert Led(ts, syms, l, i) == Ok(Node(ts[i].op, l, r), n);
  }

  lemma ClimbCall(ts: seq<Token>, syms: seq<Symbol>, l: Tree, args: Trees, i: nat, n: nat, p: nat)
    requires Ended(ts) && i < n < |ts| && ts[i] == LPar && p < 80
    requires ParseArgs(ts, syms, i + 1) == Ok(args, n)
    ensures Climb(ts, syms, l, i, p) == Climb(ts, syms, CallT(NodeText(l, FirstText(ts)), args), n, p)
  {
    hide ParseExpr, Nud, ParseArgs;
    assert Led(ts, syms, l, i) == Ok(CallT(NodeText(l, FirstText(ts)), args), n);
  }

  lemma OperandParses(ts: seq<Token>, syms: seq<Symbol>, i: nat, p: nat)
    requires Ended(ts) && i < |ts| && (IsLiteral(ts[i]) || ts[i].Ident?)
    ensures i + 1 < |ts|
    ensures IsLiteral(ts[i]) ==> ParseExpr(ts, syms, i, p) == Climb(ts, syms, Lit(ts[i]), i + 1, p)
    ensures ts[i].Ident? ==> ParseExpr(ts, syms, i, p) == Climb(ts, syms, Id(ts[i].text, Bind(syms, ts[i].text)), i + 1, p)
  {
    hide Climb;
  }

  lemma ParensParse(ts: seq<Token>, syms: seq<Symbol>, i: nat, t: Tree, n: nat, p: nat)
    requires Ended(ts) && i + 1 < n < |ts| && ts[i] == LPar && ts[n] == RPar
    requires ParseExpr(ts, syms, i + 1, 0) == Ok(t, n)
    ensures n + 1 < |ts| && ParseExpr(ts, syms, i, p) == Climb(ts, syms, t, n + 1, p)
  {
    hide Climb;
    assert Nud(ts, syms, i) == Ok(t, n + 1);
  }

  // ----- whole trees -----

  /** Reading a printed tree comes out with that tree as left operand. */
  lemma {:induction false} RawParses(ts: seq<Token>, syms: seq<Symbol>, i: nat, t: Tree, p: nat)
    requires Ended(ts) && Printable(t, syms) && Stands(ts, i, Raw(t)) && i + |Raw(t)| < |ts|
    requires p < 80 && Strength(t) > p && Stops(ts[i + |Raw(t)|], Strength(t))
    ensures ParseExpr(ts, syms, i, p) == Climb(ts, syms, t, i + |Raw(t)|, p)
    decreases t, 2
  {
    hide ParseExpr, Climb, Nud, Led, ParseArgs, Stands;
    match t
    case Lit(tok) =>
      StandsOne(ts, i, tok);
      OperandParses(ts, syms, i, p);
    case Id(s, _) =>
      StandsOne(ts, i, Ident(s));
      OperandParses(ts, syms, i, p);
    case Node(op, l, r) => NodeParses(ts, syms, i, t, p);
    case CallT(f, args) => CallParses(ts, syms, i, t, p);
  }

  lemma {:induction false} NodeParses(ts: seq<Token>, syms: seq<Symbol>, i: nat, t: Tree, p: nat)
    requires Ended(ts) && t.Node? && Printable(t, syms) && Stands(ts, i, Raw(t)) && i + |Raw(t)| < |ts|
    requires OpPrec(t.op) > p && Stops(ts[i + |Raw(t)|], OpPrec(t.op))
    ensures ParseExpr(ts, syms, i, p) == Climb(ts, syms, t, i + |Raw(t)|, p)
    decreases t, 1
  {
    hide ParseExpr, Climb, Nud, Led, ParseArgs, Stands, Print;
    var q := OpPrec(t.op);
    var a, b := Print(t.left, q), Print(t.right, q + 1);
    var m := i + |a|;
    StandsThree(ts, i, a, OpTok(t.op), b);
    PrintParses(ts, syms, i, t.left, q, p);
    PrintParses(ts, syms, m + 1, t.right, q + 1, q);
    ClimbStops(ts, syms, t.right, m + 1 + |b|, q);
    PrintNonEmpty(t.right, q + 1);
    ClimbOperator(ts, syms, t.left, t.right, m, m + 1 + |b|, p);
  }

  lemma {:induction false} CallParses(ts: seq<Token>, syms: seq<Symbol>, i: nat, t: Tree, p: nat)
    requires Ended(ts) && t.CallT? && Printable(t, syms) && Stands(ts, i, Raw(t)) && i + |Raw(t)| < |ts|
    requires p < 80
    ensures ParseExpr(ts, syms, i, p) == Climb(ts, syms, t, i + |Raw(t)|, p)
    decreases t, 1
  {
    hide ParseExpr, Climb, Nud, Led, ParseArgs, Stands, PrintArgs;
    var a := PrintArgs(t.args);
    assert Raw(t) == [Ident(t.name)] + [LPar] + (a + [RPar]);
    StandsThree(ts, i, [Ident(t.name)], LPar, a + [RPar]);
    StandsOne(ts, i, Ident(t.name));
    StandsApart(ts, i + 2, a, [RPar]);
    StandsOne(ts, i + 2 + |a|, RPar);
    OperandParses(ts, syms, i, p);
    ArgsParse(ts, syms, i + 2, t.args);
    ClimbCall(ts, syms, Id(t.name, Bind(syms, t.name)), t.args, i + 1, i + 3 + |a|, p);
  }

  lemma {:induction false} PrintParses(ts: seq<Token>, syms: seq<Symbol>, i: nat, t: Tree, q: nat, p: nat)
    requires Ended(ts) && Printable(t, syms) && Stands(ts, i, Print(t, q)) && i + |Print(t, q)| < |ts|
    requires p < q && p < 80 && Stops(ts[i + |Print(t, q)|], q)
    ensures ParseExpr(ts, syms, i, p) == Climb(ts, syms, t, i + |Print(t, q)|, p)
    decreases t, 3
  {
    hide ParseExpr, Climb, Nud, Led, ParseArgs, Stands, Raw, Printable;
    if Strength(t) < q {
      StandsThree(ts, i, [LPar] + Raw(t), RPar, []) by { assert Print(t, q) == [LPar] + Raw(t) + [RPar] + []; }
      StandsApart(ts, i, [LPar], Raw(t));
      StandsOne(ts, i, LPar);
      var n := i + 1 + |Raw(t)|;
      RawParses(ts, syms, i + 1, t, 0);
      ClimbStops(ts, syms, t, n, 0);
      RawNonEmpty(t);
      ParensParse(ts, syms, i, t, n, p);
    } else {
      RawParses(ts, syms, i, t, p);
    }
  }

  lemma {:induction false} ArgsParse(ts: seq<Token>, syms: seq<Symbol>, i: nat, args: Trees)
    requires Ended(ts) && PrintableAll(args, syms) && Stands(ts, i, PrintArgs(args))
    requires i + |PrintArgs(args)| < |ts| && ts[i + |PrintArgs(args)|] == RPar
    ensures ParseArgs(ts, syms, i) == Ok(args, i + |PrintArgs(args)| + 1)
    decreases args, 4
  {
    hide ParseExpr, Climb, Nud, Led, Stands, Print, Printable;
    if args.TCons? {
      var a := Print(args.head, 1);
      PrintStart(args.head, 1, syms);
      if args.next.TCons? {
        StandsThree(ts, i, a, Comma, PrintArgs(args.next));
        PrintParses(ts, syms, i, args.head, 1, 0);
        ClimbStops(ts, syms, args.head, i + |a|, 0);
        ArgsParse(ts, syms, i + |a| + 1, args.next);
      } else {
        PrintParses(ts, syms, i, args.head, 1, 0);
        ClimbStops(ts, syms, args.head, i + |a|, 0);
      }
      StandsHead(ts, i, a);
    }
  }

  lemma RawNonEmpty(t: Tree)
    ensures |Raw(t)| > 0
  {
  }

  lemma PrintNonEmpty(t: Tree, q: nat)
    ensures |Print(t, q)| > 0
  {
    RawNonEmpty(t);
  }

  predicate StartsExpr(t: Token) {
    IsLiteral(t) || t.Ident? || t == LPar
  }

  /** How a printed tree may start. */
  lemma {:induction false} PrintStart(t: Tree, q: nat, syms: seq<Symbol>)
    requires Printable(t, syms)
    ensures |Print(t, q)| > 0 && StartsExpr(Print(t, q)[0])
    decreases t
  {
    if t.Node? {
      PrintStart(t.left, OpPrec(t.op), syms);
      assert Raw(t)[0] == Print(t.left, OpPrec(t.op))[0];
    }
  }

  /** Round trip: parsing a printed tree, anywhere in a token list, returns the same
      tree and stops right after its tokens. */
  lemma ParseUndoesPrint(ts: seq<Token>, syms: seq<Symbol>, i: nat, t: Tree)
    requires Ended(ts) && Printable(t, syms) && Stands(ts, i, Print(t, 1)) && i + |Print(t, 1)| < |ts|
    requires Precedence(ts[i + |Print(t, 1)|]) == 0
    ensures ParseExpr(ts, syms, i, 0) == Ok(t, i + |Print(t, 1)|)
  {
    hide ParseExpr, Climb, Stands, Print, Printable;
    PrintParses(ts, syms, i, t, 1, 0);
    ClimbStops(ts, syms, t, i + |Print(t, 1)|, 0);
  }

  /** Operators of equal strength written without parentheses group to the left. */
  lemma LeftAssociative(ts: seq<Token>, syms: seq<Symbol>, i: nat, a: Tree, op1: Op, b: Tree, op2: Op, c: Tree)
    requires Ended(ts) && OpPrec(op1) == OpPrec(op2)
    requires Printable(a, syms) && Printable(b, syms) && Printable(c, syms)
    requires var s := Print(a, OpPrec(op1)) + [OpTok(op1)] + Print(b, OpPrec(op1) + 1) + [OpTok(op2)] + Print(c, OpPrec(op2) + 1);
             Stands(ts, i, s) && i + |s| < |ts| && Precedence(ts[i + |s|]) == 0
    ensures ParseExpr(ts, syms, i, 0).Ok? && ParseExpr(ts, syms, i, 0).value == Node(op2, Node(op1, a, b), c)
  {
    hide ParseExpr, Climb, Stands, Raw, Print, Printable;
    var l := Node(op1, a, b);
    var t := Node(op2, l, c);
    PrintNode(op1, a, b, OpPrec(op2), syms);
    PrintNode(op2, l, c, 1, syms);
    ParseUndoesPrint(ts, syms, i, t);
  }

  /** An operator not weaker than its place needs no parentheses. */
  lemma PrintNode(op: Op, l: Tree, r: Tree, q: nat, syms: seq<Symbol>)
    requires OpPrec(op) >= q
    ensures Print(Node(op, l, r), q) == Print(l, OpPrec(op)) + [OpTok(op)] + Print(r, OpPrec(op) + 1)
    ensures Printable(Node(op, l, r), syms) == (Printable(l, syms) && Printable(r, syms))
  {
    assert Print(Node(op, l, r), q) == Raw(Node(op, l, r));
  }

  /** Levels of the C grammar: equality, relational, additive, multiplicative. */
  function GrammarLevel(op: Op): nat {
    match op
    case Eq => 0
    case Neq => 0
    case Lt => 1
    case Gt => 1
    case Leq => 1
    case Geq => 1
    case Add => 2
    case Sub => 2
    case Mul => 3
    case Div => 3
    case Mod => 3
  }

  lemma LevelsAgree(a: Op, b: Op)
    ensures OpPrec(a) >= OpPrec(b) <==> GrammarLevel(a) >= GrammarLevel(b)
  {
  }

  /** Three operands without parentheses group as the C grammar says. */
  lemma GroupsAsC(ts: seq<Token>, syms: seq<Symbol>, i: nat, a: Tree, op1: Op, b: Tree, op2: Op, c: Tree)
    requires Ended(ts) && Printable(a, syms) && Printable(b, syms) && Printable(c, syms)
    requires !a.Node? && !b.Node? && !c.Node?
    requires var s := Raw(a) + [OpTok(op1)] + Raw(b) + [OpTok(op2)] + Raw(c);
             Stands(ts, i, s) && i + |s| < |ts| && Precedence(ts[i + |s|]) == 0
    ensures ParseExpr(ts, syms, i, 0).Ok?
    ensures ParseExpr(ts, syms, i, 0).value
         == if GrammarLevel(op1) >= GrammarLevel(op2) then Node(op2, Node(op1, a, b), c) else Node(op1, a, Node(op2, b, c))
  {
    hide ParseExpr, Climb, Stands, Raw, Print, Printable, GrammarLevel;
    LevelsAgree(op1, op2);
    PrintLeaf(a, OpPrec(op1));
    PrintLeaf(b, OpPrec(op1) + 1);
    PrintLeaf(b, OpPrec(op2));
    PrintLeaf(c, OpPrec(op2) + 1);
    if OpPrec(op1) >= OpPrec(op2) {
      PrintNode(op1, a, b, OpPrec(op2), syms);
      PrintNode(op2, Node(op1, a, b), c, 1, syms);
      ParseUndoesPrint(ts, syms, i, Node(op2, Node(op1, a, b), c));
    } else {
      PrintNode(op2, b, c, OpPrec(op1) + 1, syms);
      PrintNode(op1, a, Node(op2, b, c), 1, syms);
      FiveParts(Raw(a), [OpTok(op1)], Raw(b), [OpTok(op2)], Raw(c));
      ParseUndoesPrint(ts, syms, i, Node(op1, a, Node(op2, b, c)));
    }
  }

  lemma PrintLeaf(t: Tree, q: nat)
    requires !t.Node? && q <= 100
    ensures Print(t, q) == Raw(t)
  {
  }

  lemma FiveParts(a: seq<Token>, b: seq<Token>, c: seq<Token>, d: seq<Token>, e: seq<Token>)
    ensures a + b + (c + d + e) == a + b + c + d + e
  {
  }

  lemma MinusOperand(ts: seq<Token>, syms: seq<Symbol>, i: nat, t: Tree, n: nat)
    requires Ended(ts) && i + 1 < n < |ts| && ts[i] == OpTok(Sub)
    requires ParseExpr(ts, syms, i + 1, 90) == Ok(t, n)
    ensures ParseExpr(ts, syms, i, 0) == Climb(ts, syms, Node(Sub, Lit(Number("0")), t), n, 0)
  {
    hide Climb;
    assert Nud(ts, syms, i) == Ok(Node(Sub, Lit(Number("0")), t), n);
  }

  /** The operand of a minus sign, up to a token that is no call. */
  lemma MinusOthers(ts: seq<Token>, syms: seq<Symbol>, i: nat, t: Tree)
    requires Ended(ts) && !t.CallT? && Printable(t, syms) && Stands(ts, i, Print(t, 91))
    requires i + |Print(t, 91)| < |ts| && Precedence(ts[i + |Print(t, 91)|]) == 0
    ensures ParseExpr(ts, syms, i, 90) == Ok(t, i + |Print(t, 91)|)
  {
    hide ParseExpr, Climb, Stands, Nud, ParseArgs;
    var n := i + |Print(t, 91)|;
    PrintNonEmpty(t, 91);
    match t {
    case Lit(tok) =>
      assert Print(t, 91) == [tok];
      StandsOne(ts, i, tok);
      OperandParses(ts, syms, i, 90);
    case Id(s, at) =>
      assert Print(t, 91) == [Ident(s)];
      StandsOne(ts, i, Ident(s));
      OperandParses(ts, syms, i, 90);
    case Node(op, l, r) => MinusParens(ts, syms, i, t);
    }
    ClimbStops(ts, syms, t, n, 90);
  }

  lemma MinusParens(ts: seq<Token>, syms: seq<Symbol>, i: nat, t: Tree)
    requires Ended(ts) && t.Node? && Printable(t, syms) && Stands(ts, i, Print(t, 91))
    requires i + |Print(t, 91)| < |ts|
    ensures ParseExpr(ts, syms, i, 90) == Climb(ts, syms, t, i + |Print(t, 91)|, 90)
  {
    hide ParseExpr, Climb, Stands, Nud, ParseArgs, Raw, Printable;
    var n := i + |Print(t, 91)|;
    assert Print(t, 91) == [LPar] + Raw(t) + [RPar] + [];
    StandsThree(ts, i, [LPar] + Raw(t), RPar, []);
    StandsApart(ts, i, [LPar], Raw(t));
    StandsOne(ts, i, LPar);
    RawParses(ts, syms, i + 1, t, 0);
    RawNonEmpty(t);
    ClimbStops(ts, syms, t, n - 1, 0);
    ParensParse(ts, syms, i, t, n - 1, 90);
  }

  lemma MinusCall(ts: seq<Token>, syms: seq<Symbol>, i: nat, f: string, args: Trees)
    requires Ended(ts) && PrintableAll(args, syms)
    requires Stands(ts, i, [OpTok(Sub)] + ([Ident(f)] + [LPar] + (PrintArgs(args) + [RPar])))
    requires i + 4 + |PrintArgs(args)| < |ts|
    ensures ParseExpr(ts, syms, i, 0) == Climb(ts, syms, CallT(FirstText(ts), args), i + 4 + |PrintArgs(args)|, 0)
  {
    hide *;
    var a := PrintArgs(args);
    StandsApart(ts, i, [OpTok(Sub)], [Ident(f)] + [LPar] + (a + [RPar]));
    StandsOne(ts, i, OpTok(Sub));
    StandsThree(ts, i + 1, [Ident(f)], LPar, a + [RPar]);
    StandsOne(ts, i + 1, Ident(f));
    StandsApart(ts, i + 3, a, [RPar]);
    StandsOne(ts, i + 3 + |a|, RPar);
    var id := Id(f, Bind(syms, f));
    OperandParses(ts, syms, i + 1, 90);
    CallStrength();
    ClimbStops(ts, syms, id, i + 2, 90);
    MinusOperand(ts, syms, i, id, i + 2);
    ArgsParse(ts, syms, i + 3, args);
    var left := Node(Sub, Lit(Number("0")), id);
    ClimbCall(ts, syms, left, args, i + 2, i + 4 + |a|, 0);
    NodeNames(left, FirstText(ts));
  }

  lemma CallStrength()
    ensures Precedence(LPar) == 80
  {
  }

  lemma NodeNames(t: Tree, first: string)
    requires t.Node?
    ensures NodeText(t, first) == first
  {
  }

  /** A minus sign in front of an operand: it negates every operand except a call,
      where the minus binds to the callee's name and the call then names the first
      token of the file. */
  lemma MinusInFront(ts: seq<Token>, syms: seq<Symbol>, i: nat, t: Tree)
    requires Ended(ts) && Printable(t, syms) && Stands(ts, i, [OpTok(Sub)] + Print(t, 91))
    requires i + 1 + |Print(t, 91)| < |ts| && Precedence(ts[i + 1 + |Print(t, 91)|]) == 0
    ensures ParseExpr(ts, syms, i, 0)
         == Ok(if t.CallT? then CallT(FirstText(ts), t.args) else Node(Sub, Lit(Number("0")), t), i + 1 + |Print(t, 91)|)
  {
    hide ParseExpr, Climb, Stands, Nud, ParseArgs, PrintArgs;
    var n := i + 1 + |Print(t, 91)|;
    if t.CallT? {
      assert Print(t, 91) == [Ident(t.name)] + [LPar] + (PrintArgs(t.args) + [RPar]);
      MinusCall(ts, syms, i, t.name, t.args);
      ClimbStops(ts, syms, CallT(FirstText(ts), t.args), n, 0);
    } else {
      StandsApart(ts, i, [OpTok(Sub)], Print(t, 91));
      StandsOne(ts, i, OpTok(Sub));
      PrintNonEmpty(t, 91);
      MinusOthers(ts, syms, i + 1, t);
      MinusOperand(ts, syms, i, t, n);
      ClimbStops(ts, syms, Node(Sub, Lit(Number("0")), t), n, 0);
    }
  }
}
