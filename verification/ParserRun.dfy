/**
 The parser as it runs: a cursor over the token array, a growing symbol table and
 the next free offset, all updated in place by methods that call each other.
 */
module ParserRun {
  import opened Options
  import opened Ast
  import opened Parser

  function JoinTrees(a: Trees, b: Trees): Trees {
    if a.TNil? then b else TCons(a.head, JoinTrees(a.next, b))
  }

  lemma {:induction false} JoinTreesAssoc(a: Trees, e: Tree, b: Trees)
    ensures JoinTrees(JoinTrees(a, TCons(e, TNil)), b) == JoinTrees(a, TCons(e, b))
    decreases a
  {
    if a.TCons? { JoinTreesAssoc(a.next, e, b); }
  }

  lemma {:induction false} JoinTreesNil(a: Trees)
    ensures JoinTrees(a, TNil) == a
    decreases a
  {
    if a.TCons? { JoinTreesNil(a.next); }
  }

  lemma {:induction false} AppendAssoc(a: STrees, b: STrees, c: STrees)
    ensures Append(Append(a, b), c) == Append(a, Append(b, c))
    decreases a
  {
    if a.STCons? { AppendAssoc(a.next, b, c); }
  }

  lemma {:induction false} AppendNil(a: STrees)
    ensures Append(a, STNil) == a
    decreases a
  {
    if a.STCons? { AppendNil(a.next); }
  }

  /** The arguments read so far in front of the rest. */
  function AfterArgs(done: Trees, rest: Parsed<Trees>): Parsed<Trees> {
    if rest.Abort? then Abort else Ok(JoinTrees(done, rest.value), rest.next)
  }

  function AfterItems(done: STrees, rest: Parsed<Piece>): Parsed<Piece> {
    if rest.Abort? then Abort else Ok(Piece(Append(done, rest.value.trees), rest.value.scope), rest.next)
  }

  function AfterNames(done: seq<string>, rest: Parsed<Params>): Parsed<Params> {
    if rest.Abort? then Abort else Ok(Params(done + rest.value.names, rest.value.scope), rest.next)
  }

  lemma AfterItemsTwice(done: STrees, s: STrees, rest: Parsed<Piece>)
    ensures AfterItems(done, AfterItems(s, rest)) == AfterItems(Append(done, s), rest)
  {
    if rest.Ok? { AppendAssoc(done, s, rest.value.trees); }
  }

  lemma AfterNamesTwice(done: seq<string>, s: seq<string>, rest: Parsed<Params>)
    ensures AfterNames(done, AfterNames(s, rest)) == AfterNames(done + s, rest)
    ensures AfterNames([], rest) == rest
  {
    if rest.Ok? {
      assert done + (s + rest.value.names) == done + s + rest.value.names;
      assert [] + rest.value.names == rest.value.names;
    }
  }

  /** The declarator at `i`: the variable comes into scope, then its value is read. */
  function DeclaratorAt(ts: seq<Token>, c: Scope, i: nat): Parsed<Option<Tree>>
    requires Ended(ts) && i < |ts|
  {
    var j := SkipStars(ts, i);
    if ts[j].Ident? then ParseInit(ts, Declare(c, ts[j].text).syms, j + 1) else Abort
  }

  function DeclaredName(ts: seq<Token>, i: nat): string
    requires Ended(ts) && i < |ts|
  {
    Text(ts[SkipStars(ts, i)])
  }

  lemma DeclaratorEnds(ts: seq<Token>, c: Scope, i: nat)
    requires Ended(ts) && i < |ts|
    ensures var d := DeclaratorAt(ts, c, i);
            d.Ok? ==> i < d.next < |ts|
  {
    hide ParseInit;
  }

  lemma DeclsStep(ts: seq<Token>, c: Scope, i: nat)
    requires Ended(ts) && i < |ts|
    ensures var d := DeclaratorAt(ts, c, i);
            var k := Declare(c, DeclaredName(ts, i));
            ParseDecls(ts, c, i)
            == if d.Abort? then Abort
               else
                 var s := One(SDecl(DeclaredName(ts, i), c.bp, d.value));
                 if ts[d.next] == Semi then Ok(Piece(s, k), d.next + 1)
                 else if ts[d.next] == Comma then AfterItems(s, ParseDecls(ts, k, d.next + 1))
                 else Abort
  {
    hide ParseInit;
    var j := SkipStars(ts, i);
    var d := DeclaratorAt(ts, c, i);
    if d.Ok? && ts[d.next] == Comma {
      var more := ParseDecls(ts, Declare(c, ts[j].text), d.next + 1);
      if more.Ok? { assert Append(STNil, more.value.trees) == more.value.trees; }
    }
  }

  lemma ParamsStep(ts: seq<Token>, c: Scope, i: nat)
    requires Ended(ts) && i < |ts| && ParamsEnd(ts, i) && ts[i].Type? && ts[SkipStars(ts, i + 1)].Ident?
    ensures var j := SkipStars(ts, i + 1);
            var n := if ts[j + 1] == Comma then j + 2 else j + 1;
            && ParamsEnd(ts, n)
            && ParseParams(ts, c, i)
            == AfterNames([ts[j].text], ParseParams(ts, Scope(c.syms + [Symbol(ts[j].text, c.bp, false)], c.bp - 4), n))
  {
  }

  lemma ParamsReject(ts: seq<Token>, c: Scope, i: nat, done: seq<string>)
    requires Ended(ts) && i < |ts| && ParamsEnd(ts, i) && ts[i].Type?
    ensures !ts[SkipStars(ts, i + 1)].Ident? ==> AfterNames(done, ParseParams(ts, c, i)).Abort?
  {
  }

  lemma ParamsSkip(ts: seq<Token>, c: Scope, i: nat)
    requires Ended(ts) && i < |ts| && ParamsEnd(ts, i) && !ts[i].Type? && ts[i] != RPar
    ensures ts[i] == Comma && ParamsEnd(ts, i + 1) && ParseParams(ts, c, i) == ParseParams(ts, c, i + 1)
  {
  }

  lemma ParamsStop(ts: seq<Token>, c: Scope, i: nat, done: seq<string>)
    requires Ended(ts) && i < |ts| && ParamsEnd(ts, i) && ts[i] == RPar
    ensures AfterNames(done, ParseParams(ts, c, i)) == Ok(Params(done, c), i + 1)
  {
    assert done + [] == done;
  }

  lemma AfterNothing(r: Parsed<Piece>)
    ensures AfterItems(STNil, r) == r
  {
  }

  lemma AfterAbort(done: STrees)
    ensures AfterItems(done, Abort).Abort?
  {
  }

  lemma AfterLast(done: STrees, s: STrees, k: Scope, n: nat)
    ensures AfterItems(done, Ok(Piece(s, k), n)) == Ok(Piece(Append(done, s), k), n)
  {
  }

  class TokenParser {
    const tokens: seq<Token>
    var tp1: nat
    var symtab: seq<Symbol>
    var bp: int

    ghost predicate Valid()
      reads this
    {
      Ended(tokens) && tp1 < |tokens|
    }

    ghost function Here(): Scope
      reads this
    {
      Scope(symtab, bp)
    }

    /** The run ended as the functions say: with this tree and cursor, or aborted. */
    ghost predicate Ends<T>(ok: bool, tree: T, r: Parsed<T>)
      reads this
    {
      ok == r.Ok? && (ok ==> tree == r.value && tp1 == r.next)
    }

    /** The same for statements, which also change the scope. */
    ghost predicate EndsPiece(ok: bool, trees: STrees, r: Parsed<Piece>)
      reads this
    {
      ok == r.Ok? && (ok ==> Piece(trees, Here()) == r.value && tp1 == r.next)
    }

    constructor (tokens: seq<Token>)
      requires Ended(tokens)
      ensures Valid() && this.tokens == tokens && tp1 == 0 && Here() == Scope([], 0)
    {
      this.tokens := tokens;
      tp1, symtab, bp := 0, [], 0;
    }

    method Consume(t: Token) returns (ok: bool)
      requires Valid() && t != Eof
      modifies `tp1
      ensures ok == (tokens[old(tp1)] == t) && tp1 == (if ok then old(tp1) + 1 else old(tp1)) && Valid()
    {
      ok := tokens[tp1] == t;
      if ok { tp1 := tp1 + 1; }
    }

    method ParseExpression(p: nat) returns (ok: bool, left: Tree)
      requires Valid()
      modifies `tp1
      ensures Ends(ok, left, ParseExpr(tokens, symtab, old(tp1), p)) && (ok ==> Valid())
      decreases |tokens| - tp1, 2
    {
      ghost var start := tp1;
      ok, left := ParseNud();
      if !ok { return; }
      while Precedence(tokens[tp1]) > p
        invariant Valid() && start < tp1
        invariant ParseExpr(tokens, symtab, start, p) == Climb(tokens, symtab, left, tp1, p)
        decreases |tokens| - tp1
      {
        ok, left := ParseLed(left);
        if !ok { return; }
      }
    }

    method ParseNud() returns (ok: bool, tree: Tree)
      requires Valid()
      modifies `tp1
      ensures Ends(ok, tree, Nud(tokens, symtab, old(tp1))) && (ok ==> Valid())
      decreases |tokens| - tp1, 1
    {
      tree := Deref(Lit(Eof));
      var t := tokens[tp1];
      if t == OpTok(Mul) {
        tp1 := tp1 + 1;
        var e;
        ok, e := ParseExpression(90);
        tree := Deref(e);
      } else if t == OpTok(Sub) {
        tp1 := tp1 + 1;
        var e;
        ok, e := ParseExpression(90);
        tree := Node(Sub, Lit(Number("0")), e);
      } else if IsLiteral(t) {
        tree := Lit(t);
        tp1 := tp1 + 1;
        ok := true;
      } else if t == LPar {
        tp1 := tp1 + 1;
        ok, tree := ParseExpression(0);
        if ok { ok := Consume(RPar); }
      } else if t.Ident? {
        tree := Id(t.text, Bind(symtab, t.text));
        tp1 := tp1 + 1;
        ok := true;
      } else {
        ok := false;
      }
    }

    method ParseLed(left: Tree) returns (ok: bool, tree: Tree)
      requires Valid() && Precedence(tokens[tp1]) > 0
      modifies `tp1
      ensures Ends(ok, tree, Led(tokens, symtab, left, old(tp1))) && (ok ==> Valid() && old(tp1) < tp1)
      decreases |tokens| - tp1, 0
    {
      var op := tokens[tp1];
      tp1 := tp1 + 1;
      if op == LPar {
        ghost var start := tp1;
        var args := TNil;
        while tokens[tp1] != RPar
          invariant Valid() && start <= tp1
          invariant ParseArgs(tokens, symtab, start) == AfterArgs(args, ParseArgs(tokens, symtab, tp1))
          decreases |tokens| - tp1
        {
          ghost var before := tp1;
          var e;
          ok, e := ParseExpression(0);
          if !ok { tree := left; return; }
          if tokens[tp1] == Comma { tp1 := tp1 + 1; }
          ghost var rest := ParseArgs(tokens, symtab, tp1);
          if rest.Ok? { JoinTreesAssoc(args, e, rest.value); }
          args := JoinTrees(args, TCons(e, TNil));
        }
        ok := Consume(RPar);
        JoinTreesNil(args);
        tree := CallT(NodeText(left, Text(tokens[0])), args);
      } else {
        var e;
        ok, e := ParseExpression(OpPrec(op.op));
        tree := Node(op.op, left, e);
      }
    }

    method ParseCondition() returns (ok: bool, cond: Tree)
      requires Valid()
      modifies `tp1
      ensures Ends(ok, cond, ParseCond(tokens, symtab, old(tp1))) && (ok ==> Valid())
    {
      cond := Lit(Eof);
      ok := Consume(LPar);
      if !ok { return; }
      ok, cond := ParseExpression(0);
      if ok { ok := Consume(RPar); }
    }

    method ParseStatement() returns (ok: bool, trees: STrees)
      requires Valid()
      modifies this
      ensures EndsPiece(ok, trees, ParseStmt(tokens, old(Here()), old(tp1))) && (ok ==> Valid())
      decreases |tokens| - tp1, 4
    {
      hide ParseBlock, ParseIf, ParseWhile, ParseFor, ParseReturn, ParseSimple, ParseDecls;
      var t := tokens[tp1];
      if t.Type? {
        ok, trees := ParseDeclaration();
      } else if t == LBrace {
        ok, trees := ParseBraces();
      } else if t == KIf {
        ok, trees := ParseIfStmt();
      } else if t == KWhile {
        ok, trees := ParseWhileStmt();
      } else if t == KFor {
        ok, trees := ParseForStmt();
      } else if t == KReturn {
        ok, trees := ParseReturnStmt();
      } else {
        ok, trees := ParseSimpleStmt();
      }
    }

    method ParseBraces() returns (ok: bool, trees: STrees)
      requires Valid()
      modifies this
      ensures EndsPiece(ok, trees, ParseBlock(tokens, old(Here()), old(tp1))) && (ok ==> Valid())
      decreases |tokens| - tp1, 3
    {
      hide ParseStmt;
      trees := STNil;
      ok := Consume(LBrace);
      if !ok { return; }
      ghost var start, scope := tp1, Here();
      var items := STNil;
      while tokens[tp1] != RBrace
        invariant Valid() && start <= tp1
        invariant ParseItems(tokens, scope, start) == AfterItems(items, ParseItems(tokens, Here(), tp1))
        decreases |tokens| - tp1
      {
        var s;
        ok, s := ParseStatement();
        if !ok { return; }
        ghost var rest := ParseItems(tokens, Here(), tp1);
        if rest.Ok? { AppendAssoc(items, s, rest.value.trees); }
        items := Append(items, s);
      }
      AppendNil(items);
      ok := Consume(RBrace);
      trees := One(SBlock(items));
    }

    method ParseIfStmt() returns (ok: bool, trees: STrees)
      requires Valid() && tokens[tp1] == KIf
      modifies this
      ensures EndsPiece(ok, trees, ParseIf(tokens, old(Here()), old(tp1))) && (ok ==> Valid())
      decreases |tokens| - tp1, 3
    {
      hide ParseStmt, ParseCond;
      trees := STNil;
      ok := Consume(KIf);
      var cond;
      ok, cond := ParseCondition();
      if !ok { return; }
      var thn;
      ok, thn := ParseStatement();
      if !ok { return; }
      if tokens[tp1] == KElse {
        ok := Consume(KElse);
        var els;
        ok, els := ParseStatement();
        trees := One(SIf(cond, thn, Some(els)));
      } else {
        trees := One(SIf(cond, thn, None));
      }
    }

    method ParseWhileStmt() returns (ok: bool, trees: STrees)
      requires Valid() && tokens[tp1] == KWhile
      modifies this
      ensures EndsPiece(ok, trees, ParseWhile(tokens, old(Here()), old(tp1))) && (ok ==> Valid())
      decreases |tokens| - tp1, 3
    {
      hide ParseStmt, ParseCond;
      trees := STNil;
      ok := Consume(KWhile);
      var cond;
      ok, cond := ParseCondition();
      if !ok { return; }
      var body;
      ok, body := ParseStatement();
      trees := One(SWhile(cond, body));
    }

    method ParseForStmt() returns (ok: bool, trees: STrees)
      requires Valid() && tokens[tp1] == KFor
      modifies this
      ensures EndsPiece(ok, trees, ParseFor(tokens, old(Here()), old(tp1))) && (ok ==> Valid())
      decreases |tokens| - tp1, 3
    {
      hide ParseStmt, ParseExpr, ParsePost;
      trees := STNil;
      ok := Consume(KFor);
      ok := Consume(LPar);
      if !ok { return; }
      var start;
      ok, start := ParseStatement();
      if !ok { return; }
      var cond;
      ok, cond := ParseExpression(0);
      if !ok { return; }
      ok := Consume(Semi);
      if !ok { return; }
      var post;
      ok, post := ParseForPost();
      if !ok { return; }
      ok := Consume(RPar);
      if !ok { return; }
      var body;
      ok, body := ParseStatement();
      trees := One(SFor(start, cond, post, body));
    }

    method ParseForPost() returns (ok: bool, post: STree)
      requires Valid()
      modifies `tp1
      ensures Ends(ok, post, ParsePost(tokens, symtab, old(tp1))) && (ok ==> Valid())
    {
      var left, right;
      ok, left := ParseExpression(0);
      post := SExpr(left);
      if ok && tokens[tp1] == Becomes {
        tp1 := tp1 + 1;
        ok, right := ParseExpression(0);
        post := SAssign(SlotOf(symtab, NodeText(left, Text(tokens[0]))), left, right);
      }
    }

    method ParseReturnStmt() returns (ok: bool, trees: STrees)
      requires Valid() && tokens[tp1] == KReturn
      modifies this
      ensures EndsPiece(ok, trees, ParseReturn(tokens, old(Here()), old(tp1))) && (ok ==> Valid())
    {
      hide ParseExpr;
      trees := One(SReturn(None));
      ok := Consume(KReturn);
      if tokens[tp1] != Semi {
        var e;
        ok, e := ParseExpression(0);
        if !ok { return; }
        trees := One(SReturn(Some(e)));
      }
      ok := Consume(Semi);
    }

    method ParseSimpleStmt() returns (ok: bool, trees: STrees)
      requires Valid()
      modifies this
      ensures EndsPiece(ok, trees, ParseSimple(tokens, old(Here()), old(tp1))) && (ok ==> Valid())
    {
      hide ParseExpr;
      var left;
      ok, left := ParseExpression(0);
      trees := One(SExpr(left));
      if !ok { return; }
      if tokens[tp1] == Becomes {
        tp1 := tp1 + 1;
        var base := left;
        while base.Deref?
          invariant BaseOf(base) == BaseOf(left)
          decreases base
        {
          base := base.e;
        }
        var right;
        ok, right := ParseExpression(0);
        if !ok { return; }
        trees := One(SAssign(SlotOf(symtab, NodeText(base, Text(tokens[0]))), left, right));
      }
      ok := Consume(Semi);
    }

    method SkipPointerStars()
      requires Valid()
      modifies `tp1
      ensures tp1 == SkipStars(tokens, old(tp1)) && Valid() && old(tp1) <= tp1
    {
      while tokens[tp1] == OpTok(Mul)
        invariant Valid() && old(tp1) <= tp1
        invariant SkipStars(tokens, old(tp1)) == SkipStars(tokens, tp1)
        decreases |tokens| - tp1
      {
        tp1 := tp1 + 1;
      }
    }

    /** One declarator, at `offset` from the base. */
    method ParseDeclarator(offset: int) returns (ok: bool, s: STree)
      requires Valid()
      modifies `tp1, `symtab
      ensures var c := Scope(old(symtab), bp + offset);
              var d, name := DeclaratorAt(tokens, c, old(tp1)), DeclaredName(tokens, old(tp1));
              ok == d.Ok? && (ok ==> Valid() && tp1 == d.next && symtab == Declare(c, name).syms && s == SDecl(name, c.bp, d.value))
      decreases |tokens| - tp1, 3
    {
      hide ParseExpr;
      s := SBlock(STNil);
      SkipPointerStars();
      if !tokens[tp1].Ident? { ok := false; return; }
      var name := tokens[tp1].text;
      tp1 := tp1 + 1;
      symtab := symtab + [Symbol(name, bp + offset, false)];
      var init := None;
      if tokens[tp1] == Becomes {
        tp1 := tp1 + 1;
        var e;
        ok, e := ParseExpression(0);
        if !ok { return; }
        init := Some(e);
      }
      ok, s := true, SDecl(name, bp + offset, init);
    }

    /** Declarators share one base offset, which moves only after the last one. */
    method ParseDeclaration() returns (ok: bool, trees: STrees)
      requires Valid() && tokens[tp1].Type?
      modifies this
      ensures EndsPiece(ok, trees, ParseDecls(tokens, old(Here()), old(tp1) + 1)) && (ok ==> Valid())
      decreases |tokens| - tp1, 3
    {
      hide DeclaratorAt, DeclaredName, ParseDecls, AfterItems, Append;
      ghost var scope := Here();
      var currOffset := 0;
      trees := STNil;
      tp1 := tp1 + 1;
      ghost var start := tp1;
      AfterNothing(ParseDecls(tokens, scope, start));
      while true
        invariant Valid() && start <= tp1 && bp == scope.bp
        invariant ParseDecls(tokens, scope, start) == AfterItems(trees, ParseDecls(tokens, Scope(symtab, bp + currOffset), tp1))
        decreases |tokens| - tp1
      {
        ghost var c, before, done := Scope(symtab, bp + currOffset), tp1, trees;
        DeclsStep(tokens, c, tp1);
        DeclaratorEnds(tokens, c, tp1);
        AfterAbort(trees);
        var s;
        ok, s := ParseDeclarator(currOffset);
        if !ok { return; }
        currOffset := currOffset + 4;
        trees := Append(trees, One(s));
        ghost var k := Scope(symtab, bp + currOffset);
        assert k == Declare(c, DeclaredName(tokens, before));
        if tokens[tp1] == Comma {
          tp1 := tp1 + 1;
          AfterItemsTwice(done, One(s), ParseDecls(tokens, k, tp1));
        } else if tokens[tp1] == Semi {
          AfterLast(done, One(s), k, tp1 + 1);
          break;
        } else {
          ok := false;
          return;
        }
      }
      bp := bp + currOffset;
      ok := Consume(Semi);
    }

    /** A function; its name becomes global symbol number `count`. */
    method ParseFunctionDef(count: nat) returns (ok: bool, fn: FuncTree)
      requires Valid() && tokens[tp1].Type?
      requires tokens[tp1 + 1].Ident? && tokens[tp1 + 2] == LPar ==> ParamsEnd(tokens, tp1 + 3)
      modifies this
      ensures var r := ParseFunction(tokens, old(symtab), count, old(tp1));
              ok == r.Ok? && (ok ==> Valid() && tp1 == r.next && fn == r.value.fn
                                     && symtab == r.value.scope.syms && (fn.body.Some? ==> bp == r.value.scope.bp))
    {
      hide ParseBlock;
      fn := FuncTree("", [], None, 0);
      tp1 := tp1 + 1;
      if !tokens[tp1].Ident? { ok := false; return; }
      var name := tokens[tp1].text;
      tp1 := tp1 + 1;
      symtab := symtab + [Symbol(name, count, true)];
      bp := -12;
      ok := Consume(LPar);
      if !ok { return; }
      var params;
      ok, params := ParseParamList();
      if !ok { return; }
      if tokens[tp1] == Semi {
        ok := Consume(Semi);
        fn := FuncTree(name, params, None, 0);
      } else {
        bp := 0;
        var body;
        ok, body := ParseBraces();
        fn := FuncTree(name, params, Some(body), bp);
      }
    }

    method ParseParamList() returns (ok: bool, names: seq<string>)
      requires Valid() && ParamsEnd(tokens, tp1)
      modifies this
      ensures var r := ParseParams(tokens, old(Here()), old(tp1));
              ok == r.Ok? && (ok ==> Valid() && tp1 == r.next && r.value == Params(names, Here()))
    {
      hide ParseParams, SkipStars, AfterNames, ParamsEnd;
      names := [];
      AfterNamesTwice([], [], ParseParams(tokens, Here(), tp1));
      while tokens[tp1] != RPar
        invariant Valid() && ParamsEnd(tokens, tp1)
        invariant ParseParams(tokens, old(Here()), old(tp1)) == AfterNames(names, ParseParams(tokens, Here(), tp1))
        decreases |tokens| - tp1
      {
        ghost var c, before, done := Here(), tp1, names;
        if tokens[tp1].Type? {
          tp1 := tp1 + 1;
          SkipPointerStars();
          ParamsReject(tokens, c, before, done);
          if !tokens[tp1].Ident? { ok := false; return; }
          ParamsStep(tokens, c, before);
          symtab := symtab + [Symbol(tokens[tp1].text, bp, false)];
          bp := bp - 4;
          names := names + [tokens[tp1].text];
          tp1 := tp1 + 1;
          if tokens[tp1] == Comma { tp1 := tp1 + 1; }
          AfterNamesTwice(done, [names[|done|]], ParseParams(tokens, Here(), tp1));
        } else {
          ParamsSkip(tokens, c, tp1);
          if tokens[tp1] == Comma { tp1 := tp1 + 1; }
        }
      }
      ParamsStop(tokens, Here(), tp1, names);
      ok := Consume(RPar);
    }
  }
}
