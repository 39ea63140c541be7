/**
 Slot assignment: which cells the declarations of a function get, which cell every
 name in it stands for, and that the code generator can take the result.
 */
module Slots {
  import opened Words
  import opened Options
  import opened Ast
  import opened Parser
  import opened StatementPrinting

  // ----- names stand for the latest declaration read before them -----

  predicate Bound(t: Tree, syms: seq<Symbol>) {
    match t
    case Lit(tok) => IsLiteral(tok)
    case Id(name, at) => at == Bind(syms, name)
    case Node(_, l, r) => Bound(l, syms) && Bound(r, syms)
    case Deref(e) => Bound(e, syms)
    case CallT(_, args) => BoundArgs(args, syms)
  }

  predicate BoundArgs(ts: Trees, syms: seq<Symbol>) {
    ts.TCons? ==> Bound(ts.head, syms) && BoundArgs(ts.next, syms)
  }

  predicate BoundPost(s: STree, syms: seq<Symbol>, first: string) {
    match s
    case SExpr(e) => Bound(e, syms)
    case SAssign(slot, l, r) => Bound(l, syms) && Bound(r, syms) && slot == SlotOf(syms, NodeText(l, first))
    case _ => false
  }

  /** Every name and slot of `s` is right for a statement read in scope `c`. */
  predicate BoundS(s: STree, c: Scope, first: string) {
    match s
    case SExpr(e) => Bound(e, c.syms)
    case SAssign(slot, l, r) =>
      Bound(l, c.syms) && Bound(r, c.syms) && slot == SlotOf(c.syms, NodeText(BaseOf(l), first))
    case SDecl(name, slot, init) => slot == c.bp && (init.Some? ==> Bound(init.value, Declare(c, name).syms))
    case SIf(e, t, f) =>
      && Bound(e, c.syms) && t.STCons? && BoundAll(t, c, first)
      && (f.Some? ==> f.value.STCons? && BoundAll(f.value, AfterAll(t, c), first))
    case SWhile(e, b) => Bound(e, c.syms) && b.STCons? && BoundAll(b, c, first)
    case SFor(a, e, p, b) =>
      && a.STCons? && b.STCons? && BoundAll(a, c, first)
      && Bound(e, AfterAll(a, c).syms) && BoundPost(p, AfterAll(a, c).syms, first)
      && BoundAll(b, AfterAll(a, c), first)
    case SBlock(items) => BoundAll(items, c, first)
    case SReturn(v) => v.Some? ==> Bound(v.value, c.syms)
  }

  predicate BoundAll(ss: STrees, c: Scope, first: string) {
    ss.STCons? ==> BoundS(ss.head, c, first) && BoundAll(ss.next, After(ss.head, c), first)
  }

  lemma {:induction false} ExprBound(ts: seq<Token>, syms: seq<Symbol>, i: nat, p: nat)
    requires Ended(ts) && i < |ts| && ParseExpr(ts, syms, i, p).Ok?
    ensures Bound(ParseExpr(ts, syms, i, p).value, syms)
    decreases |ts| - i, 2
  {
    hide Nud, Climb;
    NudBound(ts, syms, i);
    var n := Nud(ts, syms, i);
    ClimbBound(ts, syms, n.value, n.next, p);
  }

  lemma {:induction false} NudBound(ts: seq<Token>, syms: seq<Symbol>, i: nat)
    requires Ended(ts) && i < |ts| && Nud(ts, syms, i).Ok?
    ensures Bound(Nud(ts, syms, i).value, syms)
    decreases |ts| - i, 1
  {
    hide ParseExpr;
    if ts[i] == OpTok(Mul) || ts[i] == OpTok(Sub) {
      ExprBound(ts, syms, i + 1, 90);
    } else if ts[i] == LPar {
      ExprBound(ts, syms, i + 1, 0);
    }
  }

  lemma {:induction false} ClimbBound(ts: seq<Token>, syms: seq<Symbol>, left: Tree, i: nat, p: nat)
    requires Ended(ts) && i < |ts| && Bound(left, syms) && Climb(ts, syms, left, i, p).Ok?
    ensures Bound(Climb(ts, syms, left, i, p).value, syms)
    decreases |ts| - i, 1
  {
    hide Led, Bound;
    if Precedence(ts[i]) > p {
      LedBound(ts, syms, left, i);
      var l := Led(ts, syms, left, i);
      ClimbBound(ts, syms, l.value, l.next, p);
    }
  }

  lemma {:induction false} LedBound(ts: seq<Token>, syms: seq<Symbol>, left: Tree, i: nat)
    requires Ended(ts) && i < |ts| && Bound(left, syms) && Precedence(ts[i]) > 0 && Led(ts, syms, left, i).Ok?
    ensures Bound(Led(ts, syms, left, i).value, syms)
    decreases |ts| - i, 0
  {
    hide ParseExpr, ParseArgs;
    if ts[i] == LPar {
      ArgsBound(ts, syms, i + 1);
    } else {
      ExprBound(ts, syms, i + 1, OpPrec(ts[i].op));
    }
  }

  lemma {:induction false} ArgsBound(ts: seq<Token>, syms: seq<Symbol>, i: nat)
    requires Ended(ts) && i < |ts| && ParseArgs(ts, syms, i).Ok?
    ensures BoundArgs(ParseArgs(ts, syms, i).value, syms)
    decreases |ts| - i, 3
  {
    hide ParseExpr, Bound;
    if ts[i] != RPar {
      ExprBound(ts, syms, i, 0);
      var e := ParseExpr(ts, syms, i, 0);
      ArgsBound(ts, syms, if ts[e.next] == Comma then e.next + 1 else e.next);
    }
  }

  /** What holds of a piece read in scope `c`. */
  predicate BoundPiece(r: Piece, c: Scope, first: string) {
    BoundAll(r.trees, c, first) && r.scope == AfterAll(r.trees, c)
  }

  lemma OneBound(s: STree, c: Scope, first: string)
    requires BoundS(s, c, first)
    ensures BoundPiece(Piece(One(s), After(s, c)), c, first)
  {
    assert AfterAll(STNil, After(s, c)) == After(s, c);
  }

  lemma {:induction false} AppendBound(a: STrees, b: STrees, c: Scope, first: string)
    requires BoundAll(a, c, first) && BoundAll(b, AfterAll(a, c), first)
    ensures BoundAll(Append(a, b), c, first) && AfterAll(Append(a, b), c) == AfterAll(b, AfterAll(a, c))
    decreases a
  {
    hide BoundS, After;
    if a.STCons? { AppendBound(a.next, b, After(a.head, c), first); }
  }

  lemma {:induction false} StmtBound(ts: seq<Token>, c: Scope, i: nat)
    requires Ended(ts) && i < |ts| && ParseStmt(ts, c, i).Ok?
    ensures BoundPiece(ParseStmt(ts, c, i).value, c, FirstText(ts))
    decreases |ts| - i, 4
  {
    hide BoundPiece, ParseBlock, ParseIf, ParseWhile, ParseFor, ParseReturn, ParseSimple, ParseDecls, ParseExpr;
    match ts[i]
    case Type(_) => DeclsBound(ts, c, i + 1);
    case LBrace => BlockBound(ts, c, i);
    case KIf => IfBound(ts, c, i);
    case KWhile => WhileBound(ts, c, i);
    case KFor => ForBound(ts, c, i);
    case KReturn => ReturnBound(ts, c, i);
    case _ => SimpleBound(ts, c, i);
  }

  lemma {:induction false} BlockBound(ts: seq<Token>, c: Scope, i: nat)
    requires Ended(ts) && i < |ts| && ParseBlock(ts, c, i).Ok?
    ensures BoundPiece(ParseBlock(ts, c, i).value, c, FirstText(ts))
    decreases |ts| - i, 3
  {
    hide ParseItems, BoundAll, AfterAll;
    ItemsBound(ts, c, i + 1);
    BlockFacts(ParseItems(ts, c, i + 1).value.trees, c, FirstText(ts));
  }

  lemma BlockFacts(items: STrees, c: Scope, first: string)
    requires BoundAll(items, c, first)
    ensures BoundPiece(Piece(One(SBlock(items)), AfterAll(items, c)), c, first)
  {
    OneBound(SBlock(items), c, first);
  }

  lemma {:induction false} ItemsBound(ts: seq<Token>, c: Scope, i: nat)
    requires Ended(ts) && i < |ts| && ParseItems(ts, c, i).Ok?
    ensures BoundPiece(ParseItems(ts, c, i).value, c, FirstText(ts))
    decreases |ts| - i, 5
  {
    hide ParseStmt, BoundS, After;
    if ts[i] != RBrace {
      StmtBound(ts, c, i);
      var s := ParseStmt(ts, c, i);
      ItemsBound(ts, s.value.scope, s.next);
      var more := ParseItems(ts, s.value.scope, s.next);
      AppendBound(s.value.trees, more.value.trees, c, FirstText(ts));
    }
  }

  lemma CondBound(ts: seq<Token>, syms: seq<Symbol>, i: nat)
    requires Ended(ts) && i < |ts| && ParseCond(ts, syms, i).Ok?
    ensures Bound(ParseCond(ts, syms, i).value, syms)
  {
    hide ParseExpr, Bound;
    ExprBound(ts, syms, i + 1, 0);
  }

  lemma {:induction false} IfBound(ts: seq<Token>, c: Scope, i: nat)
    requires Ended(ts) && i < |ts| && ts[i] == KIf && ParseIf(ts, c, i).Ok?
    ensures BoundPiece(ParseIf(ts, c, i).value, c, FirstText(ts))
    decreases |ts| - i, 3
  {
    hide ParseStmt, ParseCond, Bound, BoundAll;
    var e := ParseCond(ts, c.syms, i + 1);
    CondBound(ts, c.syms, i + 1);
    StmtBound(ts, c, e.next);
    var t := ParseStmt(ts, c, e.next);
    if ts[t.next] == KElse {
      StmtBound(ts, t.value.scope, t.next + 1);
    }
    OneBound(ParseIf(ts, c, i).value.trees.head, c, FirstText(ts));
  }

  lemma {:induction false} WhileBound(ts: seq<Token>, c: Scope, i: nat)
    requires Ended(ts) && i < |ts| && ts[i] == KWhile && ParseWhile(ts, c, i).Ok?
    ensures BoundPiece(ParseWhile(ts, c, i).value, c, FirstText(ts))
    decreases |ts| - i, 3
  {
    hide ParseStmt, ParseCond, Bound, BoundAll;
    CondBound(ts, c.syms, i + 1);
    StmtBound(ts, c, ParseCond(ts, c.syms, i + 1).next);
    OneBound(ParseWhile(ts, c, i).value.trees.head, c, FirstText(ts));
  }

  lemma PostBound(ts: seq<Token>, syms: seq<Symbol>, i: nat)
    requires Ended(ts) && i < |ts| && ParsePost(ts, syms, i).Ok?
    ensures BoundPost(ParsePost(ts, syms, i).value, syms, FirstText(ts))
  {
    hide ParseExpr, Bound;
    ExprBound(ts, syms, i, 0);
    var l := ParseExpr(ts, syms, i, 0);
    if ts[l.next] == Becomes { ExprBound(ts, syms, l.next + 1, 0); }
  }

  lemma {:induction false} ForBound(ts: seq<Token>, c: Scope, i: nat)
    requires Ended(ts) && i < |ts| && ts[i] == KFor && ParseFor(ts, c, i).Ok?
    ensures BoundPiece(ParseFor(ts, c, i).value, c, FirstText(ts))
    decreases |ts| - i, 3
  {
    hide ParseStmt, ParseExpr, ParsePost, Bound, BoundPost, BoundAll;
    StmtBound(ts, c, i + 2);
    var a := ParseStmt(ts, c, i + 2);
    var k := a.value.scope;
    ExprBound(ts, k.syms, a.next, 0);
    var e := ParseExpr(ts, k.syms, a.next, 0);
    PostBound(ts, k.syms, e.next + 1);
    var p := ParsePost(ts, k.syms, e.next + 1);
    StmtBound(ts, k, p.next + 1);
    OneBound(ParseFor(ts, c, i).value.trees.head, c, FirstText(ts));
  }

  lemma ReturnBound(ts: seq<Token>, c: Scope, i: nat)
    requires Ended(ts) && i < |ts| && ts[i] == KReturn && ParseReturn(ts, c, i).Ok?
    ensures BoundPiece(ParseReturn(ts, c, i).value, c, FirstText(ts))
  {
    hide ParseExpr, Bound;
    if ts[i + 1] != Semi { ExprBound(ts, c.syms, i + 1, 0); }
    OneBound(ParseReturn(ts, c, i).value.trees.head, c, FirstText(ts));
  }

  lemma SimpleBound(ts: seq<Token>, c: Scope, i: nat)
    requires Ended(ts) && i < |ts| && ParseSimple(ts, c, i).Ok?
    ensures BoundPiece(ParseSimple(ts, c, i).value, c, FirstText(ts))
  {
    hide ParseExpr, Bound;
    ExprBound(ts, c.syms, i, 0);
    var l := ParseExpr(ts, c.syms, i, 0);
    if ts[l.next] == Becomes { ExprBound(ts, c.syms, l.next + 1, 0); }
    OneBound(ParseSimple(ts, c, i).value.trees.head, c, FirstText(ts));
  }

  lemma {:induction false} DeclsBound(ts: seq<Token>, c: Scope, i: nat)
    requires Ended(ts) && i < |ts| && ParseDecls(ts, c, i).Ok?
    ensures BoundPiece(ParseDecls(ts, c, i).value, c, FirstText(ts))
    decreases |ts| - i, 3
  {
    hide ParseExpr, Bound;
    var j := SkipStars(ts, i);
    var k := Declare(c, ts[j].text);
    if ts[j + 1] == Becomes { ExprBound(ts, k.syms, j + 2, 0); }
    var d := ParseInit(ts, k.syms, j + 1);
    var s := SDecl(ts[j].text, c.bp, d.value);
    assert BoundS(s, c, FirstText(ts)) && After(s, c) == k;
    if ts[d.next] == Semi {
      OneBound(s, c, FirstText(ts));
    } else {
      DeclsBound(ts, k, d.next + 1);
    }
  }

  // ----- declarations get consecutive cells -----

  /** Slots of all declarations of a statement, in reading order. */
  function DeclSlots(s: STree): seq<int> {
    match s
    case SDecl(_, slot, _) => [slot]
    case SIf(_, t, f) => DeclSlotsAll(t) + (if f.Some? then DeclSlotsAll(f.value) else [])
    case SWhile(_, b) => DeclSlotsAll(b)
    case SFor(a, _, _, b) => DeclSlotsAll(a) + DeclSlotsAll(b)
    case SBlock(items) => DeclSlotsAll(items)
    case _ => []
  }

  function DeclSlotsAll(ss: STrees): seq<int> {
    if ss.STNil? then [] else DeclSlots(ss.head) + DeclSlotsAll(ss.next)
  }

  /** `s` lists the 4-byte cells from `a` up to `b`. */
  predicate Cells(s: seq<int>, a: int, b: int) {
    b == a + 4 * |s| && forall k :: 0 <= k < |s| ==> s[k] == a + 4 * k
  }

  lemma CellsApart(s: seq<int>, t: seq<int>, a: int, b: int, c: int)
    requires Cells(s, a, b) && Cells(t, b, c)
    ensures Cells(s + t, a, c)
  {
  }

  lemma {:induction false} SlotsAreCells(s: STree, c: Scope, first: string)
    requires BoundS(s, c, first)
    ensures Cells(DeclSlots(s), c.bp, After(s, c).bp)
    decreases s
  {
    match s
    case SIf(_, t, f) =>
      SlotsAreCellsAll(t, c, first);
      if f.Some? {
        SlotsAreCellsAll(f.value, AfterAll(t, c), first);
        CellsApart(DeclSlotsAll(t), DeclSlotsAll(f.value), c.bp, AfterAll(t, c).bp, After(s, c).bp);
      }
    case SWhile(_, b) => SlotsAreCellsAll(b, c, first);
    case SFor(a, _, _, b) =>
      SlotsAreCellsAll(a, c, first);
      SlotsAreCellsAll(b, AfterAll(a, c), first);
      CellsApart(DeclSlotsAll(a), DeclSlotsAll(b), c.bp, AfterAll(a, c).bp, After(s, c).bp);
    case SBlock(items) => SlotsAreCellsAll(items, c, first);
    case _ =>
  }

  lemma {:induction false} SlotsAreCellsAll(ss: STrees, c: Scope, first: string)
    requires BoundAll(ss, c, first)
    ensures Cells(DeclSlotsAll(ss), c.bp, AfterAll(ss, c).bp)
    decreases ss
  {
    if ss.STCons? {
      var k := After(ss.head, c);
      SlotsAreCells(ss.head, c, first);
      SlotsAreCellsAll(ss.next, k, first);
      CellsApart(DeclSlots(ss.head), DeclSlotsAll(ss.next), c.bp, k.bp, AfterAll(ss, c).bp);
    }
  }

  /** Slot of the last declaration of `name` in a statement, in reading order. */
  function LastDecl(s: STree, name: string): Option<int> {
    match s
    case SDecl(x, slot, _) => if x == name then Some(slot) else None
    case SIf(_, t, f) => Latest(LastDeclAll(t, name), if f.Some? then LastDeclAll(f.value, name) else None)
    case SWhile(_, b) => LastDeclAll(b, name)
    case SFor(a, _, _, b) => Latest(LastDeclAll(a, name), LastDeclAll(b, name))
    case SBlock(items) => LastDeclAll(items, name)
    case _ => None
  }

  function LastDeclAll(ss: STrees, name: string): Option<int> {
    if ss.STNil? then None else Latest(LastDecl(ss.head, name), LastDeclAll(ss.next, name))
  }

  function Latest(a: Option<int>, b: Option<int>): Option<int> {
    if b.Some? then b else a
  }

  /** What `name` stands for once declarations up to `last` have been read. */
  function Rebound(last: Option<int>, before: Binding): Binding {
    if last.Some? then Local(last.value) else before
  }

  /** Scopes do not end: after a statement a name stands for the last declaration
      of it inside the statement, even one in a block that is over, and keeps its
      meaning when there is none. */
  lemma {:induction false} MeaningAfter(s: STree, c: Scope, first: string, name: string)
    requires BoundS(s, c, first)
    ensures Bind(After(s, c).syms, name) == Rebound(LastDecl(s, name), Bind(c.syms, name))
    decreases s
  {
    hide Bind, Bound;
    match s
    case SDecl(x, slot, _) => DeclareBinds(c, x, name);
    case SIf(_, t, f) =>
      MeaningAfterAll(t, c, first, name);
      if f.Some? { MeaningAfterAll(f.value, AfterAll(t, c), first, name); }
    case SWhile(_, b) => MeaningAfterAll(b, c, first, name);
    case SFor(a, _, _, b) =>
      MeaningAfterAll(a, c, first, name);
      MeaningAfterAll(b, AfterAll(a, c), first, name);
    case SBlock(items) => MeaningAfterAll(items, c, first, name);
    case _ =>
  }

  lemma {:induction false} MeaningAfterAll(ss: STrees, c: Scope, first: string, name: string)
    requires BoundAll(ss, c, first)
    ensures Bind(AfterAll(ss, c).syms, name) == Rebound(LastDeclAll(ss, name), Bind(c.syms, name))
    decreases ss
  {
    hide Bind, BoundS, After, LastDecl;
    if ss.STCons? {
      MeaningAfter(ss.head, c, first, name);
      MeaningAfterAll(ss.next, After(ss.head, c), first, name);
    }
  }

  lemma DeclareBinds(c: Scope, x: string, name: string)
    ensures Bind(Declare(c, x).syms, name) == if x == name then Local(c.bp) else Bind(c.syms, name)
  {
    var k := Declare(c, x);
    assert k.syms[..|c.syms|] == c.syms;
  }

  /** Parameter `k` gets the cell numbered -12 - 4k; a function sees its name and
      then its parameters after the symbols declared before it. */
  lemma {:induction false} ParamsNumbered(ts: seq<Token>, c: Scope, i: nat)
    requires Ended(ts) && i < |ts| && ParamsEnd(ts, i) && ParseParams(ts, c, i).Ok?
    ensures Numbered(c, ParseParams(ts, c, i).value)
    decreases |ts| - i
  {
    hide Numbered;
    if ts[i] == RPar {
      NumberedNone(c);
    } else if ts[i].Type? {
      var j := SkipStars(ts, i + 1);
      var k := Scope(c.syms + [Symbol(ts[j].text, c.bp, false)], c.bp - 4);
      var n := if ts[j + 1] == Comma then j + 2 else j + 1;
      ParamsNumbered(ts, k, n);
      NumberedOne(c, ts[j].text, ParseParams(ts, k, n).value);
    } else {
      ParamsNumbered(ts, c, i + 1);
    }
  }

  /** The parameters follow the earlier symbols, with offsets going down by four. */
  predicate Numbered(c: Scope, r: Params) {
    && |r.scope.syms| == |c.syms| + |r.names| && r.scope.syms[..|c.syms|] == c.syms
    && r.scope.bp == c.bp - 4 * |r.names|
    && forall k :: 0 <= k < |r.names| ==> r.scope.syms[|c.syms| + k] == Symbol(r.names[k], c.bp - 4 * k, false)
  }

  lemma NumberedNone(c: Scope)
    ensures Numbered(c, Params([], c))
  {
  }

  lemma NumberedOne(c: Scope, name: string, q: Params)
    requires Numbered(Scope(c.syms + [Symbol(name, c.bp, false)], c.bp - 4), q)
    ensures Numbered(c, Params([name] + q.names, q.scope))
  {
    var k := Scope(c.syms + [Symbol(name, c.bp, false)], c.bp - 4);
    var r := Params([name] + q.names, q.scope);
    assert r.scope.syms[..|c.syms|] == q.scope.syms[..|k.syms|][..|c.syms|];
    assert r.scope.syms[|c.syms|] == q.scope.syms[..|k.syms|][|c.syms|];
    forall m | 0 <= m < |r.names| ensures r.scope.syms[|c.syms| + m] == Symbol(r.names[m], c.bp - 4 * m, false) {
      if m > 0 { assert q.scope.syms[|k.syms| + (m - 1)] == Symbol(q.names[m - 1], k.bp - 4 * (m - 1), false); }
    }
  }

  /** The locals of a parsed function, nested blocks included, occupy pairwise
      different cells 0, 4, 8, ... that fill exactly its local bytes. */
  lemma FunctionCells(ts: seq<Token>, syms: seq<Symbol>, count: nat, i: nat)
    requires Ended(ts) && i < |ts| && ts[i].Type?
    requires ts[i + 1].Ident? && ts[i + 2] == LPar ==> ParamsEnd(ts, i + 3)
    requires ParseFunction(ts, syms, count, i).Ok? && ParseFunction(ts, syms, count, i).value.fn.body.Some?
    ensures var fn := ParseFunction(ts, syms, count, i).value.fn;
            Cells(DeclSlotsAll(fn.body.value), 0, fn.localBytes)
  {
    hide ParseBlock, ParseParams, Cells, DeclSlotsAll, BoundAll, AfterAll;
    var ps := ParseParams(ts, Scope(syms + [Symbol(ts[i + 1].text, count, true)], -12), i + 3);
    var c := Scope(ps.value.scope.syms, 0);
    BlockBound(ts, c, ps.next);
    SlotsAreCellsAll(ParseBlock(ts, c, ps.next).value.trees, c, FirstText(ts));
  }
}
