/**
 The expression and statement parser: functions from the token list, a cursor and
 the symbols declared so far to a tree and the cursor after it. A syntax error
 aborts the whole compilation.
 */
module Parser {
  import opened Options
  import opened Ast

  datatype Token =
    | Ident(text: string) | Number(text: string) | CharTok(text: string) | StrTok(text: string)
    | OpTok(op: Op)
    | LPar | RPar | LBrace | RBrace | Comma | Semi | Becomes
    | KIf | KElse | KWhile | KFor | KReturn | Type(text: string) | Eof

  /** Entry of the symbol table; entries are never removed. */
  datatype Symbol = Symbol(name: string, offset: int, isGlobal: bool)

  /** Symbols declared so far and the offset of the next declaration. */
  datatype Scope = Scope(syms: seq<Symbol>, bp: int)

  datatype Binding = Local(off: int) | Global(off: int)

  /** Expression trees; a call names its function by the text of a token. */
  datatype Tree =
    | Lit(tok: Token)
    | Id(name: string, at: Binding)
    | Node(op: Op, left: Tree, right: Tree)
    | Deref(e: Tree)
    | CallT(name: string, args: Trees)

  datatype Trees = TNil | TCons(head: Tree, next: Trees)

  /** Statement trees. Branches and bodies hold every node one source statement
      gave: one, except for a declaration with several declarators. */
  datatype STree =
    | SExpr(e: Tree)
    | SAssign(slot: int, left: Tree, right: Tree)
    | SDecl(name: string, slot: int, init: Option<Tree>)
    | SIf(cond: Tree, thn: STrees, els: Option<STrees>)
    | SWhile(cond: Tree, body: STrees)
    | SFor(start: STrees, cond: Tree, post: STree, body: STrees)
    | SBlock(items: STrees)
    | SReturn(value: Option<Tree>)

  datatype STrees = STNil | STCons(head: STree, next: STrees)

  datatype Piece = Piece(trees: STrees, scope: Scope)

  /** A result and the cursor after it, or an abort of the compilation. */
  datatype Parsed<T> = Abort | Ok(value: T, next: nat)

  /** Tokens end in exactly one Eof. */
  predicate Ended(ts: seq<Token>) {
    |ts| > 0 && ts[|ts| - 1] == Eof && forall i :: 0 <= i < |ts| - 1 ==> ts[i] != Eof
  }

  function OpPrec(op: Op): nat {
    match op
    case Mul => 60
    case Div => 60
    case Mod => 60
    case Add => 40
    case Sub => 40
    case Lt => 30
    case Gt => 30
    case Leq => 30
    case Geq => 30
    case Eq => 20
    case Neq => 20
  }

  function OpText(op: Op): string {
    match op
    case Mul => "*"
    case Div => "/"
    case Mod => "%"
    case Add => "+"
    case Sub => "-"
    case Lt => "<"
    case Gt => ">"
    case Leq => "<="
    case Geq => ">="
    case Eq => "=="
    case Neq => "!="
  }

  function Text(t: Token): string {
    match t
    case Ident(s) => s
    case Number(s) => s
    case CharTok(s) => s
    case StrTok(s) => s
    case Type(s) => s
    case OpTok(op) => OpText(op)
    case LPar => "("
    case RPar => ")"
    case LBrace => "{"
    case RBrace => "}"
    case Comma => ","
    case Semi => ";"
    case Becomes => "="
    case KIf => "if"
    case KElse => "else"
    case KWhile => "while"
    case KFor => "for"
    case KReturn => "return"
    case Eof => ""
  }

  /** Binding strength of a token after an operand; 0 ends the expression. */
  function Precedence(t: Token): nat {
    match t
    case LPar => 80
    case OpTok(op) => OpPrec(op)
    case _ => 0
  }

  predicate IsLiteral(t: Token) {
    t.Number? || t.CharTok? || t.StrTok?
  }

  // ----- symbols -----

  /** Index of the latest symbol of that name, or -1. */
  function FindSymbol(syms: seq<Symbol>, name: string): (r: int)
    ensures -1 <= r < |syms|
    ensures r >= 0 ==> syms[r].name == name
    ensures forall j :: r < j < |syms| ==> syms[j].name != name
  {
    if syms == [] then -1
    else if syms[|syms| - 1].name == name then |syms| - 1
    else FindSymbol(syms[..|syms| - 1], name)
  }

  /** What a name in an expression stands for; an unknown name gets slot 0. */
  function Bind(syms: seq<Symbol>, name: string): Binding {
    var k := FindSymbol(syms, name);
    if k == -1 then Local(0)
    else if syms[k].isGlobal then Global(syms[k].offset)
    else Local(syms[k].offset)
  }

  /** Slot written in an assignment node. */
  function SlotOf(syms: seq<Symbol>, name: string): int {
    var k := FindSymbol(syms, name);
    if k == -1 then 0 else syms[k].offset
  }

  /** Text of the token a node points at; nodes without one point at the first
      token of the file. */
  function NodeText(t: Tree, first: string): string {
    match t
    case Id(name, _) => name
    case Lit(tok) => Text(tok)
    case Deref(_) => OpText(Mul)
    case _ => first
  }

  /** The variable under any number of dereferences. */
  function BaseOf(t: Tree): Tree {
    if t.Deref? then BaseOf(t.e) else t
  }

  function FirstText(ts: seq<Token>): string
    requires Ended(ts)
  {
    Text(ts[0])
  }

  // ----- expressions -----

  function ParseExpr(ts: seq<Token>, syms: seq<Symbol>, i: nat, p: nat): (r: Parsed<Tree>)
    requires Ended(ts) && i < |ts|
    ensures r.Ok? ==> i < r.next < |ts|
    decreases |ts| - i, 2
  {
    var n := Nud(ts, syms, i);
    if n.Abort? then Abort else Climb(ts, syms, n.value, n.next, p)
  }

  /** The operand an expression starts with. */
  function Nud(ts: seq<Token>, syms: seq<Symbol>, i: nat): (r: Parsed<Tree>)
    requires Ended(ts) && i < |ts|
    ensures r.Ok? ==> i < r.next < |ts|
    decreases |ts| - i, 1
  {
    if ts[i] == OpTok(Mul) then
      var r := ParseExpr(ts, syms, i + 1, 90);
      if r.Abort? then Abort else Ok(Deref(r.value), r.next)
    else if ts[i] == OpTok(Sub) then
      var r := ParseExpr(ts, syms, i + 1, 90);
      if r.Abort? then Abort else Ok(Node(Sub, Lit(Number("0")), r.value), r.next)
    else if IsLiteral(ts[i]) then Ok(Lit(ts[i]), i + 1)
    else if ts[i] == LPar then
      var r := ParseExpr(ts, syms, i + 1, 0);
      if r.Abort? || ts[r.next] != RPar then Abort else Ok(r.value, r.next + 1)
    else if ts[i].Ident? then Ok(Id(ts[i].text, Bind(syms, ts[i].text)), i + 1)
    else Abort
  }

  /** Operators binding tighter than `p` take the tree so far as left operand. */
  function Climb(ts: seq<Token>, syms: seq<Symbol>, left: Tree, i: nat, p: nat): (r: Parsed<Tree>)
    requires Ended(ts) && i < |ts|
    ensures r.Ok? ==> i <= r.next < |ts|
    decreases |ts| - i, 1
  {
    if Precedence(ts[i]) <= p then Ok(left, i)
    else
      var l := Led(ts, syms, left, i);
      if l.Abort? then Abort else Climb(ts, syms, l.value, l.next, p)
  }

  function Led(ts: seq<Token>, syms: seq<Symbol>, left: Tree, i: nat): (r: Parsed<Tree>)
    requires Ended(ts) && i < |ts| && Precedence(ts[i]) > 0
    ensures r.Ok? ==> i < r.next < |ts|
    decreases |ts| - i, 0
  {
    if ts[i] == LPar then
      var a := ParseArgs(ts, syms, i + 1);
      if a.Abort? then Abort else Ok(CallT(NodeText(left, FirstText(ts)), a.value), a.next)
    else
      var r := ParseExpr(ts, syms, i + 1, OpPrec(ts[i].op));
      if r.Abort? then Abort else Ok(Node(ts[i].op, left, r.value), r.next)
  }

  /** Arguments up to the closing parenthesis; commas between them are optional. */
  function ParseArgs(ts: seq<Token>, syms: seq<Symbol>, i: nat): (r: Parsed<Trees>)
    requires Ended(ts) && i < |ts|
    ensures r.Ok? ==> i < r.next < |ts|
    decreases |ts| - i, 3
  {
    if ts[i] == RPar then Ok(TNil, i + 1)
    else
      var e := ParseExpr(ts, syms, i, 0);
      if e.Abort? then Abort
      else
        var more := ParseArgs(ts, syms, if ts[e.next] == Comma then e.next + 1 else e.next);
        if more.Abort? then Abort else Ok(TCons(e.value, more.value), more.next)
  }

  // ----- statements -----

  /** A parenthesised condition. */
  function ParseCond(ts: seq<Token>, syms: seq<Symbol>, i: nat): (r: Parsed<Tree>)
    requires Ended(ts) && i < |ts|
    ensures r.Ok? ==> i < r.next < |ts|
  {
    if ts[i] != LPar then Abort
    else
      var e := ParseExpr(ts, syms, i + 1, 0);
      if e.Abort? || ts[e.next] != RPar then Abort else Ok(e.value, e.next + 1)
  }

  function One(s: STree): STrees {
    STCons(s, STNil)
  }

  /** Nodes of one source statement. */
  function ParseStmt(ts: seq<Token>, c: Scope, i: nat): (r: Parsed<Piece>)
    requires Ended(ts) && i < |ts|
    ensures r.Ok? ==> i < r.next < |ts| && r.value.trees.STCons?
    decreases |ts| - i, 4
  {
    match ts[i]
    case Type(_) => ParseDecls(ts, c, i + 1)
    case LBrace => ParseBlock(ts, c, i)
    case KIf => ParseIf(ts, c, i)
    case KWhile => ParseWhile(ts, c, i)
    case KFor => ParseFor(ts, c, i)
    case KReturn => ParseReturn(ts, c, i)
    case _ => ParseSimple(ts, c, i)
  }

  function ParseBlock(ts: seq<Token>, c: Scope, i: nat): (r: Parsed<Piece>)
    requires Ended(ts) && i < |ts|
    ensures r.Ok? ==> i < r.next < |ts| && r.value.trees.STCons?
    decreases |ts| - i, 3
  {
    if ts[i] != LBrace then Abort
    else
      var r := ParseItems(ts, c, i + 1);
      if r.Abort? then Abort else Ok(Piece(One(SBlock(r.value.trees)), r.value.scope), r.next)
  }

  function ParseItems(ts: seq<Token>, c: Scope, i: nat): (r: Parsed<Piece>)
    requires Ended(ts) && i < |ts|
    ensures r.Ok? ==> i < r.next < |ts|
    decreases |ts| - i, 5
  {
    if ts[i] == RBrace then Ok(Piece(STNil, c), i + 1)
    else
      var s := ParseStmt(ts, c, i);
      if s.Abort? then Abort
      else
        var more := ParseItems(ts, s.value.scope, s.next);
        if more.Abort? then Abort
        else Ok(Piece(Append(s.value.trees, more.value.trees), more.value.scope), more.next)
  }

  function Append(a: STrees, b: STrees): (r: STrees)
    ensures a.STCons? ==> r.STCons?
  {
    if a.STNil? then b else STCons(a.head, Append(a.next, b))
  }

  function ParseIf(ts: seq<Token>, c: Scope, i: nat): (r: Parsed<Piece>)
    requires Ended(ts) && i < |ts| && ts[i] == KIf
    ensures r.Ok? ==> i < r.next < |ts| && r.value.trees.STCons?
    decreases |ts| - i, 3
  {
    var e := ParseCond(ts, c.syms, i + 1);
    if e.Abort? then Abort
    else
      var t := ParseStmt(ts, c, e.next);
      if t.Abort? then Abort
      else if ts[t.next] == KElse then
        var f := ParseStmt(ts, t.value.scope, t.next + 1);
        if f.Abort? then Abort
        else Ok(Piece(One(SIf(e.value, t.value.trees, Some(f.value.trees))), f.value.scope), f.next)
      else Ok(Piece(One(SIf(e.value, t.value.trees, None)), t.value.scope), t.next)
  }

  function ParseWhile(ts: seq<Token>, c: Scope, i: nat): (r: Parsed<Piece>)
    requires Ended(ts) && i < |ts| && ts[i] == KWhile
    ensures r.Ok? ==> i < r.next < |ts| && r.value.trees.STCons?
    decreases |ts| - i, 3
  {
    var e := ParseCond(ts, c.syms, i + 1);
    if e.Abort? then Abort
    else
      var b := ParseStmt(ts, c, e.next);
      if b.Abort? then Abort else Ok(Piece(One(SWhile(e.value, b.value.trees)), b.value.scope), b.next)
  }

  /** for (init cond; post) body. The post expression is read before the body. */
  function ParseFor(ts: seq<Token>, c: Scope, i: nat): (r: Parsed<Piece>)
    requires Ended(ts) && i < |ts| && ts[i] == KFor
    ensures r.Ok? ==> i < r.next < |ts| && r.value.trees.STCons?
    decreases |ts| - i, 3
  {
    if ts[i + 1] != LPar then Abort
    else
      var init := ParseStmt(ts, c, i + 2);
      if init.Abort? then Abort
      else
        var k := init.value.scope;
        var cond := ParseExpr(ts, k.syms, init.next, 0);
        if cond.Abort? || ts[cond.next] != Semi then Abort
        else
          var post := ParsePost(ts, k.syms, cond.next + 1);
          if post.Abort? || ts[post.next] != RPar then Abort
          else
            var body := ParseStmt(ts, k, post.next + 1);
            if body.Abort? then Abort
            else Ok(Piece(One(SFor(init.value.trees, cond.value, post.value, body.value.trees)), body.value.scope), body.next)
  }

  /** The third part of a for: an assignment or an expression. */
  function ParsePost(ts: seq<Token>, syms: seq<Symbol>, i: nat): (r: Parsed<STree>)
    requires Ended(ts) && i < |ts|
    ensures r.Ok? ==> i < r.next < |ts|
  {
    var l := ParseExpr(ts, syms, i, 0);
    if l.Abort? then Abort
    else if ts[l.next] == Becomes then
      var e := ParseExpr(ts, syms, l.next + 1, 0);
      if e.Abort? then Abort else Ok(SAssign(SlotOf(syms, NodeText(l.value, FirstText(ts))), l.value, e.value), e.next)
    else Ok(SExpr(l.value), l.next)
  }

  function ParseReturn(ts: seq<Token>, c: Scope, i: nat): (r: Parsed<Piece>)
    requires Ended(ts) && i < |ts| && ts[i] == KReturn
    ensures r.Ok? ==> i < r.next < |ts| && r.value.trees.STCons?
  {
    if ts[i + 1] == Semi then Ok(Piece(One(SReturn(None)), c), i + 2)
    else
      var e := ParseExpr(ts, c.syms, i + 1, 0);
      if e.Abort? || ts[e.next] != Semi then Abort else Ok(Piece(One(SReturn(Some(e.value))), c), e.next + 1)
  }

  /** Assignment or expression statement; an assignment takes the slot of the
      variable under its dereferences. */
  function ParseSimple(ts: seq<Token>, c: Scope, i: nat): (r: Parsed<Piece>)
    requires Ended(ts) && i < |ts|
    ensures r.Ok? ==> i < r.next < |ts| && r.value.trees.STCons?
  {
    var l := ParseExpr(ts, c.syms, i, 0);
    if l.Abort? then Abort
    else if ts[l.next] == Becomes then
      var e := ParseExpr(ts, c.syms, l.next + 1, 0);
      if e.Abort? || ts[e.next] != Semi then Abort
      else Ok(Piece(One(SAssign(SlotOf(c.syms, NodeText(BaseOf(l.value), FirstText(ts))), l.value, e.value)), c), e.next + 1)
    else if ts[l.next] == Semi then Ok(Piece(One(SExpr(l.value)), c), l.next + 1)
    else Abort
  }

  function Declare(c: Scope, name: string): Scope {
    Scope(c.syms + [Symbol(name, c.bp, false)], c.bp + 4)
  }

  /** Declarators after the type, up to the semicolon. */
  function ParseDecls(ts: seq<Token>, c: Scope, i: nat): (r: Parsed<Piece>)
    requires Ended(ts) && i < |ts|
    ensures r.Ok? ==> i < r.next < |ts| && r.value.trees.STCons?
    decreases |ts| - i, 3
  {
    var j := SkipStars(ts, i);
    if !ts[j].Ident? then Abort
    else
      var k := Declare(c, ts[j].text);
      var d := ParseInit(ts, k.syms, j + 1);
      if d.Abort? then Abort
      else
        var s := SDecl(ts[j].text, c.bp, d.value);
        if ts[d.next] == Semi then Ok(Piece(One(s), k), d.next + 1)
        else if ts[d.next] != Comma then Abort
        else
          var more := ParseDecls(ts, k, d.next + 1);
          if more.Abort? then Abort else Ok(Piece(STCons(s, more.value.trees), more.value.scope), more.next)
  }

  function SkipStars(ts: seq<Token>, i: nat): (j: nat)
    requires Ended(ts) && i < |ts|
    ensures i <= j < |ts| && ts[j] != OpTok(Mul)
    ensures forall k :: i <= k < j ==> ts[k] == OpTok(Mul)
    decreases |ts| - i
  {
    if ts[i] == OpTok(Mul) then SkipStars(ts, i + 1) else i
  }

  /** An initial value; the variable declared is already in scope. */
  function ParseInit(ts: seq<Token>, syms: seq<Symbol>, i: nat): (r: Parsed<Option<Tree>>)
    requires Ended(ts) && i < |ts|
    ensures r.Ok? ==> i <= r.next < |ts|
  {
    if ts[i] != Becomes then Ok(None, i)
    else
      var e := ParseExpr(ts, syms, i + 1, 0);
      if e.Abort? then Abort else Ok(Some(e.value), e.next)
  }

  // ----- functions -----

  /** A parsed function: a prototype has no body. */
  datatype FuncTree = FuncTree(name: string, params: seq<string>, body: Option<STrees>, localBytes: int)

  datatype ParsedFunc = ParsedFunc(fn: FuncTree, scope: Scope)

  datatype Params = Params(names: seq<string>, scope: Scope)

  /** Parameter lists the parser gets through or rejects; on any other token it
      would loop for ever. */
  predicate ParamsEnd(ts: seq<Token>, i: nat)
    requires Ended(ts) && i < |ts|
    decreases |ts| - i
  {
    if ts[i] == RPar then true
    else if ts[i].Type? then
      var j := SkipStars(ts, i + 1);
      ts[j].Ident? ==> ParamsEnd(ts, if ts[j + 1] == Comma then j + 2 else j + 1)
    else ts[i] == Comma && ParamsEnd(ts, i + 1)
  }

  /** One pass of the parameter loop: at its end, an abort, or the next cursor. */
  datatype Pass = Done | Fails | Goes(next: nat)

  function ParamPass(ts: seq<Token>, i: nat): (r: Pass)
    requires Ended(ts) && i < |ts|
    ensures r.Goes? ==> i <= r.next < |ts|
  {
    if ts[i] == RPar then Done
    else if ts[i].Type? then
      var j := SkipStars(ts, i + 1);
      if !ts[j].Ident? then Fails else if ts[j + 1] == Comma then Goes(j + 2) else Goes(j + 1)
    else if ts[i] == Comma then Goes(i + 1)
    else Goes(i)
  }

  /** The loop is still running after `n` passes. */
  predicate StillParams(ts: seq<Token>, i: nat, n: nat)
    requires Ended(ts) && i < |ts|
    decreases n
  {
    n == 0 || (ParamPass(ts, i).Goes? && StillParams(ts, ParamPass(ts, i).next, n - 1))
  }

  /** On every other parameter list the loop never ends. */
  lemma ParamsLoopForever(ts: seq<Token>, i: nat)
    requires Ended(ts) && i < |ts|
    ensures !ParamsEnd(ts, i) <==> forall n: nat :: StillParams(ts, i, n)
  {
    if ParamsEnd(ts, i) {
      var n := PassesNeeded(ts, i);
    } else {
      forall n: nat ensures StillParams(ts, i, n) {
        NeverDone(ts, i, n);
      }
    }
  }

  lemma {:induction false} PassesNeeded(ts: seq<Token>, i: nat) returns (n: nat)
    requires Ended(ts) && i < |ts| && ParamsEnd(ts, i)
    ensures !StillParams(ts, i, n)
    decreases |ts| - i
  {
    n := 1;
    if ParamPass(ts, i).Goes? {
      n := PassesNeeded(ts, ParamPass(ts, i).next);
      n := n + 1;
    }
  }

  lemma {:induction false} NeverDone(ts: seq<Token>, i: nat, n: nat)
    requires Ended(ts) && i < |ts| && !ParamsEnd(ts, i)
    ensures StillParams(ts, i, n)
    decreases n
  {
    if n > 0 { NeverDone(ts, ParamPass(ts, i).next, n - 1); }
  }

  /** Parameters get the offsets -12, -16, ... */
  function ParseParams(ts: seq<Token>, c: Scope, i: nat): (r: Parsed<Params>)
    requires Ended(ts) && i < |ts| && ParamsEnd(ts, i)
    ensures r.Ok? ==> i < r.next < |ts|
    decreases |ts| - i
  {
    if ts[i] == RPar then Ok(Params([], c), i + 1)
    else if ts[i].Type? then
      var j := SkipStars(ts, i + 1);
      if !ts[j].Ident? then Abort
      else
        var k := Scope(c.syms + [Symbol(ts[j].text, c.bp, false)], c.bp - 4);
        var more := ParseParams(ts, k, if ts[j + 1] == Comma then j + 2 else j + 1);
        if more.Abort? then Abort else Ok(Params([ts[j].text] + more.value.names, more.value.scope), more.next)
    else ParseParams(ts, c, i + 1)
  }

  /** A function whose name becomes global symbol number `count`. */
  function ParseFunction(ts: seq<Token>, syms: seq<Symbol>, count: nat, i: nat): (r: Parsed<ParsedFunc>)
    requires Ended(ts) && i < |ts| && ts[i].Type?
    requires ts[i + 1].Ident? && ts[i + 2] == LPar ==> ParamsEnd(ts, i + 3)
    ensures r.Ok? ==> i < r.next < |ts|
  {
    if !ts[i + 1].Ident? || ts[i + 2] != LPar then Abort
    else
      var name := ts[i + 1].text;
      var ps := ParseParams(ts, Scope(syms + [Symbol(name, count, true)], -12), i + 3);
      if ps.Abort? then Abort
      else if ts[ps.next] == Semi then
        Ok(ParsedFunc(FuncTree(name, ps.value.names, None, 0), ps.value.scope), ps.next + 1)
      else
        var b := ParseBlock(ts, Scope(ps.value.scope.syms, 0), ps.next);
        if b.Abort? then Abort
        else Ok(ParsedFunc(FuncTree(name, ps.value.names, Some(b.value.trees), b.value.scope.bp), b.value.scope), b.next)
  }
}
