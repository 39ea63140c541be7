/**
 Finished code computes what the source program means. The depth of the stack
 at a program point is not fixed: expression statements leave their value on
 it. Only rbp and the frame below it relate machine and source states.
 */
module Simulation {
  import opened Words
  import opened Memory
  import opened Machine
  import opened Options
  import opened Ast
  import opened Layout

  /** Nothing at or above `lo` has changed. */
  ghost predicate Above(m: Mem, m': Mem, lo: int) {
    forall x :: lo <= x ==> Get(m', x) == Get(m, x)
  }

  /** Nothing at or above rbp has changed, save the `n` parameter cells. */
  ghost predicate Keeps(m: Mem, m': Mem, rbp: int, n: nat) {
    forall x :: rbp <= x < rbp + 16 || rbp + 16 + 8 * n <= x ==> Get(m', x) == Get(m, x)
  }

  ghost predicate LocalsHold(locals: map<int, u32>, frame: nat, rbp: int, mem: Mem) {
    forall off :: off in locals ==>
      0 <= off && off % 4 == 0 && off + 8 <= frame && Load32(mem, rbp - 8 - off) == locals[off]
  }

  ghost predicate ParamsHold(params: seq<int>, rbp: int, mem: Mem) {
    forall k :: 0 <= k < |params| ==> IsLong(params[k]) && Load64(mem, rbp + 16 + 8 * k) == ToWord(params[k])
  }

  /** The frame of the running function holds its variables. */
  ghost predicate Framed(env: Env, frame: nat, m: State) {
    && m.rbp + 16 + 8 * |env.params| < TWO64
    && frame < 0x7100_0000 && m.rsp + frame <= m.rbp
    && LocalsHold(env.locals, frame, m.rbp, m.mem)
    && ParamsHold(env.params, m.rbp, m.mem)
  }

  ghost predicate Ready(img: Image, en: Entries, p: Program) {
    && GoodProgram(p) && ProgramAt(img.code, en, p) && img.base + 0x1_0000 < TWO64
  }

  // ----- frames survive what does not touch them -----

  lemma LocalsKept(locals: map<int, u32>, frame: nat, rbp: int, mem: Mem, mem': Mem, lo: int)
    requires LocalsHold(locals, frame, rbp, mem) && Above(mem, mem', lo) && lo + frame <= rbp
    ensures LocalsHold(locals, frame, rbp, mem')
  {
    hide Load32, Get;
    forall off | off in locals ensures Load32(mem', rbp - 8 - off) == locals[off] {
      Load32Agree(mem, mem', rbp - 8 - off);
    }
  }

  lemma ParamsKept(params: seq<int>, rbp: int, mem: Mem, mem': Mem, lo: int)
    requires ParamsHold(params, rbp, mem) && Above(mem, mem', lo) && lo <= rbp
    ensures ParamsHold(params, rbp, mem')
  {
    hide Load64, Get, ToWord;
    forall k | 0 <= k < |params| ensures Load64(mem', rbp + 16 + 8 * k) == ToWord(params[k]) {
      Load64Agree(mem, mem', rbp + 16 + 8 * k);
    }
  }

  lemma FramedKept(env: Env, frame: nat, m: State, m': State)
    requires Framed(env, frame, m) && Above(m.mem, m'.mem, m.rsp)
    requires m'.rbp == m.rbp && m'.rsp <= m.rsp
    ensures Framed(env, frame, m')
  {
    hide LocalsHold, ParamsHold;
    LocalsKept(env.locals, frame, m.rbp, m.mem, m'.mem, m.rsp);
    ParamsKept(env.params, m.rbp, m.mem, m'.mem, m.rsp);
  }

  // ----- short instruction sequences -----

  lemma PushStep(img: Image, m: State) returns (m': State)
    requires At(img.code, m.rip, PushRax) && m.rsp >= 8
    ensures Reaches(img, m, m')
    ensures m'.rip == m.rip + 1 && m'.rbp == m.rbp && m'.rsp == m.rsp - 8
    ensures Load64(m'.mem, m'.rsp) == m.rax && Above(m.mem, m'.mem, m.rsp)
  {
    hide Load64, Store64, Get, Reaches, At;
    m' := Do(img, m, PushRax);
    Store64Facts(m.mem, m.rsp - 8, m.rax);
  }

  lemma PopRaxStep(img: Image, m: State) returns (m': State)
    requires At(img.code, m.rip, PopRax) && m.rsp + 8 < TWO64
    ensures Reaches(img, m, m')
    ensures m' == m.(rip := m.rip + 1, rsp := m.rsp + 8, rax := Load64(m.mem, m.rsp))
  {
    hide Load64, Get, Reaches, At;
    m' := Do(img, m, PopRax);
  }

  /** Two pops: the right operand lies on top. */
  lemma PopTwo(img: Image, m: State) returns (m': State)
    requires At(img.code, m.rip, PopRbx) && At(img.code, m.rip + 1, PopRax) && m.rsp + 16 < TWO64
    ensures Reaches(img, m, m')
    ensures m' == m.(rip := m.rip + 2, rsp := m.rsp + 16,
                     rbx := Load64(m.mem, m.rsp), rax := Load64(m.mem, m.rsp + 8))
  {
    hide Load64, Get, Reaches, At;
    var m1 := Do(img, m, PopRbx);
    m' := PopRaxStep(img, m1);
    ReachesTrans(img, m, m1, m');
  }

  lemma MulCongruent(x: int, y: int)
    ensures ToWord(ToWord(x) * ToWord(y)) == ToWord(x * y)
  {
    var a, b := x / TWO64, y / TWO64;
    var u, v := ToWord(x), ToWord(y);
    assert x == a * TWO64 + u && y == b * TWO64 + v;
    calc {
      x * y;
      (a * TWO64 + u) * (b * TWO64 + v);
      u * v + (a * b * TWO64 + a * v + b * u) * TWO64;
    }
    ModPlusMultiple(u * v, a * b * TWO64 + a * v + b * u);
  }

  lemma ModPlusMultiple(x: int, k: int)
    ensures (x + k * TWO64) % TWO64 == x % TWO64
  {
  }

  lemma DividendIsRax(w: word)
    ensures Signed(if Signed(w) < 0 then TWO64 - 1 else 0) * TWO64 + w == Signed(w)
  {
  }

  lemma DivideSim(m: State, x: int, y: int)
    requires m.rax == ToWord(x) && m.rbx == ToWord(y) && IsLong(x) && IsLong(y)
    requires m.rdx == if Signed(m.rax) < 0 then TWO64 - 1 else 0
    requires y != 0 && IsLong(TruncDiv(x, y))
    ensures Divide(m).Some?
    ensures var q := Divide(m).value;
            q.rax == ToWord(TruncDiv(x, y)) && q.rsp == m.rsp && q.rbp == m.rbp && q.mem == m.mem && q.rip == m.rip
  {
    hide TruncDiv;
    SignedToWord(x);
    SignedToWord(y);
    DividendIsRax(m.rax);
  }

  lemma AddCongruent(x: int, y: int)
    ensures ToWord(ToWord(x) + ToWord(y)) == ToWord(x + y)
  {
  }

  lemma SubCongruent(x: int, y: int)
    ensures ToWord(ToWord(x) - ToWord(y)) == ToWord(x - y)
  {
  }

  lemma AddSim(x: int, y: int)
    ensures ToWord(ToWord(x) + ToWord(y)) == ToWord(WrapLong(x + y)) && IsLong(WrapLong(x + y))
    ensures ToWord(ToWord(x) - ToWord(y)) == ToWord(WrapLong(x - y)) && IsLong(WrapLong(x - y))
  {
    hide ToWord, WrapLong;
    AddCongruent(x, y);
    SubCongruent(x, y);
    WrapLongCongruent(x + y);
    WrapLongCongruent(x - y);
  }

  lemma MulSim(x: int, y: int)
    ensures ToWord(ToWord(x) * ToWord(y)) == ToWord(WrapLong(x * y)) && IsLong(WrapLong(x * y))
  {
    MulCongruent(x, y);
    WrapLongCongruent(x * y);
  }

  /** Where a single instruction leaves the result. */
  lemma ArithStep(img: Image, op: Op, x: int, y: int, m: State) returns (m': State)
    requires op.Add? || op.Sub? || op.Mul?
    requires OpAt(img.code, op, m.rip)
    requires m.rax == ToWord(x) && m.rbx == ToWord(y)
    ensures Reaches(img, m, m') && IsLong(Arith(op, x, y).v)
    ensures m'.rip == m.rip + OpSize(op) && m'.rax == ToWord(Arith(op, x, y).v)
    ensures m'.rsp == m.rsp && m'.rbp == m.rbp && m'.mem == m.mem
  {
    hide Reaches, At, TruncDiv, Divide, ToWord, WrapLong, IsLong;
    if op.Add? {
      m' := Do(img, m, AddRaxRbx);
      AddSim(x, y);
    } else if op.Sub? {
      m' := Do(img, m, SubRaxRbx);
      AddSim(x, y);
    } else {
      m' := Do(img, m, ImulRaxRbx);
      MulSim(x, y);
    }
  }

  lemma DivStep(img: Image, x: int, y: int, m: State) returns (m': State)
    requires At(img.code, m.rip, Cqo) && At(img.code, m.rip + 2, IdivRbx)
    requires y != 0 && IsLong(TruncDiv(x, y))
    requires m.rax == ToWord(x) && m.rbx == ToWord(y) && IsLong(x) && IsLong(y)
    ensures Reaches(img, m, m')
    ensures m'.rip == m.rip + 5 && m'.rax == ToWord(TruncDiv(x, y))
    ensures m'.rsp == m.rsp && m'.rbp == m.rbp && m'.mem == m.mem
  {
    hide Reaches, At, TruncDiv, Divide, ToWord, Signed, IsLong;
    var m1 := Do(img, m, Cqo);
    DivideSim(m1.(rip := m1.rip + 3), x, y);
    m' := Do(img, m1, IdivRbx);
    ReachesTrans(img, m, m1, m');
  }

  /** The operator's instructions leave the result in rax. */
  lemma ArithSim(img: Image, op: Op, x: int, y: int, m: State) returns (m': State)
    requires OpAt(img.code, op, m.rip) && Arith(op, x, y).V?
    requires m.rax == ToWord(x) && m.rbx == ToWord(y) && IsLong(x) && IsLong(y)
    ensures Reaches(img, m, m') && IsLong(Arith(op, x, y).v)
    ensures m'.rip == m.rip + OpSize(op) && m'.rax == ToWord(Arith(op, x, y).v)
    ensures m'.rsp == m.rsp && m'.rbp == m.rbp && m'.mem == m.mem
  {
    hide Reaches, At, TruncDiv, ToWord, WrapLong, IsLong;
    if op.Div? {
      m' := DivStep(img, x, y, m);
    } else {
      m' := ArithStep(img, op, x, y, m);
    }
  }

  // ----- slots -----

  lemma SlotDispExact(off: int, n: nat)
    requires GoodSlot(off, n) && n <= 0x7000_0000
    ensures off < 0 ==> 0 <= ParamIndex(off) < 32 && off == ParamSlot(ParamIndex(off)) && SlotDisp(off) == 16 + 8 * ParamIndex(off)
    ensures off >= 0 ==> SlotDisp(off) == -(off + 8)
  {
  }

  /** Loading a variable: parameters from their argument cell, locals zero-extended. */
  lemma LoadSim(img: Image, env: Env, frame: nat, off: int, n: nat, m: State) returns (m': State)
    requires Framed(env, frame, m) && GoodSlot(off, n) && n <= 0x7000_0000
    requires At(img.code, m.rip, LoadInstr(off)) && ReadSlot(env, off).V?
    ensures Reaches(img, m, m') && IsLong(ReadSlot(env, off).v)
    ensures m' == m.(rip := m.rip + SlotSize(off), rax := ToWord(ReadSlot(env, off).v))
  {
    hide Reaches, At, Load64, Load32, ToWord, SlotDisp, ParamIndex;
    SlotDispExact(off, n);
    m' := Do(img, m, LoadInstr(off));
    assert |Encode(LoadInstr(off))| == SlotSize(off);
    InRange(m.rbp + SlotDisp(off));
    if off >= 0 {
      SmallWord(env.locals[off]);
    }
  }

  lemma InRange(x: int)
    ensures 0 <= x < TWO64 ==> ToWord(x) == x
  {
  }

  lemma SmallWord(x: u32)
    ensures ToWord(x) == x && IsLong(x)
  {
  }

  lemma LocalStored(locals: map<int, u32>, frame: nat, rbp: int, mem: Mem, off: int, w: u32)
    requires LocalsHold(locals, frame, rbp, mem) && 0 <= off && off % 4 == 0 && off + 8 <= frame
    ensures LocalsHold(locals[off := w], frame, rbp, Store32(mem, rbp - 8 - off, w))
  {
    hide Load32, Store32, Get;
    var mem' := Store32(mem, rbp - 8 - off, w);
    Store32Facts(mem, rbp - 8 - off, w);
    forall o | o in locals && o != off ensures Load32(mem', rbp - 8 - o) == locals[o] {
      Load32Agree(mem, mem', rbp - 8 - o);
    }
  }

  lemma ParamStored(params: seq<int>, rbp: int, mem: Mem, k: nat, v: int)
    requires ParamsHold(params, rbp, mem) && k < |params| && IsLong(v)
    ensures ParamsHold(params[k := v], rbp, Store64(mem, rbp + 16 + 8 * k, ToWord(v)))
  {
    hide Load64, Store64, Get, ToWord;
    var mem' := Store64(mem, rbp + 16 + 8 * k, ToWord(v));
    Store64Facts(mem, rbp + 16 + 8 * k, ToWord(v));
    forall j | 0 <= j < |params| && j != k ensures Load64(mem', rbp + 16 + 8 * j) == ToWord(params[j]) {
      Load64Agree(mem, mem', rbp + 16 + 8 * j);
    }
  }

  lemma LocalsApart(locals: map<int, u32>, frame: nat, rbp: int, mem: Mem, a: int, w: word)
    requires LocalsHold(locals, frame, rbp, mem) && rbp <= a
    ensures LocalsHold(locals, frame, rbp, Store64(mem, a, w))
  {
    hide Load32, Store64, Get;
    Store64Facts(mem, a, w);
    forall o | o in locals ensures Load32(Store64(mem, a, w), rbp - 8 - o) == locals[o] {
      Load32Agree(mem, Store64(mem, a, w), rbp - 8 - o);
    }
  }

  lemma ParamsApart(params: seq<int>, rbp: int, mem: Mem, a: int, w: u32)
    requires ParamsHold(params, rbp, mem) && a + 4 <= rbp
    ensures ParamsHold(params, rbp, Store32(mem, a, w))
  {
    hide Load64, Store32, Get, ToWord;
    Store32Facts(mem, a, w);
    forall j | 0 <= j < |params| ensures Load64(Store32(mem, a, w), rbp + 16 + 8 * j) == ToWord(params[j]) {
      Load64Agree(mem, Store32(mem, a, w), rbp + 16 + 8 * j);
    }
  }

  lemma LowHalf(v: int)
    ensures ToWord(v) % TWO32 == ToU32(v)
  {
  }

  /** The value on top of the stack moves into a variable. */
  lemma StoreSim(img: Image, env: Env, frame: nat, off: int, n: nat, v: int, m: State) returns (m': State)
    requires GoodSlot(off, n) && n <= 0x7000_0000 && n + 4 <= frame && WriteSlot(env, off, v).Normal?
    requires StoreAt(img.code, off, m.rip) && m.rsp + 8 + frame <= m.rbp && IsLong(v)
    requires Framed(env, frame, m.(rsp := m.rsp + 8)) && Load64(m.mem, m.rsp) == ToWord(v)
    ensures Reaches(img, m, m')
    ensures m'.rip == m.rip + 1 + SlotSize(off) && m'.rbp == m.rbp && m'.rsp == m.rsp + 8
    ensures Framed(WriteSlot(env, off, v).env, frame, m') && Keeps(m.mem, m'.mem, m.rbp, |env.params|)
  {
    hide Reaches, At, Load64, Load32, Store64, Store32, Get, ToWord, SlotDisp, ParamIndex, LocalsHold, ParamsHold;
    SlotDispExact(off, n);
    var m1 := PopRaxStep(img, m);
    m' := Do(img, m1, StoreInstr(off));
    assert |Encode(StoreInstr(off))| == SlotSize(off);
    ReachesTrans(img, m, m1, m');
    var a := m.rbp + SlotDisp(off);
    InRange(a);
    if off < 0 {
      Store64Facts(m.mem, a, ToWord(v));
      ParamStored(env.params, m.rbp, m.mem, ParamIndex(off), v);
      LocalsApart(env.locals, frame, m.rbp, m.mem, a, ToWord(v));
    } else {
      LowHalf(v);
      Store32Facts(m.mem, a, ToU32(v));
      LocalStored(env.locals, frame, m.rbp, m.mem, off, ToU32(v));
      ParamsApart(env.params, m.rbp, m.mem, a, ToU32(v));
    }
  }

  // ----- expressions -----

  /** What evaluating an expression does to the machine: one value is pushed and
      nothing at or above the old rsp changes. */
  ghost predicate Pushed(m: State, m': State, size: nat, v: Value) {
    && m'.rip == m.rip + size && m'.rbp == m.rbp && m'.rsp == m.rsp - 8
    && Above(m.mem, m'.mem, m.rsp)
    && (v.V? ==> IsLong(v.v) && Load64(m'.mem, m'.rsp) == ToWord(v.v))
  }

  ghost predicate ArgsPushed(m: State, m': State, size: nat, vals: seq<int>) {
    && m'.rip == m.rip + size && m'.rbp == m.rbp && m'.rsp == m.rsp - 8 * |vals|
    && Above(m.mem, m'.mem, m.rsp)
    && forall k :: 0 <= k < |vals| ==> IsLong(vals[k]) && Load64(m'.mem, m'.rsp + 8 * k) == ToWord(vals[k])
  }

  /** Preconditions of every expression lemma. */
  ghost predicate Start(img: Image, en: Entries, p: Program, env: Env, frame: nat, n: nat, m: State) {
    Ready(img, en, p) && Framed(env, frame, m) && n <= 0x7000_0000 && n + 4 <= frame
  }

  lemma StartKept(img: Image, en: Entries, p: Program, env: Env, frame: nat, n: nat, m: State, m': State)
    requires Start(img, en, p, env, frame, n, m) && Above(m.mem, m'.mem, m.rsp)
    requires m'.rbp == m.rbp && m'.rsp <= m.rsp
    ensures Start(img, en, p, env, frame, n, m')
  {
    hide Ready, Framed;
    FramedKept(env, frame, m, m');
  }

  lemma MoveLiteral(img: Image, k: int, m: State) returns (m': State)
    requires At(img.code, m.rip, MovRaxImm(ToWord(k))) && At(img.code, m.rip + 10, PushRax) && m.rsp >= 8
    ensures Reaches(img, m, m') && Pushed(m, m', 11, V(WrapLong(k)))
  {
    hide Reaches, At, Load64, Get, Above;
    var m1 := Do(img, m, MovRaxImm(ToWord(k)));
    m' := PushStep(img, m1);
    ReachesTrans(img, m, m1, m');
    WrapLongCongruent(k);
  }

  lemma {:induction false} ExprSim(img: Image, en: Entries, p: Program, fuel: nat, env: Env, frame: nat, n: nat, e: Expr, m: State)
    returns (m': State)
    requires Start(img, en, p, env, frame, n, m) && GoodExpr(e, n)
    requires ExprAt(img.code, en, e, m.rip) && !Eval(p, fuel, env, e).Fail?
    requires m.rsp >= ExprDepth(p, fuel, env, e)
    ensures Reaches(img, m, m') && Pushed(m, m', ExprSize(e), Eval(p, fuel, env, e))
    decreases fuel, e, 2
  {
    hide Reaches, At, Above, Load64, Get, Framed, Ready;
    match e
    case Int(k) =>
      m' := MoveLiteral(img, k, m);
    case Var(off) =>
      var m1 := LoadSim(img, env, frame, off, n, m);
      m' := PushStep(img, m1);
      ReachesTrans(img, m, m1, m');
    case Bin(_, _, _) =>
      m' := BinSim(img, en, p, fuel, env, frame, n, e, m);
    case CallE(_, _) =>
      m' := CallSim(img, en, p, fuel, env, frame, n, e, m);
  }

  /** Two operands: afterwards the right one is on top of the left one. */
  lemma {:induction false} TwoSim(img: Image, en: Entries, p: Program, fuel: nat, env: Env, frame: nat, n: nat, e: Expr, m: State)
    returns (m': State)
    requires Start(img, en, p, env, frame, n, m) && e.Bin? && GoodExpr(e.left, n) && GoodExpr(e.right, n)
    requires ExprAt(img.code, en, e.left, m.rip) && ExprAt(img.code, en, e.right, m.rip + ExprSize(e.left))
    requires Eval(p, fuel, env, e.left).V? && Eval(p, fuel, env, e.right).V?
    requires m.rsp >= ExprDepth(p, fuel, env, e.left) && m.rsp >= 8 + ExprDepth(p, fuel, env, e.right)
    ensures Reaches(img, m, m')
    ensures m'.rip == m.rip + ExprSize(e.left) + ExprSize(e.right) && m'.rbp == m.rbp && m'.rsp == m.rsp - 16
    ensures Above(m.mem, m'.mem, m.rsp)
    ensures var x, y := Eval(p, fuel, env, e.left).v, Eval(p, fuel, env, e.right).v;
            IsLong(x) && IsLong(y) && Load64(m'.mem, m'.rsp) == ToWord(y) && Load64(m'.mem, m'.rsp + 8) == ToWord(x)
    decreases fuel, e, 0
  {
    hide Reaches, At, Load64, Get, Start, ExprAt, Eval, ExprDepth, GoodExpr, ToWord;
    var m1 := ExprSim(img, en, p, fuel, env, frame, n, e.left, m);
    StartKept(img, en, p, env, frame, n, m, m1);
    m' := ExprSim(img, en, p, fuel, env, frame, n, e.right, m1);
    ReachesTrans(img, m, m1, m');
    Load64Agree(m1.mem, m'.mem, m1.rsp);
  }

  lemma {:induction false} BinSim(img: Image, en: Entries, p: Program, fuel: nat, env: Env, frame: nat, n: nat, e: Expr, m: State)
    returns (m': State)
    requires Start(img, en, p, env, frame, n, m) && e.Bin? && GoodExpr(e, n)
    requires ExprAt(img.code, en, e, m.rip) && !Eval(p, fuel, env, e).Fail?
    requires m.rsp >= ExprDepth(p, fuel, env, e)
    ensures Reaches(img, m, m') && Pushed(m, m', ExprSize(e), Eval(p, fuel, env, e))
    decreases fuel, e, 1
  {
    hide Reaches, At, OpAt, Load64, Get, Start, ToWord, Arith;
    var x, y := Eval(p, fuel, env, e.left), Eval(p, fuel, env, e.right);
    var m1 := TwoSim(img, en, p, fuel, env, frame, n, e, m);
    StartTop(img, en, p, env, frame, n, m);
    var m2 := PopTwo(img, m1);
    ReachesTrans(img, m, m1, m2);
    ArithNotVoid(e.op, x.v, y.v);
    var m3 := ArithSim(img, e.op, x.v, y.v, m2);
    ReachesTrans(img, m, m2, m3);
    m' := PushStep(img, m3);
    ReachesTrans(img, m, m3, m');
  }

  lemma ArithNotVoid(op: Op, x: int, y: int)
    ensures !Arith(op, x, y).Void?
  {
  }

  lemma StartTop(img: Image, en: Entries, p: Program, env: Env, frame: nat, n: nat, m: State)
    requires Start(img, en, p, env, frame, n, m)
    ensures m.rsp + 16 < TWO64
  {
  }

  lemma {:induction false} ArgsSim(img: Image, en: Entries, p: Program, fuel: nat, env: Env, frame: nat, n: nat, es: Exprs, m: State)
    returns (m': State)
    requires Start(img, en, p, env, frame, n, m) && GoodExprs(es, n)
    requires ArgsAt(img.code, en, es, m.rip) && EvalArgs(p, fuel, env, es).Some?
    requires m.rsp >= ArgsDepth(p, fuel, env, es)
    ensures Reaches(img, m, m') && |EvalArgs(p, fuel, env, es).value| == es.Count()
    ensures ArgsPushed(m, m', ArgsSize(es), EvalArgs(p, fuel, env, es).value)
    decreases fuel, es, 0
  {
    hide Reaches, At, Load64, Get, Start, ToWord, Eval, ExprAt, ExprDepth, GoodExpr;
    match es
    case ENil =>
      ReachesSelf(img, m);
      m' := m;
    case ECons(e, rest) =>
      var m1 := ArgsSim(img, en, p, fuel, env, frame, n, rest, m);
      StartKept(img, en, p, env, frame, n, m, m1);
      m' := ExprSim(img, en, p, fuel, env, frame, n, e, m1);
      ReachesTrans(img, m, m1, m');
      var vs, vals := EvalArgs(p, fuel, env, rest).value, EvalArgs(p, fuel, env, es).value;
      forall k | 0 <= k < |vals| ensures IsLong(vals[k]) && Load64(m'.mem, m'.rsp + 8 * k) == ToWord(vals[k]) {
        if k > 0 {
          assert vals[k] == vs[k - 1];
          assert m'.rsp + 8 * k == m1.rsp + 8 * (k - 1);
          Load64Agree(m1.mem, m'.mem, m1.rsp + 8 * (k - 1));
        }
      }
  }

  /** Machine state at a function's first byte: return address on top, arguments above it. */
  ghost predicate Entered(img: Image, en: Entries, p: Program, fuel: nat, name: string, vals: seq<int>, m: State) {
    && Ready(img, en, p) && name in en && m.rip == en[name] && |vals| <= 32
    && m.rsp + 8 + 8 * |vals| < TWO64
    && m.rsp + 8 >= ApplyDepth(p, fuel, name, vals)
    && ParamsHold(vals, m.rsp - 8, m.mem)
  }

  /** Machine state after a function returned to its caller. */
  ghost predicate Left(img: Image, vals: seq<int>, v: Value, m: State, m': State) {
    && m'.rip == Load64(m.mem, m.rsp) - img.base
    && m'.rsp == m.rsp + 8 && m'.rbp == m.rbp
    && Above(m.mem, m'.mem, m.rsp + 8 + 8 * |vals|)
    && (v.V? ==> IsLong(v.v) && m'.rax == ToWord(v.v))
  }

  lemma {:induction false} CallSim(img: Image, en: Entries, p: Program, fuel: nat, env: Env, frame: nat, n: nat, e: Expr, m: State)
    returns (m': State)
    requires Start(img, en, p, env, frame, n, m) && e.CallE? && GoodExpr(e, n)
    requires ExprAt(img.code, en, e, m.rip) && !Eval(p, fuel, env, e).Fail?
    requires m.rsp >= ExprDepth(p, fuel, env, e)
    ensures Reaches(img, m, m') && Pushed(m, m', ExprSize(e), Eval(p, fuel, env, e))
    decreases fuel, e, 1
  {
    hide Reaches, At, Load64, Get, Start, ToWord, Apply, ApplyDepth, GoodExprs, ParamsHold, Rel, Encode, ArgsAt;
    StartTop(img, en, p, env, frame, n, m);
    assert EvalArgs(p, fuel, env, e.args).Some? && fuel > 0;
    var vals := EvalArgs(p, fuel, env, e.args).value;
    var m1 := ArgsSim(img, en, p, fuel, env, frame, n, e.args, m);
    ApplyDepthBound(p, fuel - 1, e.name, vals);
    StartBounds(img, en, p, env, frame, n, m, m1.rip + 5, e.name);
    assert 0 <= m1.rip && m1.rip + 5 <= |img.code| by {
      AtBound(img.code, m1.rip, Call(Rel(en[e.name], m1.rip + 5)));
      CallSize(Rel(en[e.name], m1.rip + 5));
    }
    var m2 := CallStep(img, en[e.name], m1);
    ReachesTrans(img, m, m1, m2);
    ParamsPassed(vals, m1, m2);
    StartReady(img, en, p, env, frame, n, m);
    var m3 := ApplySim(img, en, p, fuel - 1, e.name, vals, m2);
    ReachesTrans(img, m, m2, m3);
    m' := FinishCall(img, |vals|, m3);
    ReachesTrans(img, m, m3, m');
  }

  lemma CallSize(rel: i32)
    ensures |Encode(Call(rel))| == 5
  {
  }

  lemma StartReady(img: Image, en: Entries, p: Program, env: Env, frame: nat, n: nat, m: State)
    requires Start(img, en, p, env, frame, n, m)
    ensures Ready(img, en, p)
  {
  }

  lemma AtBound(code: seq<byte>, a: int, i: Instr)
    requires At(code, a, i)
    ensures 0 <= a && a + |Encode(i)| <= |code|
  {
  }

  lemma StartBounds(img: Image, en: Entries, p: Program, env: Env, frame: nat, n: nat, m: State, next: int, name: string)
    requires Start(img, en, p, env, frame, n, m)
    ensures |img.code| <= 0x1_0000 && img.base + 0x1_0000 < TWO64
    ensures Find(p, name) < |p| ==> name in en && en[name] <= |img.code|
  {
  }

  /** A called function exists and needs room for two words at least. */
  lemma ApplyDepthBound(p: Program, fuel: nat, name: string, vals: seq<int>)
    requires !Apply(p, fuel, name, vals).Fail?
    ensures Find(p, name) < |p| && ApplyDepth(p, fuel, name, vals) >= 16
  {
  }

  lemma CallStep(img: Image, entry: nat, m: State) returns (m': State)
    requires At(img.code, m.rip, Call(Rel(entry, m.rip + 5))) && m.rsp >= 8
    requires 0 <= m.rip && m.rip + 5 <= 0x1_0000 && entry <= 0x1_0000 && img.base + 0x1_0000 < TWO64
    ensures Reaches(img, m, m')
    ensures m'.rip == entry && m'.rbp == m.rbp && m'.rsp == m.rsp - 8
    ensures Load64(m'.mem, m'.rsp) == img.base + m.rip + 5 && Above(m.mem, m'.mem, m.rsp)
  {
    hide Load64, Store64, Get, Reaches, At, Rel;
    m' := Do(img, m, Call(Rel(entry, m.rip + 5)));
    RelExact(entry, m.rip + 5);
    Store64Facts(m.mem, m.rsp - 8, img.base + m.rip + 5);
  }

  lemma ParamsPassed(vals: seq<int>, m1: State, m2: State)
    requires forall k :: 0 <= k < |vals| ==> IsLong(vals[k]) && Load64(m1.mem, m1.rsp + 8 * k) == ToWord(vals[k])
    requires m2.rsp == m1.rsp - 8 && Above(m1.mem, m2.mem, m1.rsp)
    ensures ParamsHold(vals, m2.rsp - 8, m2.mem)
  {
    hide Load64, Get, ToWord;
    forall k | 0 <= k < |vals| ensures Load64(m2.mem, m2.rsp - 8 + 16 + 8 * k) == ToWord(vals[k]) {
      Load64Agree(m1.mem, m2.mem, m1.rsp + 8 * k);
      assert m2.rsp - 8 + 16 + 8 * k == m1.rsp + 8 * k;
    }
  }

  /** The caller drops its arguments and pushes the result. */
  lemma FinishCall(img: Image, count: nat, m: State) returns (m': State)
    requires count > 0 ==> At(img.code, m.rip, AddRsp(SignedInt(ToU32(8 * count))))
    requires At(img.code, m.rip + ArgBytes(count), PushRax)
    requires count <= 32 && 8 <= m.rsp + 8 * count < TWO64
    ensures Reaches(img, m, m')
    ensures m'.rip == m.rip + ArgBytes(count) + 1 && m'.rbp == m.rbp && m'.rsp == m.rsp + 8 * count - 8
    ensures Load64(m'.mem, m'.rsp) == m.rax && Above(m.mem, m'.mem, m.rsp + 8 * count)
  {
    hide Load64, Get, Reaches, At;
    if count == 0 {
      m' := PushStep(img, m);
    } else {
      assert SignedInt(ToU32(8 * count)) == 8 * count;
      var m1 := Do(img, m, AddRsp(8 * count));
      m' := PushStep(img, m1);
      ReachesTrans(img, m, m1, m');
    }
  }

  // ----- functions -----

  lemma FrameSizeFits(localBytes: nat)
    requires localBytes <= 0x7000_0000
    ensures localBytes + 32 <= FrameSize(localBytes) < 0x7100_0000
    ensures SignedInt(ToU32(FrameSize(localBytes))) == FrameSize(localBytes)
  {
  }

  /** Prologue: the new frame holds the arguments as parameters. */
  lemma PrologueSim(img: Image, frame: nat, vals: seq<int>, m: State) returns (m': State)
    requires At(img.code, m.rip, PushRbp) && At(img.code, m.rip + 1, MovRbpRsp)
    requires frame < 0x7100_0000 && At(img.code, m.rip + 4, SubRsp(frame))
    requires m.rsp + 8 + 8 * |vals| < TWO64 && m.rsp >= 8 + frame
    requires ParamsHold(vals, m.rsp - 8, m.mem)
    ensures Reaches(img, m, m')
    ensures m'.rip == m.rip + 11 && m'.rbp == m.rsp - 8 && m'.rsp == m.rsp - 8 - frame
    ensures Framed(Env(map[], vals), frame, m')
    ensures Load64(m'.mem, m'.rbp) == m.rbp && Above(m.mem, m'.mem, m.rsp)
  {
    hide Load64, Store64, Get, Reaches, At, ParamsHold;
    var m1 := Do(img, m, PushRbp);
    var m2 := Do(img, m1, MovRbpRsp);
    ReachesTrans(img, m, m1, m2);
    m' := Do(img, m2, SubRsp(frame));
    ReachesTrans(img, m, m2, m');
    Store64Facts(m.mem, m.rsp - 8, m.rbp);
    ParamsAbove(vals, m.rsp - 8, m.mem, m'.mem);
  }

  /** Parameter cells lie above the saved rbp and the return address. */
  lemma ParamsAbove(params: seq<int>, rbp: int, mem: Mem, mem': Mem)
    requires ParamsHold(params, rbp, mem) && Above(mem, mem', rbp + 8)
    ensures ParamsHold(params, rbp, mem')
  {
    hide Load64, Get, ToWord;
    forall k | 0 <= k < |params| ensures Load64(mem', rbp + 16 + 8 * k) == ToWord(params[k]) {
      Load64Agree(mem, mem', rbp + 16 + 8 * k);
    }
  }

  /** Relation between the state where a body runs and the state after `ret`. */
  ghost predicate Exited(img: Image, count: nat, m: State, m': State) {
    && m'.rip == Load64(m.mem, m.rbp + 8) - img.base
    && m'.rbp == Load64(m.mem, m.rbp) && m'.rsp == m.rbp + 16
    && Keeps(m.mem, m'.mem, m.rbp, count)
  }

  lemma EpilogueSim(img: Image, count: nat, m: State) returns (m': State)
    requires At(img.code, m.rip, Leave) && At(img.code, m.rip + 1, Ret) && m.rbp + 16 < TWO64
    ensures Reaches(img, m, m') && Exited(img, count, m, m') && m'.rax == m.rax
  {
    hide Load64, Get, Reaches, At;
    var m1 := Do(img, m, Leave);
    m' := Do(img, m1, Ret);
    ReachesTrans(img, m, m1, m');
  }

  lemma KeepsTrans(a: Mem, b: Mem, c: Mem, rbp: int, n: nat)
    requires Keeps(a, b, rbp, n) && Keeps(b, c, rbp, n)
    ensures Keeps(a, c, rbp, n)
  {
    hide Get;
  }

  lemma AboveKeeps(a: Mem, b: Mem, lo: int, rbp: int, n: nat)
    requires Above(a, b, lo) && lo <= rbp
    ensures Keeps(a, b, rbp, n)
  {
    hide Get;
  }

  /** Leaving from a later point of the same body leaves from the body. */
  lemma ExitedLater(img: Image, count: nat, m: State, m1: State, m': State)
    requires m1.rbp == m.rbp && Keeps(m.mem, m1.mem, m.rbp, count) && Exited(img, count, m1, m')
    ensures Exited(img, count, m, m')
  {
    hide Load64, Get;
    Load64Agree(m.mem, m1.mem, m.rbp);
    Load64Agree(m.mem, m1.mem, m.rbp + 8);
  }

  /** A call: from the function's entry to the return address, with the result in
      rax, the caller's registers restored and only argument cells changed above. */
  lemma {:induction false} ApplySim(img: Image, en: Entries, p: Program, fuel: nat, name: string, vals: seq<int>, m: State)
    returns (m': State)
    requires Entered(img, en, p, fuel, name, vals, m) && !Apply(p, fuel, name, vals).Fail?
    ensures Reaches(img, m, m') && Left(img, vals, Apply(p, fuel, name, vals), m, m')
    decreases fuel
  {
    hide Reaches, At, Load64, Get, ParamsHold, Framed, Ready;
    var i := Find(p, name);
    var f := p[i];
    ReadyFunc(img, en, p, i);
    FrameSizeFits(f.localBytes);
    var frame, env := FrameSize(f.localBytes), Env(map[], vals);
    var m1 := PrologueSim(img, frame, vals, m);
    var m2 := StmtSim(img, en, p, fuel, env, frame, f.localBytes, f.body.value, m1);
    ReachesTrans(img, m, m1, m2);
    m' := m2;
    if Exec(p, fuel, env, f.body.value).Normal? {
      m' := EpilogueSim(img, |vals|, m2);
      ReachesTrans(img, m, m2, m');
      ExitedLater(img, |vals|, m1, m2, m');
    }
    Load64Agree(m.mem, m1.mem, m.rsp);
  }

  lemma ReadyFunc(img: Image, en: Entries, p: Program, i: nat)
    requires Ready(img, en, p) && i < |p| && Find(p, p[i].name) == i
    ensures GoodFunc(p[i]) && p[i].name in en && FuncAt(img.code, en, p[i], en[p[i].name])
  {
    hide FuncAt, GoodFunc, Find;
  }

  // ----- conditions and statements -----

  /** A conditional jump after the flags are set. */
  lemma JumpStep(img: Image, cc: CC, target: int, m: State) returns (m': State)
    requires At(img.code, m.rip, Jcc(cc, Rel(target, m.rip + 6))) && m.flags.Some?
    requires 0 <= target <= 0x1_0000 && |img.code| <= 0x1_0000
    ensures Reaches(img, m, m')
    ensures m' == m.(rip := if Holds(cc, m.flags.value) then target else m.rip + 6)
  {
    hide Reaches, At, Rel, Holds;
    var i := Jcc(cc, Rel(target, m.rip + 6));
    AtBound(img.code, m.rip, i);
    RelExact(target, m.rip + 6);
    m' := Do(img, m, i);
  }

  lemma JumpCCMeans(op: Op, onTrue: bool, x: int, y: int)
    requires CompareOp(op).Some?
    ensures Compare(JumpCC(op, onTrue), x, y) == (Compare(CompareOp(op).value, x, y) == onTrue)
  {
  }

  /** Comparing the two popped operands and jumping. */
  lemma CompareStep(img: Image, op: Op, onTrue: bool, x: int, y: int, target: int, m: State) returns (m': State)
    requires At(img.code, m.rip, CmpRaxRbx) && At(img.code, m.rip + 3, Jcc(JumpCC(op, onTrue), Rel(target, m.rip + 9)))
    requires CompareOp(op).Some? && 0 <= target <= 0x1_0000 && |img.code| <= 0x1_0000
    requires m.rax == ToWord(x) && m.rbx == ToWord(y) && IsLong(x) && IsLong(y)
    ensures Reaches(img, m, m') && m'.rbp == m.rbp && m'.rsp == m.rsp && m'.mem == m.mem
    ensures m'.rip == if Compare(CompareOp(op).value, x, y) == onTrue then target else m.rip + 9
  {
    hide Reaches, At, ToWord, Rel, JumpCC, Compare, Holds, IsLong, Signed, CompareFlags;
    var m1 := Do(img, m, CmpRaxRbx);
    m' := JumpStep(img, JumpCC(op, onTrue), target, m1);
    ReachesTrans(img, m, m1, m');
    FlagsDecideCompare(JumpCC(op, onTrue), m.rax, m.rbx);
    SignedToWord(x);
    SignedToWord(y);
    JumpCCMeans(op, onTrue, x, y);
  }

  /** Testing a value against zero and jumping. */
  lemma TestStep(img: Image, onTrue: bool, x: int, target: int, m: State) returns (m': State)
    requires At(img.code, m.rip, TestRax) && At(img.code, m.rip + 3, Jcc(if onTrue then NE else E, Rel(target, m.rip + 9)))
    requires 0 <= target <= 0x1_0000 && |img.code| <= 0x1_0000
    requires m.rax == ToWord(x) && IsLong(x)
    ensures Reaches(img, m, m') && m'.rbp == m.rbp && m'.rsp == m.rsp && m'.mem == m.mem
    ensures m'.rip == if (x != 0) == onTrue then target else m.rip + 9
  {
    hide Reaches, At, ToWord, Rel, IsLong, Signed;
    var m1 := Do(img, m, TestRax);
    m' := JumpStep(img, if onTrue then NE else E, target, m1);
    ReachesTrans(img, m, m1, m');
    ZeroWord(x);
  }

  lemma {:induction false} CondSim(img: Image, en: Entries, p: Program, fuel: nat, env: Env, frame: nat, n: nat, c: Expr, target: int, onTrue: bool, m: State)
    returns (m': State)
    requires Start(img, en, p, env, frame, n, m) && GoodExpr(c, n)
    requires CondAt(img.code, en, c, m.rip, target, onTrue) && 0 <= target <= 0x1_0000
    requires Truth(p, fuel, env, c).Some? && m.rsp >= TruthDepth(p, fuel, env, c)
    ensures Reaches(img, m, m') && m'.rbp == m.rbp && m'.rsp == m.rsp && Above(m.mem, m'.mem, m.rsp)
    ensures m'.rip == if Truth(p, fuel, env, c).value == onTrue then target else m.rip + CondSize(c)
    decreases fuel, c, 3
  {
    hide Reaches, At, Load64, Get, Start, ToWord, ExprAt, Eval, ExprDepth, Rel, JumpCC, Compare;
    StartTop(img, en, p, env, frame, n, m);
    StartBounds(img, en, p, env, frame, n, m, 0, "");
    if c.Bin? {
      var m1 := TwoSim(img, en, p, fuel, env, frame, n, c, m);
      var m2 := PopTwo(img, m1);
      ReachesTrans(img, m, m1, m2);
      var x, y := Eval(p, fuel, env, c.left).v, Eval(p, fuel, env, c.right).v;
      m' := CompareStep(img, c.op, onTrue, x, y, target, m2);
      ReachesTrans(img, m, m2, m');
    } else {
      var m1 := ExprSim(img, en, p, fuel, env, frame, n, c, m);
      var m2 := PopRaxStep(img, m1);
      ReachesTrans(img, m, m1, m2);
      m' := TestStep(img, onTrue, Eval(p, fuel, env, c).v, target, m2);
      ReachesTrans(img, m, m2, m');
    }
  }

  lemma ZeroWord(x: int)
    requires IsLong(x)
    ensures ToWord(x) == 0 <==> x == 0
  {
  }

  /** Outcome of a statement as seen by the machine. */
  ghost predicate Simulates(img: Image, o: Outcome, frame: nat, count: nat, size: nat, junk: nat, m: State, m': State) {
    match o
    case Normal(env) =>
      && m'.rip == m.rip + size && m'.rbp == m.rbp && m'.rsp == m.rsp - junk
      && |env.params| == count && Framed(env, frame, m') && Keeps(m.mem, m'.mem, m.rbp, count)
    case Returned(v) => Exited(img, count, m, m') && IsLong(v) && m'.rax == ToWord(v)
    case Stuck => false
  }

  lemma {:induction false} StmtSim(img: Image, en: Entries, p: Program, fuel: nat, env: Env, frame: nat, n: nat, s: Stmt, m: State)
    returns (m': State)
    requires Start(img, en, p, env, frame, n, m) && GoodStmt(s, n)
    requires StmtAt(img.code, en, s, m.rip) && !Exec(p, fuel, env, s).Stuck?
    requires m.rsp >= StmtUse(p, fuel, env, s).depth
    ensures Reaches(img, m, m')
    ensures Simulates(img, Exec(p, fuel, env, s), frame, |env.params|, StmtSize(s), StmtUse(p, fuel, env, s).junk, m, m')
    decreases fuel, s, 1
  {
    hide Reaches, At, Load64, Get, Framed, Ready, ExprAt, Eval, ExprDepth, GoodExpr, Keeps;
    match s
    case ExprStmt(e) =>
      m' := ExprSim(img, en, p, fuel, env, frame, n, e, m);
      FramedKept(env, frame, m, m');
      StartFrame(img, en, p, env, frame, n, m);
      AboveKeeps(m.mem, m'.mem, m.rsp, m.rbp, |env.params|);
    case Assign(nodeOff, off, rhs) =>
      m' := AssignSim(img, en, p, fuel, env, frame, n, Target(nodeOff, off), rhs, m);
    case If(_, _, _) =>
      m' := IfSim(img, en, p, fuel, env, frame, n, s, m);
    case While(_, _) =>
      m' := WhileSim(img, en, p, fuel, env, frame, n, s, m);
    case Block(items) =>
      m' := ItemsSim(img, en, p, fuel, env, frame, n, items, m);
    case Return(v) =>
      m' := ReturnSim(img, en, p, fuel, env, frame, n, v, m);
  }

  lemma {:induction false} ReturnSim(img: Image, en: Entries, p: Program, fuel: nat, env: Env, frame: nat, n: nat, v: Option<Expr>, m: State)
    returns (m': State)
    requires Start(img, en, p, env, frame, n, m) && GoodStmt(Return(v), n)
    requires StmtAt(img.code, en, Return(v), m.rip) && !Exec(p, fuel, env, Return(v)).Stuck?
    requires v.Some? ==> m.rsp >= ExprDepth(p, fuel, env, v.value)
    ensures Reaches(img, m, m')
    ensures Simulates(img, Exec(p, fuel, env, Return(v)), frame, |env.params|, StmtSize(Return(v)), 0, m, m')
    decreases fuel, v, 0
  {
    hide Reaches, At, Load64, Get, Start, Eval, ExprAt, ExprDepth, GoodExpr, Keeps;
    StartFrame(img, en, p, env, frame, n, m);
    var m2;
    if v.None? {
      m2 := Do(img, m, XorEax);
      KeepsSelf(m.mem, m.rbp, |env.params|);
    } else {
      var m1 := ExprSim(img, en, p, fuel, env, frame, n, v.value, m);
      m2 := PopRaxStep(img, m1);
      ReachesTrans(img, m, m1, m2);
      AboveKeeps(m.mem, m2.mem, m.rsp, m.rbp, |env.params|);
    }
    m' := EpilogueSim(img, |env.params|, m2);
    ReachesTrans(img, m, m2, m');
    ExitedLater(img, |env.params|, m, m2, m');
  }

  lemma {:induction false} AssignSim(img: Image, en: Entries, p: Program, fuel: nat, env: Env, frame: nat, n: nat, off: int, rhs: Expr, m: State)
    returns (m': State)
    requires Start(img, en, p, env, frame, n, m) && GoodSlot(off, n) && GoodExpr(rhs, n)
    requires ExprAt(img.code, en, rhs, m.rip) && StoreAt(img.code, off, m.rip + ExprSize(rhs))
    requires Eval(p, fuel, env, rhs).V? && WriteSlot(env, off, Eval(p, fuel, env, rhs).v).Normal?
    requires m.rsp >= ExprDepth(p, fuel, env, rhs)
    ensures Reaches(img, m, m')
    ensures Simulates(img, WriteSlot(env, off, Eval(p, fuel, env, rhs).v), frame, |env.params|, ExprSize(rhs) + 1 + SlotSize(off), 0, m, m')
    decreases fuel, rhs, 3
  {
    hide Reaches, At, Load64, Get, Framed, Ready, ExprAt, StoreAt, Eval, ExprDepth, GoodExpr;
    var m1 := ExprSim(img, en, p, fuel, env, frame, n, rhs, m);
    FramedKept(env, frame, m, m1.(rsp := m.rsp));
    assert m.rsp + frame <= m.rbp by { StartFrame(img, en, p, env, frame, n, m); }
    m' := StoreSim(img, env, frame, off, n, Eval(p, fuel, env, rhs).v, m1);
    ReachesTrans(img, m, m1, m');
    AboveKeeps(m.mem, m1.mem, m.rsp, m.rbp, |env.params|);
    KeepsTrans(m.mem, m1.mem, m'.mem, m.rbp, |env.params|);
  }

  lemma StartFrame(img: Image, en: Entries, p: Program, env: Env, frame: nat, n: nat, m: State)
    requires Start(img, en, p, env, frame, n, m)
    ensures m.rsp + frame <= m.rbp && m.rbp + 16 < TWO64
  {
  }

  /** Two parts of a body one after the other. */
  lemma SimulatesTwice(img: Image, o: Outcome, frame: nat, count: nat, size: nat, size1: nat, junk: nat, junk1: nat, m: State, m1: State, m': State)
    requires m1.rip == m.rip + size1 && m1.rbp == m.rbp && m1.rsp == m.rsp - junk1 && Keeps(m.mem, m1.mem, m.rbp, count)
    requires Simulates(img, o, frame, count, size, junk, m1, m')
    ensures Simulates(img, o, frame, count, size1 + size, junk1 + junk, m, m')
  {
    hide Framed, Keeps, Load64;
    if o.Normal? {
      KeepsTrans(m.mem, m1.mem, m'.mem, m.rbp, count);
    } else {
      ExitedLater(img, count, m, m1, m');
    }
  }

  // ----- code of a construct ends inside the image -----

  lemma {:induction false} ExprExtent(code: seq<byte>, en: Entries, e: Expr, a: int)
    requires ExprAt(code, en, e, a)
    ensures 0 <= a && a + ExprSize(e) <= |code|
    decreases e, 0
  {
    match e
    case Int(_) =>
    case Var(_) =>
    case Bin(_, l, _) => ExprExtent(code, en, l, a);
    case CallE(_, args) => ArgsExtent(code, en, args, a);
    case Str(_) =>
  }

  lemma {:induction false} ArgsExtent(code: seq<byte>, en: Entries, es: Exprs, a: int)
    requires ArgsAt(code, en, es, a)
    ensures es.ECons? ==> 0 <= a && a + ArgsSize(es) <= |code|
    decreases es, 0
  {
    if es.ECons? {
      ArgsExtent(code, en, es.next, a);
      ExprExtent(code, en, es.head, a + ArgsSize(es.next));
    }
  }

  lemma CondExtent(code: seq<byte>, en: Entries, c: Expr, a: int, target: int, onTrue: bool)
    requires CondAt(code, en, c, a, target, onTrue)
    ensures 0 <= a && a + CondSize(c) <= |code|
  {
    hide ExprAt;
    if c.Bin? { ExprExtent(code, en, c.left, a); } else { ExprExtent(code, en, c, a); }
  }

  lemma {:induction false} StmtExtent(code: seq<byte>, en: Entries, s: Stmt, a: int)
    requires StmtAt(code, en, s, a) && 0 <= a <= |code|
    ensures a + StmtSize(s) <= |code|
    decreases s, 0
  {
    hide ExprAt, CondAt;
    match s
    case ExprStmt(e) => ExprExtent(code, en, e, a);
    case Decl(off, _) => ExprExtent(code, en, Var(off), a);
    case Assign(_, _, _) =>
    case If(c, t, f) =>
      CondExtent(code, en, c, a, if f.None? then a + StmtSize(s) else a + CondSize(c) + StmtSize(t) + 5, false);
      StmtExtent(code, en, t, a + CondSize(c));
      if f.Some? { StmtExtent(code, en, f.value, a + CondSize(c) + StmtSize(t) + 5); }
    case While(_, _) =>
    case Block(items) => ItemsExtent(code, en, items, a);
    case Return(_) =>
  }

  lemma {:induction false} ItemsExtent(code: seq<byte>, en: Entries, ss: Stmts, a: int)
    requires ItemsAt(code, en, ss, a) && 0 <= a <= |code|
    ensures a + ItemsSize(ss) <= |code|
    decreases ss, 0
  {
    if ss.SCons? {
      if ItemSize(ss.head) > 0 && ItemSize(ss.head) == StmtSize(ss.head) && StmtAt(code, en, ss.head, a) {
        StmtExtent(code, en, ss.head, a);
      }
      ItemsExtent(code, en, ss.next, a + ItemSize(ss.head));
    }
  }

  /** The jump behind the first branch of an if. */
  lemma JumpOver(img: Image, env: Env, frame: nat, target: int, m: State) returns (m': State)
    requires At(img.code, m.rip, Jmp(Rel(target, m.rip + 5))) && 0 <= target <= 0x1_0000 && |img.code| <= 0x1_0000
    requires Framed(env, frame, m)
    ensures Reaches(img, m, m') && m' == m.(rip := target) && Framed(env, frame, m')
  {
    hide Reaches, At, Rel, Framed;
    AtBound(img.code, m.rip, Jmp(Rel(target, m.rip + 5)));
    RelExact(target, m.rip + 5);
    m' := Do(img, m, Jmp(Rel(target, m.rip + 5)));
    FramedKept'(env, frame, m, m');
  }

  lemma {:induction false} IfSim(img: Image, en: Entries, p: Program, fuel: nat, env: Env, frame: nat, n: nat, s: Stmt, m: State)
    returns (m': State)
    requires Start(img, en, p, env, frame, n, m) && s.If? && GoodStmt(s, n)
    requires StmtAt(img.code, en, s, m.rip) && !Exec(p, fuel, env, s).Stuck?
    requires m.rsp >= StmtUse(p, fuel, env, s).depth
    ensures Reaches(img, m, m')
    ensures Simulates(img, Exec(p, fuel, env, s), frame, |env.params|, StmtSize(s), StmtUse(p, fuel, env, s).junk, m, m')
    decreases fuel, s, 0
  {
    hide Reaches, At, Load64, Get, Start, Framed, CondAt, CondSize, Truth, TruthDepth, Rel, GoodExpr, Keeps, Ready, Find, Above;
    var count := |env.params|;
    var If(c, t, f) := s;
    var b := m.rip + CondSize(c) + StmtSize(t);
    var target := if f.None? then m.rip + StmtSize(s) else b + 5;
    StartBounds(img, en, p, env, frame, n, m, 0, "");
    StartFrame(img, en, p, env, frame, n, m);
    CondExtent(img.code, en, c, m.rip, target, false);
    StmtExtent(img.code, en, t, m.rip + CondSize(c));
    if f.Some? { AtBound(img.code, b, Jmp(Rel(m.rip + StmtSize(s), b + 5))); }
    var m1 := CondSim(img, en, p, fuel, env, frame, n, c, target, false, m);
    StartKept(img, en, p, env, frame, n, m, m1);
    AboveKeeps(m.mem, m1.mem, m.rsp, m.rbp, count);
    if Truth(p, fuel, env, c).value {
      var m2 := StmtSim(img, en, p, fuel, env, frame, n, t, m1);
      ReachesTrans(img, m, m1, m2);
      SimulatesTwice(img, Exec(p, fuel, env, t), frame, count, StmtSize(t), CondSize(c), StmtUse(p, fuel, env, t).junk, 0, m, m1, m2);
      m' := m2;
      if f.Some? && Exec(p, fuel, env, t).Normal? {
        StmtExtent(img.code, en, f.value, b + 5);
        m' := JumpOver(img, Exec(p, fuel, env, t).env, frame, m.rip + StmtSize(s), m2);
        ReachesTrans(img, m, m2, m');
      }
    } else if f.Some? {
      m' := StmtSim(img, en, p, fuel, env, frame, n, f.value, m1);
      ReachesTrans(img, m, m1, m');
      SimulatesTwice(img, Exec(p, fuel, env, f.value), frame, count, StmtSize(f.value), CondSize(c) + StmtSize(t) + 5,
                     StmtUse(p, fuel, env, f.value).junk, 0, m, m1, m');
    } else {
      m' := m1;
      StartFramed(img, en, p, env, frame, n, m1);
    }
  }

  lemma StartFramed(img: Image, en: Entries, p: Program, env: Env, frame: nat, n: nat, m: State)
    requires Start(img, en, p, env, frame, n, m)
    ensures Framed(env, frame, m) && Ready(img, en, p) && n <= 0x7000_0000 && n + 4 <= frame
  {
  }

  /** Frames do not depend on rip, rax or flags. */
  lemma FramedKept'(env: Env, frame: nat, m: State, m': State)
    requires Framed(env, frame, m) && m'.rbp == m.rbp && m'.rsp == m.rsp && m'.mem == m.mem
    ensures Framed(env, frame, m')
  {
  }

  lemma StartFrom(img: Image, en: Entries, p: Program, env: Env, frame: nat, n: nat, m: State, env': Env, m': State)
    requires Start(img, en, p, env, frame, n, m) && Framed(env', frame, m')
    ensures Start(img, en, p, env', frame, n, m')
  {
    hide Framed, Ready;
  }

  lemma {:induction false} WhileSim(img: Image, en: Entries, p: Program, fuel: nat, env: Env, frame: nat, n: nat, s: Stmt, m: State)
    returns (m': State)
    requires Start(img, en, p, env, frame, n, m) && s.While? && GoodStmt(s, n)
    requires StmtAt(img.code, en, s, m.rip) && !Exec(p, fuel, env, s).Stuck?
    requires m.rsp >= StmtUse(p, fuel, env, s).depth
    ensures Reaches(img, m, m')
    ensures Simulates(img, Exec(p, fuel, env, s), frame, |env.params|, StmtSize(s), StmtUse(p, fuel, env, s).junk, m, m')
    decreases fuel, s, 0
  {
    hide Reaches, At, Load64, Get, Start, Framed, CondAt, Truth, TruthDepth, Rel, GoodExpr, Keeps;
    var count := |env.params|;
    var While(c, body) := s;
    var b := m.rip + CondSize(c) + StmtSize(body);
    StartBounds(img, en, p, env, frame, n, m, 0, "");
    StartFrame(img, en, p, env, frame, n, m);
    CondExtent(img.code, en, c, m.rip, b + 5, false);
    AtBound(img.code, b, Jmp(Rel(m.rip, b + 5)));
    var m1 := CondSim(img, en, p, fuel, env, frame, n, c, b + 5, false, m);
    StartKept(img, en, p, env, frame, n, m, m1);
    AboveKeeps(m.mem, m1.mem, m.rsp, m.rbp, count);
    if !Truth(p, fuel, env, c).value {
      m' := m1;
      StartFramed(img, en, p, env, frame, n, m1);
      return;
    }
    var o, u := Exec(p, fuel, env, body), StmtUse(p, fuel, env, body);
    var m2 := StmtSim(img, en, p, fuel, env, frame, n, body, m1);
    ReachesTrans(img, m, m1, m2);
    SimulatesTwice(img, o, frame, count, StmtSize(body), CondSize(c), u.junk, 0, m, m1, m2);
    if o.Returned? {
      m' := m2;
      return;
    }
    RelExact(m.rip, b + 5);
    var m3 := Do(img, m2, Jmp(Rel(m.rip, b + 5)));
    ReachesTrans(img, m, m2, m3);
    FramedKept'(o.env, frame, m2, m3);
    StartFrom(img, en, p, env, frame, n, m, o.env, m3);
    m' := StmtSim(img, en, p, fuel - 1, o.env, frame, n, s, m3);
    ReachesTrans(img, m, m3, m');
    var o', u' := Exec(p, fuel - 1, o.env, s), StmtUse(p, fuel - 1, o.env, s);
    SimulatesTwice(img, o', frame, count, StmtSize(s), 0, u'.junk, u.junk, m, m3, m');
  }

  lemma {:induction false} ItemSim(img: Image, en: Entries, p: Program, fuel: nat, env: Env, frame: nat, n: nat, s: Stmt, m: State)
    returns (m': State)
    requires Start(img, en, p, env, frame, n, m) && GoodStmt(s, n)
    requires ItemAt(img.code, en, s, m.rip) && !ExecItem(p, fuel, env, s).Stuck?
    requires m.rsp >= ItemUse(p, fuel, env, s).depth
    ensures Reaches(img, m, m')
    ensures Simulates(img, ExecItem(p, fuel, env, s), frame, |env.params|, ItemSize(s), ItemUse(p, fuel, env, s).junk, m, m')
    decreases fuel, s, 2
  {
    hide Reaches, At, Load64, Get, Framed, Ready, StmtAt, Exec, StmtUse, StmtSize, ExprAt, StoreAt, GoodExpr, Eval, ExprDepth;
    match s
    case Decl(_, None) =>
      m' := m;
      ReachesSelf(img, m);
    case ExprStmt(Var(_)) =>
      m' := m;
      ReachesSelf(img, m);
    case Decl(off, Some(e)) =>
      m' := AssignSim(img, en, p, fuel, env, frame, n, off, e, m);
    case _ =>
      m' := StmtSim(img, en, p, fuel, env, frame, n, s, m);
  }

  lemma {:induction false} ItemsSim(img: Image, en: Entries, p: Program, fuel: nat, env: Env, frame: nat, n: nat, ss: Stmts, m: State)
    returns (m': State)
    requires Start(img, en, p, env, frame, n, m) && GoodStmts(ss, n)
    requires ItemsAt(img.code, en, ss, m.rip) && !ExecItems(p, fuel, env, ss).Stuck?
    requires m.rsp >= ItemsUse(p, fuel, env, ss).depth
    ensures Reaches(img, m, m')
    ensures Simulates(img, ExecItems(p, fuel, env, ss), frame, |env.params|, ItemsSize(ss), ItemsUse(p, fuel, env, ss).junk, m, m')
    decreases fuel, ss, 1
  {
    hide Reaches, At, Load64, Get, Framed, Start, ItemAt, ExecItem, ItemUse, ItemSize, Keeps;
    match ss
    case SNil =>
      m' := m;
      ReachesSelf(img, m);
      StartFramed(img, en, p, env, frame, n, m);
      KeepsSelf(m.mem, m.rbp, |env.params|);
    case SCons(s, rest) =>
      var o, u := ExecItem(p, fuel, env, s), ItemUse(p, fuel, env, s);
      var m1 := ItemSim(img, en, p, fuel, env, frame, n, s, m);
      m' := m1;
      if o.Normal? {
        StartFrom(img, en, p, env, frame, n, m, o.env, m1);
        m' := ItemsSim(img, en, p, fuel, o.env, frame, n, rest, m1);
        ReachesTrans(img, m, m1, m');
        SimulatesTwice(img, ExecItems(p, fuel, o.env, rest), frame, |env.params|, ItemsSize(rest), ItemSize(s),
                       ItemsUse(p, fuel, o.env, rest).junk, u.junk, m, m1, m');
      }
  }

  lemma KeepsSelf(m: Mem, rbp: int, n: nat)
    ensures Keeps(m, m, rbp, n)
  {
  }
}
