/**
 The code generator as it runs: static buffers and tables updated in place.
 Every method is tied to the function of the same name in module Codegen.
 */
module Generator {
  import opened Words
  import opened Machine
  import opened Options
  import opened Ast
  import opened Layout
  import C = Codegen
  import Patching
  import Placement
  import Leftovers
  import Compiler

  // ----- what the generator is given -----

  /** No call of a kernel routine. */
  predicate Serves(e: Expr) {
    match e
    case Bin(_, l, r) => Serves(l) && Serves(r)
    case CallE(name, args) => !IsBuiltin(name) && ServesArgs(args)
    case _ => true
  }

  predicate ServesArgs(es: Exprs) {
    es.ECons? ==> Serves(es.head) && ServesArgs(es.next)
  }

  predicate ServesStmt(s: Stmt) {
    match s
    case ExprStmt(e) => Serves(e)
    case Decl(_, init) => init.Some? ==> Serves(init.value)
    case Assign(_, _, rhs) => Serves(rhs)
    case If(c, t, f) => Serves(c) && ServesStmt(t) && (f.Some? ==> ServesStmt(f.value))
    case While(c, body) => Serves(c) && ServesStmt(body)
    case Block(items) => ServesAll(items)
    case Return(v) => v.Some? ==> Serves(v.value)
  }

  predicate ServesAll(ss: Stmts) {
    ss.SCons? ==> ServesStmt(ss.head) && ServesAll(ss.next)
  }

  predicate ServesFunc(f: Func) {
    f.body.Some? ==> ServesStmt(f.body.value)
  }

  /** No write leaves the string pool. */
  predicate PoolInside(g: C.Gen) {
    |g.pool| <= C.MAX_STR_POOL
  }

  class CodeGenerator {
    const codeBuf: array<byte>
    var codeLen: nat
    const labelPos: array<int>
    var nextLabelId: nat
    const fixups: array<C.Fixup>
    var numFixups: nat
    const funcTable: array<C.FuncSym>
    var numFuncs: nat
    const strPool: array<byte>
    var strPoolLen: nat
    const strFixups: array<C.StrFixup>
    var numStrFixups: nat

    ghost predicate Valid()
      reads this
    {
      && codeBuf.Length == C.CODE_BUF_SIZE && codeLen <= C.CODE_BUF_SIZE
      && labelPos.Length == C.MAX_LABELS && fixups.Length == C.MAX_FIXUPS && numFixups <= C.MAX_FIXUPS
      && funcTable.Length == C.MAX_FUNCS && numFuncs <= C.MAX_FUNCS
      && strPool.Length == C.MAX_STR_POOL && strPoolLen <= C.MAX_STR_POOL
      && strFixups.Length == C.MAX_STR_FIXUPS && numStrFixups <= C.MAX_STR_FIXUPS
      && codeBuf != strPool && codeBuf as object != labelPos && strPool as object != labelPos
    }

    /** The tables as a value. */
    ghost function Tables(): C.Gen
      reads this, codeBuf, labelPos, fixups, funcTable, strPool, strFixups
      requires Valid()
    {
      C.Gen(codeBuf[..codeLen], labelPos[..], nextLabelId, fixups[..], numFixups,
            funcTable[..numFuncs], strPool[..strPoolLen], strFixups[..numStrFixups])
    }

    // ----- bytes -----

    method EmitByte(b: byte)
      requires Valid()
      modifies this`codeLen, codeBuf
      ensures Valid() && Tables() == C.Emit(old(Tables()), [b])
    {
      if codeLen < C.CODE_BUF_SIZE {
        codeBuf[codeLen] := b;
        codeLen := codeLen + 1;
        assert codeBuf[..codeLen] == old(codeBuf[..codeLen]) + [b];
      } else {
        assert (codeBuf[..codeLen] + [b])[..C.CODE_BUF_SIZE] == codeBuf[..codeLen];
      }
    }

    method EmitBytes(b: seq<byte>)
      requires Valid()
      modifies this`codeLen, codeBuf
      ensures Valid() && Tables() == C.Emit(old(Tables()), b)
    {
      ghost var before := Tables();
      assert C.Emit(before, []) == before by { EmitNothing(before); }
      for i := 0 to |b|
        invariant Valid() && Tables() == C.Emit(before, b[..i])
      {
        EmitByte(b[i]);
        EmitJoins(before, b[..i], [b[i]]);
        assert b[..i + 1] == b[..i] + [b[i]];
      }
      assert b[..|b|] == b;
    }

    method EmitU32(v: u32)
      requires Valid()
      modifies this`codeLen, codeBuf
      ensures Valid() && Tables() == C.Emit(old(Tables()), Bytes32(v))
    {
      EmitBytes([v % 256, v / 256 % 256, v / 65536 % 256, v / 16777216 % 256]);
    }

    method EmitU64(v: word)
      requires Valid()
      modifies this`codeLen, codeBuf
      ensures Valid() && Tables() == C.Emit(old(Tables()), Bytes64(v))
    {
      EmitU32(v % TWO32);
      EmitU32(v / TWO32);
      EmitJoins(old(Tables()), Bytes32(v % TWO32), Bytes32(v / TWO32));
    }

    /** Opcode bytes followed by a 32-bit field. */
    method EmitWithField(opcode: seq<byte>, v: u32)
      requires Valid()
      modifies this`codeLen, codeBuf
      ensures Valid() && Tables() == C.Emit(old(Tables()), opcode + Bytes32(v))
    {
      EmitBytes(opcode);
      EmitU32(v);
      EmitJoins(old(Tables()), opcode, Bytes32(v));
    }

    // ----- instructions -----

    method EmitPushRax()
      requires Valid()
      modifies this`codeLen, codeBuf
      ensures Valid() && Tables() == C.EmitI(old(Tables()), PushRax)
    {
      EmitByte(0x50);
      PlainEncoding(PushRax);
    }

    method EmitPopRax()
      requires Valid()
      modifies this`codeLen, codeBuf
      ensures Valid() && Tables() == C.EmitI(old(Tables()), PopRax)
    {
      EmitByte(0x58);
      PlainEncoding(PopRax);
    }

    method EmitPopRbx()
      requires Valid()
      modifies this`codeLen, codeBuf
      ensures Valid() && Tables() == C.EmitI(old(Tables()), PopRbx)
    {
      EmitByte(0x5B);
      PlainEncoding(PopRbx);
    }

    method EmitMovImmRax(n: int)
      requires Valid()
      modifies this`codeLen, codeBuf
      ensures Valid() && Tables() == C.EmitI(old(Tables()), MovRaxImm(ToWord(n)))
    {
      EmitBytes([0x48, 0xB8]);
      EmitU64(ToWord(n));
      EmitJoins(old(Tables()), [0x48, 0xB8], Bytes64(ToWord(n)));
    }

    method EmitOp(op: Op)
      requires Valid()
      modifies this`codeLen, codeBuf
      ensures Valid() && Tables() == C.EmitOp(old(Tables()), op)
    {
      match op
      case Add => EmitBytes([0x48, 0x01, 0xD8]); PlainEncoding(AddRaxRbx);
      case Sub => EmitBytes([0x48, 0x29, 0xD8]); PlainEncoding(SubRaxRbx);
      case Mul => EmitBytes([0x48, 0x0F, 0xAF, 0xC3]); PlainEncoding(ImulRaxRbx);
      case Div =>
        EmitBytes([0x48, 0x99]);
        PlainEncoding(Cqo);
        EmitBytes([0x48, 0xF7, 0xFB]);
        PlainEncoding(IdivRbx);
      case _ =>
    }

    method EmitLoadLocal(offset: int)
      requires Valid()
      modifies this`codeLen, codeBuf
      ensures Valid() && Tables() == C.EmitLoad(old(Tables()), offset)
    {
      SlotFields(offset);
      if offset < 0 {
        var argIdx := TruncDiv(-12 - offset, 4);
        EmitWithField([0x48, 0x8B, 0x85], ToU32(16 + argIdx * 8));
      } else {
        EmitWithField([0x8B, 0x85], ToU32(-(offset + 8)));
      }
      EmitPushRax();
    }

    method EmitStoreLocal(offset: int)
      requires Valid()
      modifies this`codeLen, codeBuf
      ensures Valid() && Tables() == C.EmitStore(old(Tables()), offset)
    {
      EmitPopRax();
      SlotFields(offset);
      if offset < 0 {
        var argIdx := TruncDiv(-12 - offset, 4);
        EmitWithField([0x48, 0x89, 0x85], ToU32(16 + argIdx * 8));
      } else {
        EmitWithField([0x89, 0x85], ToU32(-(offset + 8)));
      }
    }

    method EmitPrologue(localBytes: nat)
      requires Valid()
      modifies this`codeLen, codeBuf
      ensures Valid() && Tables() == C.EmitPrologue(old(Tables()), localBytes)
    {
      hide C.Emit;
      EmitByte(0x55);
      PlainEncoding(PushRbp);
      EmitBytes([0x48, 0x89, 0xE5]);
      PlainEncoding(MovRbpRsp);
      var frame := (localBytes + 32 + 15) / 16 * 16;
      FieldRoundTrip(frame);
      EmitWithField([0x48, 0x81, 0xEC], ToU32(frame));
    }

    method EmitEpilogue()
      requires Valid()
      modifies this`codeLen, codeBuf
      ensures Valid() && Tables() == C.EmitEpilogue(old(Tables()))
    {
      EmitByte(0xC9);
      PlainEncoding(Leave);
      EmitByte(0xC3);
      PlainEncoding(Ret);
    }

    // ----- labels and fixups -----

    method AllocLabel() returns (id: nat)
      requires Valid()
      modifies this`nextLabelId, labelPos
      ensures Valid() && id == old(Tables()).nextLabel && Tables() == C.AllocLabel(old(Tables()))
    {
      id := nextLabelId;
      nextLabelId := nextLabelId + 1;
      if id < C.MAX_LABELS {
        labelPos[id] := -1;
      }
    }

    method MarkLabel(id: nat)
      requires Valid()
      modifies labelPos
      ensures Valid() && Tables() == C.MarkLabel(old(Tables()), id)
    {
      if id < C.MAX_LABELS {
        labelPos[id] := codeLen;
      }
    }

    method AddJumpFixup(lbl: nat)
      requires Valid()
      modifies this`numFixups, fixups
      ensures Valid() && Tables() == C.JumpFixup(old(Tables()), lbl)
    {
      if numFixups < C.MAX_FIXUPS {
        fixups[numFixups] := fixups[numFixups].(labelId := lbl, patchPos := codeLen, isFuncCall := false);
        numFixups := numFixups + 1;
      }
    }

    method AddTestFixup(lbl: nat)
      requires Valid()
      modifies this`numFixups, fixups
      ensures Valid() && Tables() == C.TestFixup(old(Tables()), lbl)
    {
      if numFixups < C.MAX_FIXUPS {
        fixups[numFixups] := fixups[numFixups].(labelId := lbl, patchPos := codeLen);
        numFixups := numFixups + 1;
      }
    }

    method AddCallFixup(name: string)
      requires Valid()
      modifies this`numFixups, fixups
      ensures Valid() && Tables() == C.CallFixup(old(Tables()), name)
    {
      if numFixups < C.MAX_FIXUPS {
        fixups[numFixups] := fixups[numFixups].(isFuncCall := true, funcName := C.Trunc(name), patchPos := codeLen);
        numFixups := numFixups + 1;
      }
    }

    method EmitJmp(lbl: nat)
      requires Valid()
      modifies this`codeLen, codeBuf, this`numFixups, fixups
      ensures Valid() && Tables() == C.EmitJmp(old(Tables()), lbl)
    {
      EmitByte(0xE9);
      AddJumpFixup(lbl);
      EmitU32(0);
      PlaceholderBytes();
    }

    method EmitCondJump(op: Op, onTrue: bool, lbl: nat)
      requires Valid()
      modifies this`codeLen, codeBuf, this`numFixups, fixups
      ensures Valid() && Tables() == C.EmitCondJump(old(Tables()), JumpCC(op, onTrue), lbl)
    {
      hide C.Emit, Encode, Opcode, C.JumpFixup, JumpCC, JumpByte, CCByte, Tables, Valid;
      EmitPopRbx();
      EmitPopRax();
      CompareEncodings();
      EmitBytes([0x48, 0x39, 0xD8]);
      EmitBytes([0x0F, JumpByte(if onTrue then op else Inverse(op))]);
      JumpBytes(op, onTrue);
      AddJumpFixup(lbl);
      EmitU32(0);
      PlaceholderBytes();
    }

    method EmitTestJump(onTrue: bool, lbl: nat)
      requires Valid()
      modifies this`codeLen, codeBuf, this`numFixups, fixups
      ensures Valid() && Tables() == C.EmitTestJump(old(Tables()), if onTrue then NE else E, lbl)
    {
      hide C.Emit, Encode, Opcode, C.TestFixup, Tables, Valid;
      EmitPopRax();
      CompareEncodings();
      EmitBytes([0x48, 0x85, 0xC0]);
      if onTrue {
        EmitBytes([0x0F, 0x85]);
      } else {
        EmitBytes([0x0F, 0x84]);
      }
      AddTestFixup(lbl);
      EmitU32(0);
      PlaceholderBytes();
    }

    // ----- function symbols and strings -----

    method RegisterFunc(name: string)
      requires Valid()
      modifies this`numFuncs, funcTable
      ensures Valid() && Tables() == C.RegisterFunc(old(Tables()), name)
    {
      if numFuncs < C.MAX_FUNCS {
        funcTable[numFuncs] := C.FuncSym(C.Trunc(name), codeLen);
        numFuncs := numFuncs + 1;
        assert funcTable[..numFuncs] == old(funcTable[..numFuncs]) + [C.FuncSym(C.Trunc(name), codeLen)];
      }
    }

    method FindFuncOffset(name: string) returns (offset: int)
      requires Valid()
      ensures offset == C.FindFunc(Tables().funcs, name)
    {
      ghost var all := funcTable[..numFuncs];
      assert all[0..] == all;
      for i := 0 to numFuncs
        invariant C.FindFunc(all, name) == C.FindFunc(all[i..], name)
      {
        if funcTable[i].name == name {
          return funcTable[i].offset;
        }
        assert all[i..][1..] == all[i + 1..];
      }
      return -1;
    }

    /** The characters of a literal between its quotes, up to where the pool is full. */
    method CopyText(raw: string, from: nat, end: nat)
      requires Valid() && from <= end <= |raw| && strPoolLen < C.MAX_STR_POOL
      modifies this`strPoolLen, strPool
      ensures Valid() && strPoolLen < C.MAX_STR_POOL
      ensures var all := CharBytes(Unescape(raw[from..end]));
              strPool[..strPoolLen] == old(strPool[..strPoolLen]) + all[..C.PoolRoom(old(strPoolLen), |all|)]
    {
      hide Unescape, EscapedChar, CharByte, CharBytes, C.PoolRoom;
      ghost var start, all, before := strPoolLen, CharBytes(Unescape(raw[from..end])), strPool[..strPoolLen];
      ghost var done: seq<byte> := [];
      var i := from;
      assert all == done + all;
      while i < end && strPoolLen < C.MAX_STR_POOL - 2
        invariant i <= end && Valid() && strPoolLen == start + |done| < C.MAX_STR_POOL
        invariant strPool[..strPoolLen] == before + done
        invariant all == done + CharBytes(Unescape(raw[i..end]))
        invariant done != [] ==> strPoolLen <= C.MAX_STR_POOL - 2
        decreases end - i
      {
        NextChar(raw, i, end, done);
        var c, step := raw[i], 1;
        if raw[i] == '\\' && i + 1 < end {
          c := EscapedChar(raw[i + 1]);
          step := 2;
        }
        done := done + [CharByte(c)];
        strPool[strPoolLen] := CharByte(c);
        strPoolLen := strPoolLen + 1;
        assert strPool[..strPoolLen] == before + done;
        i := i + step;
      }
      NothingLeft(raw, i, end);
      CutIs(all, done, CharBytes(Unescape(raw[i..end])), start);
    }

    method AddToStringPool(raw: string) returns (start: nat)
      requires Valid() && strPoolLen < C.MAX_STR_POOL
      modifies this`strPoolLen, strPool
      ensures Valid() && start == old(strPoolLen) && Tables() == C.AddString(old(Tables()), raw)
    {
      hide Unescape, CharBytes, Text, C.AddString, C.PoolRoom, Stripped;
      ghost var g := Tables();
      start := strPoolLen;
      var i := 0;
      if |raw| > 0 && raw[0] == '"' { i := 1; }
      var end := |raw|;
      if end > i && raw[end - 1] == '"' { end := end - 1; }
      StrippedIs(raw, i, end);
      TextIs(raw);
      CopyText(raw, i, end);
      strPool[strPoolLen] := 0;
      strPoolLen := strPoolLen + 1;
      StringAdded(g, raw, CharBytes(Unescape(raw[i..end])));
      assert Tables() == g.(pool := strPool[..strPoolLen]);
    }

    method AddStrFixup(poolOffset: nat)
      requires Valid()
      modifies this`numStrFixups, strFixups
      ensures Valid() && Tables() == C.AddStrFixup(old(Tables()), poolOffset)
    {
      if numStrFixups < C.MAX_STR_FIXUPS {
        strFixups[numStrFixups] := C.StrFixup(codeLen, poolOffset);
        numStrFixups := numStrFixups + 1;
        assert strFixups[..numStrFixups] == old(strFixups[..numStrFixups]) + [C.StrFixup(codeLen, poolOffset)];
      }
    }

    // ----- tree traversal -----

    method GenExpr(e: Expr)
      requires Valid() && PoolInside(C.GenExpr(Tables(), e))
      modifies this, codeBuf, fixups, strPool, strFixups
      ensures Valid() && Tables() == C.GenExpr(old(Tables()), e)
      decreases e
    {
      hide Text, C.Emit, C.EmitI, C.EmitOp, C.FindFunc, C.AddString, Encode;
      match e
      case Int(n) =>
        EmitMovImmRax(n);
        EmitPushRax();
      case Var(off) =>
        EmitLoadLocal(off);
      case Bin(op, l, r) =>
        ExprPool(C.GenExpr(Tables(), l), r);
        AfterBoth(C.GenExpr(C.GenExpr(Tables(), l), r), op);
        GenExpr(l);
        GenExpr(r);
        EmitPopRbx();
        EmitPopRax();
        EmitOp(op);
        EmitPushRax();
      case CallE(name, args) =>
        AfterCall(C.GenArgs(Tables(), args, 32), name, C.Passed(args));
        var argCount := GenArgs(args, 32);
        EmitCall(name);
        if argCount > 0 {
          ghost var before := Tables();
          EmitWithField([0x48, 0x81, 0xC4], 8 * argCount);
          DropEncoding(before, argCount);
        }
        EmitPushRax();
      case Str(raw) =>
        LeaPool(Tables(), raw);
        GenString(raw);
        EmitPushRax();
    }

    method GenString(raw: string)
      requires Valid() && PoolInside(C.EmitLea(Tables(), raw))
      modifies this, codeBuf, strPool, strFixups
      ensures Valid() && Tables() == C.EmitLea(old(Tables()), raw)
      ensures numFixups == old(numFixups)
    {
      hide Text, C.Emit, C.AddString, C.EmitLea;
      LeaPool(Tables(), raw);
      var offset := AddToStringPool(raw);
      assert strPoolLen == |Tables().pool|;
      EmitBytes([0x48, 0x8D, 0x05]);
      AddStrFixup(offset);
      EmitU32(0);
      PlaceholderBytes();
    }

    method EmitCall(name: string)
      requires Valid()
      modifies this`codeLen, codeBuf, this`numFixups, fixups
      ensures Valid() && Tables() == C.EmitCall(old(Tables()), name)
    {
      hide C.Emit, C.FindFunc;
      var target := FindFuncOffset(name);
      EmitByte(0xE8);
      if target != -1 {
        EmitU32(ToU32(target - (codeLen + 4)));
      } else {
        AddCallFixup(name);
        EmitU32(0);
        PlaceholderBytes();
      }
    }

    method GenArgs(es: Exprs, n: nat) returns (count: nat)
      requires Valid() && PoolInside(C.GenArgs(Tables(), es, n))
      modifies this, codeBuf, fixups, strPool, strFixups
      ensures Valid() && Tables() == C.GenArgs(old(Tables()), es, n)
      ensures count == if es.Count() <= n then es.Count() else n
      decreases es
    {
      hide C.GenExpr, Tables, Valid;
      if n == 0 || es.ENil? {
        count := 0;
      } else {
        ExprPool(C.GenArgs(Tables(), es.next, n - 1), es.head);
        count := GenArgs(es.next, n - 1);
        GenExpr(es.head);
        count := count + 1;
      }
    }

    method GenCondition(c: Expr, lbl: nat, jumpOnTrue: bool)
      requires Valid() && PoolInside(C.GenCond(Tables(), c, lbl, jumpOnTrue))
      modifies this, codeBuf, fixups, strPool, strFixups
      ensures Valid() && Tables() == C.GenCond(old(Tables()), c, lbl, jumpOnTrue)
    {
      hide C.EmitCondJump, C.EmitTestJump, C.GenExpr, JumpCC;
      CondParts(Tables(), c, lbl, jumpOnTrue);
      if c.Bin? {
        GenExpr(c.left);
        GenExpr(c.right);
        EmitCondJump(c.op, jumpOnTrue, lbl);
      } else {
        GenExpr(c);
        EmitTestJump(jumpOnTrue, lbl);
      }
    }

    method GenStmt(s: Stmt)
      requires Valid() && PoolInside(C.GenStmt(Tables(), s))
      modifies this, codeBuf, labelPos, fixups, strPool, strFixups
      ensures Valid() && Tables() == C.GenStmt(old(Tables()), s)
      decreases s, 0
    {
      hide C.GenExpr, C.GenCond, C.EmitJmp, C.EmitStore, C.EmitLoad, C.EmitI, C.EmitEpilogue, C.AllocLabel, C.MarkLabel, C.Emit;
      StmtParts(Tables(), s);
      match s
      case ExprStmt(e) => GenExpr(e);
      case Decl(off, _) => EmitLoadLocal(off);
      case Assign(nodeOff, off, rhs) =>
        GenExpr(rhs);
        EmitStoreLocal(if nodeOff != 0 then nodeOff else off);
      case Return(Some(e)) =>
        GenExpr(e);
        EmitPopRax();
        EmitEpilogue();
      case Return(None) =>
        EmitXorEax();
        EmitEpilogue();
      case If(_, _, _) => GenIf(s);
      case While(_, _) => GenWhile(s);
      case Block(items) => GenItems(items);
    }

    method EmitXorEax()
      requires Valid()
      modifies this`codeLen, codeBuf
      ensures Valid() && Tables() == C.EmitI(old(Tables()), XorEax)
    {
      EmitBytes([0x31, 0xC0]);
      PlainEncoding(XorEax);
    }

    method GenIf(s: Stmt)
      requires s.If? && Valid() && PoolInside(C.GenStmt(Tables(), s))
      modifies this, codeBuf, labelPos, fixups, strPool, strFixups
      ensures Valid() && Tables() == C.GenStmt(old(Tables()), s)
      decreases s, -1
    {
      hide C.GenCond, C.EmitJmp, C.AllocLabel, C.MarkLabel, Tables, Valid, C.GenStmt;
      IfIs(Tables(), s);
      AllocNext(Tables());
      var lblElse := AllocLabel();
      var lblExit := AllocLabel();
      GenCondition(s.cond, if s.els.Some? then lblElse else lblExit, false);
      GenStmt(s.thn);
      if s.els.Some? {
        EmitJmp(lblExit);
        MarkLabel(lblElse);
        GenStmt(s.els.value);
      }
      MarkLabel(lblExit);
    }

    method GenWhile(s: Stmt)
      requires s.While? && Valid() && PoolInside(C.GenStmt(Tables(), s))
      modifies this, codeBuf, labelPos, fixups, strPool, strFixups
      ensures Valid() && Tables() == C.GenStmt(old(Tables()), s)
      decreases s, -1
    {
      hide C.GenCond, C.EmitJmp, C.AllocLabel, C.MarkLabel, Tables, Valid;
      WhileParts(Tables(), s);
      AllocNext(Tables());
      var lblStart := AllocLabel();
      var lblExit := AllocLabel();
      MarkLabel(lblStart);
      GenCondition(s.cond, lblExit, false);
      GenStmt(s.body);
      EmitJmp(lblStart);
      MarkLabel(lblExit);
    }

    method GenItem(s: Stmt)
      requires Valid() && PoolInside(C.GenItem(Tables(), s))
      modifies this, codeBuf, labelPos, fixups, strPool, strFixups
      ensures Valid() && Tables() == C.GenItem(old(Tables()), s)
      decreases s, 1
    {
      hide C.GenExpr, C.EmitStore, C.GenStmt;
      ItemParts(Tables(), s);
      match s
      case Decl(_, None) =>
      case ExprStmt(Var(_)) =>
      case Decl(off, Some(e)) =>
        GenExpr(e);
        EmitStoreLocal(off);
      case _ => GenStmt(s);
    }

    method GenItems(ss: Stmts)
      requires Valid() && PoolInside(C.GenItems(Tables(), ss))
      modifies this, codeBuf, labelPos, fixups, strPool, strFixups
      ensures Valid() && Tables() == C.GenItems(old(Tables()), ss)
      decreases ss, 0
    {
      hide C.GenItem;
      if ss.SCons? {
        ItemsPool(C.GenItem(Tables(), ss.head), ss.next);
        GenItem(ss.head);
        GenItems(ss.next);
      }
    }

    // ----- patching -----

    method Store32(pos: nat, v: int)
      requires Valid() && pos + 4 <= codeLen
      modifies codeBuf
      ensures codeBuf[..codeLen] == C.Write32(old(codeBuf[..codeLen]), pos, v)
    {
      var bs := Bytes32(ToU32(v));
      codeBuf[pos], codeBuf[pos + 1], codeBuf[pos + 2], codeBuf[pos + 3] := bs[0], bs[1], bs[2], bs[3];
    }

    method PatchFixups()
      requires Valid() && C.SitesInside(Tables(), codeLen)
      modifies codeBuf
      ensures codeBuf[..codeLen] == C.PatchFixups(old(Tables()), old(codeBuf[..codeLen]), numFixups)
    {
      ghost var g, code := Tables(), codeBuf[..codeLen];
      for i := 0 to numFixups
        invariant Tables() == g.(code := codeBuf[..codeLen])
        invariant codeBuf[..codeLen] == C.PatchFixups(g, code, i)
      {
        hide C.Write32, C.FindFunc;
        var f := fixups[i];
        assert f == g.table[i];
        var target := -1;
        if f.isFuncCall {
          target := FindFuncOffset(f.funcName);
        } else if f.labelId < C.MAX_LABELS {
          target := labelPos[f.labelId];
        }
        assert target == C.Resolve(g, i);
        if target != -1 {
          Store32(f.patchPos, target - (f.patchPos + 4));
        }
      }
    }

    method PatchStrFixups(section: nat)
      requires Valid() && C.SitesInside(Tables(), codeLen)
      modifies codeBuf
      ensures codeBuf[..codeLen] == C.PatchStrings(old(Tables()), old(codeBuf[..codeLen]), section, numStrFixups)
    {
      ghost var g, code := Tables(), codeBuf[..codeLen];
      for i := 0 to numStrFixups
        invariant Tables() == g.(code := codeBuf[..codeLen])
        invariant codeBuf[..codeLen] == C.PatchStrings(g, code, section, i)
      {
        hide C.Write32;
        var f := strFixups[i];
        assert f == g.strs[i];
        Store32(f.dispPos, section + f.poolOffset - (f.dispPos + 4));
      }
    }

    // ----- driver -----

    method GenFunc(f: Func)
      requires Valid() && PoolInside(C.GenFunc(Tables(), f))
      modifies this, codeBuf, labelPos, fixups, funcTable, strPool, strFixups
      ensures Valid() && Tables() == C.GenFunc(old(Tables()), f)
    {
      hide C.GenStmt, C.EmitPrologue, C.EmitEpilogue, C.RegisterFunc;
      FuncParts(Tables(), f);
      RegisterFunc(f.name);
      EmitPrologue(f.localBytes);
      if f.body.Some? {
        GenStmt(f.body.value);
      }
      EmitEpilogue();
    }

    method ResetTables()
      requires Valid()
      modifies this, labelPos
      ensures Valid()
      ensures Tables() == C.Begin(old(codeBuf[..C.HEADER_SIZE]), old(fixups[..]))
    {
      codeLen := 0;
      numFixups := 0;
      numFuncs := 0;
      strPoolLen := 0;
      numStrFixups := 0;
      nextLabelId := 1;
      for i := 0 to C.MAX_LABELS
        modifies labelPos
        invariant forall k :: 0 <= k < i ==> labelPos[k] == -1
      {
        labelPos[i] := -1;
      }
      codeLen := C.HEADER_SIZE;
      assert labelPos[..] == seq(C.MAX_LABELS, _ => -1);
    }

    method EmitFunctions(p: Program)
      requires Valid() && PoolInside(C.GenFuncs(Tables(), p, |p|))
      modifies this, codeBuf, labelPos, fixups, funcTable, strPool, strFixups
      ensures Valid() && Tables() == C.GenFuncs(old(Tables()), p, |p|)
    {
      hide C.GenFunc, C.GenFuncs, Tables, Valid;
      ghost var g := Tables();
      FuncsStart(g, p);
      for i := 0 to |p|
        invariant Valid() && Tables() == C.GenFuncs(g, p, i)
      {
        FuncsPool(g, p, i + 1, |p|);
        FuncsNext(g, p, i);
        GenFunc(p[i]);
      }
    }

    method AlignCode(ghost g: C.Gen)
      requires Valid() && Tables() == g
      modifies this`codeLen, codeBuf
      ensures Valid() && Tables() == C.Align(g)
    {
      ghost var n, k := codeLen, 0;
      EmitNothing(g);
      assert C.Nops(0) == [];
      while codeLen % 8 != 0
        invariant Valid() && 0 <= k <= C.Padding(n) && codeLen == n + k && Tables() == C.Emit(g, C.Nops(k))
        decreases C.Padding(n) - k
      {
        PaddingLast(n, k);
        EmitByte(0x90);
        EmitJoins(g, C.Nops(k), [0x90]);
        assert C.Nops(k) + [0x90] == C.Nops(k + 1);
        k := k + 1;
      }
      PaddingLast(n, k);
    }

    method EmitStringSection(ghost g: C.Gen)
      requires Valid() && Tables() == g
      modifies this`codeLen, codeBuf
      ensures Valid() && Tables() == C.EmitPool(g)
    {
      EmitNothing(g);
      for i := 0 to strPoolLen
        invariant Valid() && Tables() == C.Emit(g, g.pool[..i])
      {
        hide C.Emit;
        EmitKeepsPool(g, g.pool[..i]);
        assert strPool[i] == Tables().pool[i];
        EmitByte(strPool[i]);
        EmitJoins(g, g.pool[..i], [g.pool[i]]);
        assert g.pool[..i] + [g.pool[i]] == g.pool[..i + 1];
      }
      assert g.pool[..strPoolLen] == g.pool;
    }

    /** Emission of all functions, the padding and the string section. */
    method EmitProgram(p: Program) returns (section: nat)
      requires Valid() && PoolInside(C.GenProgram(codeBuf[..C.HEADER_SIZE], fixups[..], p))
      modifies this, codeBuf, labelPos, fixups, funcTable, strPool, strFixups
      ensures Valid() && Tables() == C.GenProgram(old(codeBuf[..C.HEADER_SIZE]), old(fixups[..]), p)
      ensures section == StringStart(old(codeBuf[..C.HEADER_SIZE]), old(fixups[..]), p)
    {
      hide C.GenFuncs, C.Begin, C.Emit, C.Padding;
      ghost var header, table := codeBuf[..C.HEADER_SIZE], fixups[..];
      LastKeepPool(header, table, p);
      ResetTables();
      EmitFunctions(p);
      AlignCode(Tables());
      section := codeLen;
      EmitStringSection(Tables());
    }

    /** Resolve all jumps, calls and string references. */
    method Link(section: nat)
      requires Valid() && C.SitesInside(Tables(), codeLen)
      modifies codeBuf
      ensures Valid() && codeBuf[..codeLen] == C.LinkedAt(old(Tables()), section)
    {
      hide C.PatchFixups, C.PatchStrings;
      ghost var fin := Tables();
      PatchFixups();
      ghost var patched := codeBuf[..codeLen];
      assert Tables() == fin.(code := patched);
      PatchIgnoresCode(fin, patched, section, |fin.strs|);
      PatchStrFixups(section);
    }

    /** The whole compilation, as long as no write leaves the string pool and no patch
        the buffer: afterwards the buffer holds the patched program, whatever an earlier
        compilation left in the fixup table and whatever did not fit the tables. If all
        of it fits, this is the linked program; and every function is in place at its
        entry if the leftovers are harmless. The result is the offset of the module's
        initialiser. */
    method CodegenX86Emit(p: Program) returns (initOffset: int)
      requires Valid() && forall i :: 0 <= i < |p| ==> ServesFunc(p[i])
      requires var fin := C.GenProgram(codeBuf[..C.HEADER_SIZE], fixups[..], p);
               PoolInside(fin) && C.SitesInside(fin, |fin.code|)
      modifies this, codeBuf, labelPos, fixups, funcTable, strPool, strFixups
      ensures Valid()
      ensures var header, table := old(codeBuf[..C.HEADER_SIZE]), old(fixups[..]);
              var fin := C.GenProgram(header, table, p);
              && C.SitesInside(fin, |fin.code|) && codeBuf[..codeLen] == C.LinkedAt(fin, StringStart(header, table, p))
              && initOffset == InitIn(fin.funcs)
              && (GoodProgram(p) && Compiler.WithinLimits(p) ==>
                    && C.Section(fin) >= 0 && codeBuf[..codeLen] == C.Linked(fin) && initOffset == InitOffset(p)
                    && (Compiler.HarmlessTable(table, p) ==> ProgramAt(codeBuf[..codeLen], Compiler.EntriesOf(p), p)))
    {
      hide GoodProgram, Compiler.WithinLimits, C.GenProgram, C.Linked, C.LinkedAt, Patching.Sound, ProgramAt, Compiler.EntriesOf, C.FindFunc, C.Section, Compiler.HarmlessTable,
           Leftovers.Cleared, StringStart, ServesFunc, InitOffset;
      ghost var header, table := codeBuf[..C.HEADER_SIZE], fixups[..];
      var section := EmitProgram(p);
      ghost var fin := Tables();
      Link(section);
      assert Tables().funcs == fin.funcs;
      initOffset := FindFuncOffset("main");
      if initOffset == -1 { initOffset := FindFuncOffset("module_init"); }
      if initOffset == -1 { initOffset := FindFuncOffset("init"); }
      if initOffset == -1 { initOffset := C.HEADER_SIZE; }
      if GoodProgram(p) && Compiler.WithinLimits(p) {
        WhenItFits(header, table, p);
      }
    }
  }

  // ----- facts about the functions above -----

  lemma EmitNothing(g: C.Gen)
    requires |g.code| <= C.CODE_BUF_SIZE
    ensures C.Emit(g, []) == g
  {
    assert g.code + [] == g.code;
  }

  /** Emitting in pieces drops the same bytes as emitting at once. */
  lemma EmitJoins(g: C.Gen, a: seq<byte>, b: seq<byte>)
    requires |g.code| <= C.CODE_BUF_SIZE
    ensures C.Emit(C.Emit(g, a), b) == C.Emit(g, a + b)
  {
    var n := C.CODE_BUF_SIZE;
    assert g.code + (a + b) == g.code + a + b;
    if |g.code + a| > n {
      var m := (g.code + a)[..n];
      assert (m + b)[..n] == m;
      assert (g.code + a + b)[..n] == m;
    }
  }

  lemma PlainEncoding(i: Instr)
    ensures Operand(i) == [] ==> Encode(i) == Opcode(i)
  {
  }

  lemma CompareEncodings()
    ensures Encode(CmpRaxRbx) == [0x48, 0x39, 0xD8] && Encode(TestRax) == [0x48, 0x85, 0xC0]
  {
  }

  lemma FieldRoundTrip(v: int)
    ensures ToU32(SignedInt(ToU32(v))) == ToU32(v)
  {
  }

  lemma SlotFields(off: int)
    ensures off < 0 ==> Encode(LoadInstr(off)) == [0x48, 0x8B, 0x85] + Bytes32(ToU32(16 + ParamIndex(off) * 8))
                        && Encode(StoreInstr(off)) == [0x48, 0x89, 0x85] + Bytes32(ToU32(16 + ParamIndex(off) * 8))
    ensures off >= 0 ==> Encode(LoadInstr(off)) == [0x8B, 0x85] + Bytes32(ToU32(-(off + 8)))
                         && Encode(StoreInstr(off)) == [0x89, 0x85] + Bytes32(ToU32(-(off + 8)))
  {
    hide Bytes32, ToU32, ParamIndex;
    FieldRoundTrip(if off < 0 then 16 + ParamIndex(off) * 8 else -(off + 8));
  }

  lemma DropEncoding(g: C.Gen, count: nat)
    requires 0 < count <= 32
    ensures C.Emit(g, [0x48, 0x81, 0xC4] + Bytes32(8 * count)) == C.EmitDrop(g, count)
  {
    FieldRoundTrip(8 * count);
  }

  lemma PlaceholderBytes()
    ensures Bytes32(0) == C.PLACEHOLDER
  {
  }

  // ----- the string pool only grows -----

  lemma {:induction false} ExprPool(g: C.Gen, e: Expr)
    ensures |g.pool| <= |C.GenExpr(g, e).pool|
    decreases e
  {
    hide C.FindFunc, Encode, Text;
    match e
    case Bin(op, l, r) =>
      ExprPool(g, l);
      ExprPool(C.GenExpr(g, l), r);
      AfterBoth(C.GenExpr(C.GenExpr(g, l), r), op);
    case CallE(name, args) =>
      ArgsPool(g, args, 32);
      AfterCall(C.GenArgs(g, args, 32), name, C.Passed(args));
    case _ =>
  }

  lemma {:induction false} ArgsPool(g: C.Gen, es: Exprs, n: nat)
    ensures |g.pool| <= |C.GenArgs(g, es, n).pool|
    decreases es
  {
    hide C.GenExpr;
    if n > 0 && es.ECons? {
      ArgsPool(g, es.next, n - 1);
      ExprPool(C.GenArgs(g, es.next, n - 1), es.head);
    }
  }

  lemma AfterBoth(g: C.Gen, op: Op)
    ensures C.EmitI(C.EmitOp(C.EmitI(C.EmitI(g, PopRbx), PopRax), op), PushRax).pool == g.pool
  {
    hide Encode;
  }

  lemma AfterCall(g: C.Gen, name: string, count: nat)
    ensures C.EmitI(C.EmitDrop(C.EmitCall(g, name), count), PushRax).pool == g.pool
  {
    hide Encode, C.FindFunc;
  }

  lemma LeaPool(g: C.Gen, raw: string)
    ensures C.EmitI(C.EmitLea(g, raw), PushRax).pool == C.EmitLea(g, raw).pool && |g.pool| < |C.EmitLea(g, raw).pool|
    ensures C.EmitLea(g, raw) == C.Emit(C.AddStrFixup(C.Emit(C.AddString(g, raw), [0x48, 0x8D, 0x05]), |g.pool|), C.PLACEHOLDER)
  {
    hide Text, Encode;
  }

  lemma CondParts(g: C.Gen, c: Expr, lbl: nat, onTrue: bool)
    ensures |g.pool| <= |C.GenCond(g, c, lbl, onTrue).pool|
    ensures !c.Bin? ==> C.GenCond(g, c, lbl, onTrue).pool == C.GenExpr(g, c).pool
    ensures c.Bin? ==> C.GenCond(g, c, lbl, onTrue).pool == C.GenExpr(C.GenExpr(g, c.left), c.right).pool
                       && |C.GenExpr(g, c.left).pool| <= |C.GenCond(g, c, lbl, onTrue).pool|
  {
    hide C.GenExpr, Encode, JumpCC, CCByte;
    if c.Bin? {
      ExprPool(g, c.left);
      ExprPool(C.GenExpr(g, c.left), c.right);
    } else {
      ExprPool(g, c);
    }
  }

  lemma {:induction false} StmtPool(g: C.Gen, s: Stmt)
    ensures |g.pool| <= |C.GenStmt(g, s).pool|
    decreases s, 0
  {
    hide C.GenExpr, C.GenCond, C.GenItems, Encode, C.EmitJmp;
    match s
    case ExprStmt(e) => ExprPool(g, e);
    case Decl(_, _) =>
    case Assign(_, _, rhs) => ExprPool(g, rhs);
    case Return(v) => if v.Some? { ExprPool(g, v.value); }
    case If(c, t, f) =>
      var g1, lbl := C.AllocLabel(C.AllocLabel(g)), if f.Some? then g.nextLabel else g.nextLabel + 1;
      CondParts(g1, c, lbl, false);
      StmtPool(C.GenCond(g1, c, lbl, false), t);
      if f.Some? {
        var g2 := C.GenStmt(C.GenCond(g1, c, lbl, false), t);
        JumpPool(g2, g.nextLabel + 1);
        StmtPool(C.MarkLabel(C.EmitJmp(g2, g.nextLabel + 1), g.nextLabel), f.value);
      }
    case While(c, body) =>
      var g1 := C.MarkLabel(C.AllocLabel(C.AllocLabel(g)), g.nextLabel);
      CondParts(g1, c, g.nextLabel + 1, false);
      StmtPool(C.GenCond(g1, c, g.nextLabel + 1, false), body);
      JumpPool(C.GenStmt(C.GenCond(g1, c, g.nextLabel + 1, false), body), g.nextLabel);
    case Block(items) => ItemsPool(g, items);
  }

  lemma JumpPool(g: C.Gen, lbl: nat)
    ensures C.EmitJmp(g, lbl).pool == g.pool
  {
  }

  lemma {:induction false} ItemPool(g: C.Gen, s: Stmt)
    ensures |g.pool| <= |C.GenItem(g, s).pool|
    decreases s, 1
  {
    hide C.GenExpr, C.GenStmt, Encode;
    match s
    case Decl(_, None) =>
    case ExprStmt(Var(_)) =>
    case Decl(_, Some(e)) => ExprPool(g, e);
    case _ => StmtPool(g, s);
  }

  lemma {:induction false} ItemsPool(g: C.Gen, ss: Stmts)
    ensures |g.pool| <= |C.GenItems(g, ss).pool|
    decreases ss, 0
  {
    hide C.GenItem;
    if ss.SCons? {
      ItemPool(g, ss.head);
      ItemsPool(C.GenItem(g, ss.head), ss.next);
    }
  }

  /** Behind their expressions, statements add nothing to the pool. */
  lemma StmtParts(g: C.Gen, s: Stmt)
    ensures s.Assign? ==> C.GenStmt(g, s).pool == C.GenExpr(g, s.rhs).pool
    ensures s.Return? && s.value.Some? ==> C.GenStmt(g, s).pool == C.GenExpr(g, s.value.value).pool
  {
    hide C.GenExpr, Encode;
  }

  lemma ItemParts(g: C.Gen, s: Stmt)
    ensures s.Decl? && s.init.Some? ==> C.GenItem(g, s).pool == C.GenExpr(g, s.init.value).pool
  {
    hide C.GenExpr, Encode;
  }

  lemma WhileParts(g: C.Gen, s: Stmt)
    requires s.While?
    ensures var lblExit := g.nextLabel + 1;
            var g1 := C.MarkLabel(C.AllocLabel(C.AllocLabel(g)), g.nextLabel);
            var g2 := C.GenCond(g1, s.cond, lblExit, false);
            && C.GenStmt(g, s) == C.MarkLabel(C.EmitJmp(C.GenStmt(g2, s.body), g.nextLabel), lblExit)
            && (PoolInside(C.GenStmt(g, s)) ==> PoolInside(g2) && PoolInside(C.GenStmt(g2, s.body)))
  {
    hide C.GenCond, C.EmitJmp, C.AllocLabel;
    var g2 := C.GenCond(C.MarkLabel(C.AllocLabel(C.AllocLabel(g)), g.nextLabel), s.cond, g.nextLabel + 1, false);
    StmtPool(g2, s.body);
    JumpPool(C.GenStmt(g2, s.body), g.nextLabel);
  }

  lemma FuncParts(g: C.Gen, f: Func)
    ensures |g.pool| <= |C.GenFunc(g, f).pool|
    ensures f.body.Some? ==>
              C.GenFunc(g, f).pool == C.GenStmt(C.EmitPrologue(C.RegisterFunc(g, f.name), f.localBytes), f.body.value).pool
  {
    hide C.GenStmt, Encode;
    if f.body.Some? { StmtPool(C.EmitPrologue(C.RegisterFunc(g, f.name), f.localBytes), f.body.value); }
  }

  lemma {:induction false} FuncsPool(g: C.Gen, p: Program, i: nat, n: nat)
    requires i <= n <= |p|
    ensures |C.GenFuncs(g, p, i).pool| <= |C.GenFuncs(g, p, n).pool|
    decreases n
  {
    hide C.GenFunc;
    if i < n {
      FuncsPool(g, p, i, n - 1);
      FuncParts(C.GenFuncs(g, p, n - 1), p[n - 1]);
    }
  }

  lemma FuncsStart(g: C.Gen, p: Program)
    ensures C.GenFuncs(g, p, 0) == g
  {
  }

  lemma FuncsNext(g: C.Gen, p: Program, i: nat)
    requires i < |p|
    ensures C.GenFuncs(g, p, i + 1) == C.GenFunc(C.GenFuncs(g, p, i), p[i])
  {
    hide C.GenFunc;
  }

  lemma LastKeepPool(header: seq<byte>, table: seq<C.Fixup>, p: Program)
    ensures C.GenProgram(header, table, p).pool == C.GenFuncs(C.Begin(header, table), p, |p|).pool
  {
    hide C.GenFuncs, C.Begin;
  }

  // ----- statements step by step -----

  lemma IfIs(g: C.Gen, s: Stmt)
    requires s.If?
    ensures var lblElse, lblExit := g.nextLabel, g.nextLabel + 1;
            var g1 := C.GenCond(C.AllocLabel(C.AllocLabel(g)), s.cond, if s.els.Some? then lblElse else lblExit, false);
            var g2 := C.GenStmt(g1, s.thn);
            var g3 := if s.els.Some? then C.GenStmt(C.MarkLabel(C.EmitJmp(g2, lblExit), lblElse), s.els.value) else g2;
            && C.GenStmt(g, s) == C.MarkLabel(g3, lblExit)
            && (PoolInside(C.GenStmt(g, s)) ==> PoolInside(g1) && PoolInside(g2) && PoolInside(g3))
  {
    hide C.GenCond, C.EmitJmp, C.AllocLabel;
    var lblElse, lblExit := g.nextLabel, g.nextLabel + 1;
    var g1 := C.GenCond(C.AllocLabel(C.AllocLabel(g)), s.cond, if s.els.Some? then lblElse else lblExit, false);
    StmtPool(g1, s.thn);
    var g2 := C.GenStmt(g1, s.thn);
    JumpPool(g2, lblExit);
    if s.els.Some? { StmtPool(C.MarkLabel(C.EmitJmp(g2, lblExit), lblElse), s.els.value); }
  }

  lemma AllocNext(g: C.Gen)
    ensures C.AllocLabel(g).nextLabel == g.nextLabel + 1
  {
  }

  /** The inverse comparison; other operators are left alone. */
  function Inverse(op: Op): Op {
    match op
    case Lt => Geq
    case Gt => Leq
    case Leq => Gt
    case Geq => Lt
    case Eq => Neq
    case Neq => Eq
    case _ => op
  }

  function JumpByte(op: Op): byte {
    match op
    case Lt => 0x8C
    case Gt => 0x8F
    case Leq => 0x8E
    case Geq => 0x8D
    case Eq => 0x84
    case Neq => 0x85
    case _ => 0x85
  }

  lemma JumpBytes(op: Op, onTrue: bool)
    ensures JumpByte(if onTrue then op else Inverse(op)) == CCByte(JumpCC(op, onTrue))
  {
  }

  // ----- string literals -----

  function CharBytes(t: string): (r: seq<byte>)
    ensures |r| == |t|
  {
    seq(|t|, i requires 0 <= i < |t| => CharByte(t[i]))
  }

  lemma StrippedIs(raw: string, i: nat, end: nat)
    requires i == (if |raw| > 0 && raw[0] == '"' then 1 else 0)
    requires end == (if |raw| > i && raw[|raw| - 1] == '"' then |raw| - 1 else |raw|)
    ensures i <= end <= |raw| && raw[i..end] == Stripped(raw)
  {
  }

  lemma TextIs(raw: string)
    ensures Text(raw) == CharBytes(Unescape(Stripped(raw))) + [0]
  {
  }

  lemma CharBytesCons(c: char, t: string)
    ensures CharBytes([c] + t) == [CharByte(c)] + CharBytes(t)
  {
    hide CharByte;
  }

  lemma UnescapeStep(s: string)
    requires s != ""
    ensures s[0] == '\\' && |s| > 1 ==> CharBytes(Unescape(s)) == [CharByte(EscapedChar(s[1]))] + CharBytes(Unescape(s[2..]))
    ensures !(s[0] == '\\' && |s| > 1) ==> CharBytes(Unescape(s)) == [CharByte(s[0])] + CharBytes(Unescape(s[1..]))
  {
    hide CharByte, CharBytes, EscapedChar;
    if s[0] == '\\' && |s| > 1 {
      CharBytesCons(EscapedChar(s[1]), Unescape(s[2..]));
    } else {
      CharBytesCons(s[0], Unescape(s[1..]));
    }
  }

  lemma NothingLeft(raw: string, i: nat, end: nat)
    requires i <= end <= |raw|
    ensures i == end ==> CharBytes(Unescape(raw[i..end])) == []
  {
    if i == end { assert raw[i..end] == ""; }
  }

  /** One character of the literal, or an escape, behind those already copied. */
  lemma NextChar(raw: string, i: nat, end: nat, done: seq<byte>)
    requires i < end <= |raw|
    ensures var esc := raw[i] == '\\' && i + 1 < end;
            var c, next := if esc then EscapedChar(raw[i + 1]) else raw[i], if esc then i + 2 else i + 1;
            done + CharBytes(Unescape(raw[i..end])) == done + [CharByte(c)] + CharBytes(Unescape(raw[next..end]))
  {
    hide Unescape, EscapedChar, CharByte, CharBytes;
    var left := raw[i..end];
    UnescapeStep(left);
    assert left[1..] == raw[i + 1..end] && (|left| > 1 ==> left[2..] == raw[i + 2..end]);
  }

  /** The copying stops at the end of the text or at the cut. */
  lemma CutIs(body: seq<byte>, done: seq<byte>, rest: seq<byte>, start: nat)
    requires body == done + rest && start + |done| < C.MAX_STR_POOL && (done != [] ==> start + |done| <= C.MAX_STR_POOL - 2)
    requires rest == [] || start + |done| >= C.MAX_STR_POOL - 2
    ensures |done| == C.PoolRoom(start, |body|) && body[..|done|] == done
  {
  }

  lemma StringAdded(g: C.Gen, raw: string, body: seq<byte>)
    requires Text(raw) == body + [0]
    ensures C.AddString(g, raw) == g.(pool := g.pool + body[..C.PoolRoom(|g.pool|, |body|)] + [0])
  {
    hide Text, C.PoolRoom;
    var n := C.PoolRoom(|g.pool|, |body|);
    assert (body + [0])[..n] == body[..n];
  }

  // ----- facts for the driver -----

  /** Marks in the table change neither code nor pool nor symbols. */
  lemma FuncsShape(header: seq<byte>, table: seq<C.Fixup>, p: Program, i: nat)
    requires |header| == C.HEADER_SIZE && |table| == C.MAX_FIXUPS && GoodProgram(p) && Compiler.WithinLimits(p) && i <= |p|
    ensures Compiler.CleanStart(header, Leftovers.Cleared(table))
    ensures var g, c := C.GenFuncs(C.Begin(header, table), p, i), C.GenFuncs(C.Begin(header, Leftovers.Cleared(table)), p, i);
            g.code == c.code && g.pool == c.pool && g.funcs == c.funcs
  {
    hide C.GenFuncs, C.Begin, Compiler.CleanStart, Leftovers.Alike, Leftovers.Cleared, GoodProgram, Compiler.WithinLimits, Compiler.ProgramJumps;
    Compiler.FuncsAlike(header, table, p, i);
    Leftovers.AlikeRoom(C.GenFuncs(C.Begin(header, table), p, i), C.GenFuncs(C.Begin(header, Leftovers.Cleared(table)), p, i),
                        table, Compiler.ProgramJumps(p, i));
  }

  lemma ImageFits(header: seq<byte>, table: seq<C.Fixup>, p: Program)
    requires |header| == C.HEADER_SIZE && |table| == C.MAX_FIXUPS && GoodProgram(p) && Compiler.WithinLimits(p)
    ensures var g := C.GenFuncs(C.Begin(header, table), p, |p|);
            |g.code| + C.Padding(|g.code|) + |g.pool| <= C.CODE_BUF_SIZE
            && |C.Align(g).code| == |g.code| + C.Padding(|g.code|) && C.Align(g).pool == g.pool
  {
    hide C.GenFuncs, C.Begin, Compiler.CleanStart, Patching.Sound, GoodProgram, Compiler.ProgramCost, C.Padding, FuncsSize, Compiler.Symbols;
    FuncsShape(header, table, p, |p|);
    Compiler.FuncsCounted(header, Leftovers.Cleared(table), p, |p|);
  }

  lemma PaddingLast(n: nat, k: nat)
    requires k <= C.Padding(n)
    ensures (n + k) % 8 == 0 <==> k == C.Padding(n)
  {
  }

  lemma EmitKeepsPool(g: C.Gen, bs: seq<byte>)
    ensures C.Emit(g, bs).pool == g.pool
  {
  }

  lemma SectionAfterAlign(a: C.Gen)
    requires |a.code| + |a.pool| <= C.CODE_BUF_SIZE
    ensures C.Section(C.EmitPool(a)) == |a.code|
  {
  }

  lemma PatchIgnoresCode(g: C.Gen, code: seq<byte>, section: nat, n: nat)
    requires C.SitesInside(g, |code|) && n <= |g.strs|
    ensures C.PatchStrings(g.(code := code), code, section, n) == C.PatchStrings(g, code, section, n)
    decreases n
  {
    hide C.Write32;
    if n > 0 { PatchIgnoresCode(g, code, section, n - 1); }
  }

  /** Where the string section starts. */
  ghost function StringStart(header: seq<byte>, table: seq<C.Fixup>, p: Program): nat {
    |C.Align(C.GenFuncs(C.Begin(header, table), p, |p|)).code|
  }

  /** The initialiser among the registered functions. */
  function InitIn(funcs: seq<C.FuncSym>): int {
    if C.FindFunc(funcs, "main") != -1 then C.FindFunc(funcs, "main")
    else if C.FindFunc(funcs, "module_init") != -1 then C.FindFunc(funcs, "module_init")
    else if C.FindFunc(funcs, "init") != -1 then C.FindFunc(funcs, "init")
    else C.HEADER_SIZE
  }

  /** Entry of the initialiser: main, else module_init, else init, else the
      first byte after the header. */
  function InitOffset(p: Program): nat {
    if Find(p, "main") < |p| then Compiler.EntryOf(p, "main")
    else if Find(p, "module_init") < |p| then Compiler.EntryOf(p, "module_init")
    else if Find(p, "init") < |p| then Compiler.EntryOf(p, "init")
    else C.HEADER_SIZE
  }

  lemma InitSymbols(header: seq<byte>, table: seq<C.Fixup>, p: Program)
    requires |header| == C.HEADER_SIZE && |table| == C.MAX_FIXUPS && GoodProgram(p) && Compiler.WithinLimits(p)
    ensures var funcs := C.GenProgram(header, table, p).funcs;
            forall name :: |name| <= 63 ==>
              C.FindFunc(funcs, name) == if Find(p, name) < |p| then Compiler.EntryOf(p, name) else -1
  {
    hide C.GenFuncs, C.Begin, Compiler.CleanStart, Patching.Sound, GoodProgram, Compiler.ProgramCost, C.Padding, FuncsSize,
         Compiler.Symbols, C.FindFunc, Find, C.Align;
    FuncsShape(header, table, p, |p|);
    Compiler.FuncsCounted(header, Leftovers.Cleared(table), p, |p|);
    var g := C.GenFuncs(C.Begin(header, table), p, |p|);
    AlignKeepsFuncs(g);
    forall name: string | |name| <= 63
      ensures C.FindFunc(g.funcs, name) == if Find(p, name) < |p| then Compiler.EntryOf(p, name) else -1
    {
      Compiler.FindSymbol(p, |p|, name);
    }
  }

  lemma AlignKeepsFuncs(g: C.Gen)
    ensures C.Align(g).funcs == g.funcs && C.Align(g).pool == g.pool
  {
  }

  /** A program within the limits leaves neither pool nor buffer, and linking it is
      what the compiler theorems speak of. */
  lemma WhenItFits(header: seq<byte>, table: seq<C.Fixup>, p: Program)
    requires |header| == C.HEADER_SIZE && |table| == C.MAX_FIXUPS && GoodProgram(p) && Compiler.WithinLimits(p)
    ensures var fin := C.GenProgram(header, table, p);
            && PoolInside(fin) && C.SitesInside(fin, |fin.code|) && C.Section(fin) >= 0
            && (forall i :: 0 <= i < |p| ==> ServesFunc(p[i]))
            && C.LinkedAt(fin, StringStart(header, table, p)) == C.Linked(fin) && InitIn(fin.funcs) == InitOffset(p)
            && (Compiler.HarmlessTable(table, p) ==> ProgramAt(C.Linked(fin), Compiler.EntriesOf(p), p))
  {
    hide C.GenFuncs, C.Begin, Compiler.CleanStart, Patching.Sound, GoodProgram, Compiler.WithinLimits, C.Padding, C.FindFunc, Find, C.Emit, ProgramAt,
         Compiler.EntriesOf, Compiler.HarmlessTable, Leftovers.Cleared, C.LinkedAt, Compiler.EntryOf;
    Compiler.LeftoverImage(header, table, p);
    Compiler.ProgramPlaced(header, Leftovers.Cleared(table), p);
    InitSymbols(header, table, p);
    ImageFits(header, table, p);
    PoolFits(header, table, p);
    LastKeepPool(header, table, p);
    ProgramServes(p);
    SectionAfterAlign(C.Align(C.GenFuncs(C.Begin(header, table), p, |p|)));
  }

  lemma ProgramServes(p: Program)
    requires GoodProgram(p)
    ensures forall i :: 0 <= i < |p| ==> ServesFunc(p[i])
  {
    hide GoodStmt, ServesStmt;
    forall i | 0 <= i < |p| ensures ServesFunc(p[i]) {
      GoodServes(p[i].body.value, p[i].localBytes);
    }
  }

  /** Functions the compiler theorem speaks of call no kernel routine. */
  lemma {:induction false} GoodServes(s: Stmt, n: nat)
    requires GoodStmt(s, n)
    ensures ServesStmt(s)
    decreases s, 0
  {
    match s
    case ExprStmt(e) => ExprServes(e, n);
    case Decl(_, init) => if init.Some? { ExprServes(init.value, n); }
    case Assign(_, _, rhs) => ExprServes(rhs, n);
    case If(c, t, f) =>
      ExprServes(c, n);
      GoodServes(t, n);
      if f.Some? { GoodServes(f.value, n); }
    case While(c, body) =>
      ExprServes(c, n);
      GoodServes(body, n);
    case Block(items) => AllServe(items, n);
    case Return(v) => if v.Some? { ExprServes(v.value, n); }
  }

  lemma {:induction false} AllServe(ss: Stmts, n: nat)
    requires GoodStmts(ss, n)
    ensures ServesAll(ss)
    decreases ss, 0
  {
    if ss.SCons? {
      GoodServes(ss.head, n);
      AllServe(ss.next, n);
    }
  }

  lemma {:induction false} ExprServes(e: Expr, n: nat)
    requires GoodExpr(e, n)
    ensures Serves(e)
    decreases e
  {
    match e
    case Bin(_, l, r) =>
      ExprServes(l, n);
      ExprServes(r, n);
    case CallE(_, args) => ArgsServe(args, n);
    case _ =>
  }

  lemma {:induction false} ArgsServe(es: Exprs, n: nat)
    requires GoodExprs(es, n)
    ensures ServesArgs(es)
    decreases es
  {
    if es.ECons? {
      ExprServes(es.head, n);
      ArgsServe(es.next, n);
    }
  }

  lemma PoolFits(header: seq<byte>, table: seq<C.Fixup>, p: Program)
    requires |header| == C.HEADER_SIZE && |table| == C.MAX_FIXUPS && GoodProgram(p) && Compiler.WithinLimits(p)
    ensures |C.GenFuncs(C.Begin(header, table), p, |p|).pool| < C.MAX_STR_POOL
  {
    hide C.GenFuncs, C.Begin, Compiler.CleanStart, Patching.Sound, GoodProgram, Compiler.ProgramCost, C.Padding, FuncsSize, Compiler.Symbols;
    FuncsShape(header, table, p, |p|);
    Compiler.FuncsCounted(header, Leftovers.Cleared(table), p, |p|);
  }
}
