/**
 The part of an x86-64 machine that the code generator uses: the instruction
 encodings (Intel 64 SDM Vol. 2, section 2.2.1 for the REX.W prefix 0x48), a
 decoder, and one step of execution over byte memory.
 */
module Machine {
  import opened Words
  import opened Memory
  import opened Options

  /** Condition codes of the jumps the generator emits. */
  datatype CC = L | G | LE | GE | E | NE

  datatype Instr =
    | PushRax | PopRax | PopRbx | PushRbp | MovRbpRsp | Leave | Ret | Nop
    | MovRaxImm(imm: word)
    | AddRaxRbx | SubRaxRbx | ImulRaxRbx | Cqo | IdivRbx
    | LoadQ(disp: i32)      // mov disp(%rbp), %rax
    | LoadD(disp: i32)      // mov disp(%rbp), %eax
    | StoreQ(disp: i32)     // mov %rax, disp(%rbp)
    | StoreD(disp: i32)     // mov %eax, disp(%rbp)
    | AddRsp(amount: i32) | SubRsp(amount: i32)
    | CmpRaxRbx | TestRax | XorEax
    | Jcc(cc: CC, rel: i32) | Jmp(rel: i32) | Call(rel: i32)
    | LeaRax(rel: i32)      // lea rel(%rip), %rax

  function CCByte(cc: CC): byte {
    match cc
    case L => 0x8C
    case G => 0x8F
    case LE => 0x8E
    case GE => 0x8D
    case E => 0x84
    case NE => 0x85
  }

  /** The bytes before the immediate or displacement field. */
  function Opcode(i: Instr): seq<byte> {
    match i
    case PushRax => [0x50]
    case PopRax => [0x58]
    case PopRbx => [0x5B]
    case PushRbp => [0x55]
    case MovRbpRsp => [0x48, 0x89, 0xE5]
    case Leave => [0xC9]
    case Ret => [0xC3]
    case Nop => [0x90]
    case MovRaxImm(_) => [0x48, 0xB8]
    case AddRaxRbx => [0x48, 0x01, 0xD8]
    case SubRaxRbx => [0x48, 0x29, 0xD8]
    case ImulRaxRbx => [0x48, 0x0F, 0xAF, 0xC3]
    case Cqo => [0x48, 0x99]
    case IdivRbx => [0x48, 0xF7, 0xFB]
    case LoadQ(_) => [0x48, 0x8B, 0x85]
    case LoadD(_) => [0x8B, 0x85]
    case StoreQ(_) => [0x48, 0x89, 0x85]
    case StoreD(_) => [0x89, 0x85]
    case AddRsp(_) => [0x48, 0x81, 0xC4]
    case SubRsp(_) => [0x48, 0x81, 0xEC]
    case CmpRaxRbx => [0x48, 0x39, 0xD8]
    case TestRax => [0x48, 0x85, 0xC0]
    case XorEax => [0x31, 0xC0]
    case Jcc(cc, _) => [0x0F, CCByte(cc)]
    case Jmp(_) => [0xE9]
    case Call(_) => [0xE8]
    case LeaRax(_) => [0x48, 0x8D, 0x05]
  }

  /** The immediate or displacement field, little-endian. */
  function Operand(i: Instr): seq<byte> {
    match i
    case MovRaxImm(v) => Bytes64(v)
    case LoadQ(d) => Bytes32(ToU32(d))
    case LoadD(d) => Bytes32(ToU32(d))
    case StoreQ(d) => Bytes32(ToU32(d))
    case StoreD(d) => Bytes32(ToU32(d))
    case AddRsp(d) => Bytes32(ToU32(d))
    case SubRsp(d) => Bytes32(ToU32(d))
    case Jcc(_, d) => Bytes32(ToU32(d))
    case Jmp(d) => Bytes32(ToU32(d))
    case Call(d) => Bytes32(ToU32(d))
    case LeaRax(d) => Bytes32(ToU32(d))
    case _ => []
  }

  function Encode(i: Instr): seq<byte> {
    Opcode(i) + Operand(i)
  }

  /** The byte at `p`, or -1 outside the code. */
  function ByteAt(code: seq<byte>, p: int): int {
    if 0 <= p < |code| then code[p] else -1
  }

  datatype Decoded = Bad | Got(instr: Instr, size: nat)

  /** `i` with its 32-bit field set to `d`. */
  function SetField(i: Instr, d: i32): Instr {
    match i
    case LoadQ(_) => LoadQ(d)
    case LoadD(_) => LoadD(d)
    case StoreQ(_) => StoreQ(d)
    case StoreD(_) => StoreD(d)
    case AddRsp(_) => AddRsp(d)
    case SubRsp(_) => SubRsp(d)
    case Jcc(cc, _) => Jcc(cc, d)
    case Jmp(_) => Jmp(d)
    case Call(_) => Call(d)
    case LeaRax(_) => LeaRax(d)
    case _ => i
  }

  /** A decoded instruction whose last four bytes are a signed field. */
  function WithField(code: seq<byte>, p: int, i: Instr, opcodeSize: nat): Decoded {
    if 0 <= p && p + opcodeSize + 4 <= |code|
    then Got(SetField(i, SignedInt(Read32(code[p + opcodeSize..p + opcodeSize + 4]))), opcodeSize + 4)
    else Bad
  }

  function DecodeRexW(code: seq<byte>, p: int): Decoded {
    var b, c := ByteAt(code, p + 1), ByteAt(code, p + 2);
    if b == 0xB8 then
      if 0 <= p && p + 10 <= |code| then Got(MovRaxImm(Read64(code[p + 2..p + 10])), 10) else Bad
    else if b == 0x99 then Got(Cqo, 2)
    else if b == 0x89 && c == 0xE5 then Got(MovRbpRsp, 3)
    else if b == 0x01 && c == 0xD8 then Got(AddRaxRbx, 3)
    else if b == 0x29 && c == 0xD8 then Got(SubRaxRbx, 3)
    else if b == 0x39 && c == 0xD8 then Got(CmpRaxRbx, 3)
    else if b == 0x85 && c == 0xC0 then Got(TestRax, 3)
    else if b == 0xF7 && c == 0xFB then Got(IdivRbx, 3)
    else if b == 0x0F && c == 0xAF && ByteAt(code, p + 3) == 0xC3 then Got(ImulRaxRbx, 4)
    else if b == 0x8B && c == 0x85 then WithField(code, p, LoadQ(0), 3)
    else if b == 0x89 && c == 0x85 then WithField(code, p, StoreQ(0), 3)
    else if b == 0x81 && c == 0xC4 then WithField(code, p, AddRsp(0), 3)
    else if b == 0x81 && c == 0xEC then WithField(code, p, SubRsp(0), 3)
    else if b == 0x8D && c == 0x05 then WithField(code, p, LeaRax(0), 3)
    else Bad
  }

  function DecodeJcc(code: seq<byte>, p: int): Decoded {
    var b := ByteAt(code, p + 1);
    if b == 0x8C then WithField(code, p, Jcc(L, 0), 2)
    else if b == 0x8F then WithField(code, p, Jcc(G, 0), 2)
    else if b == 0x8E then WithField(code, p, Jcc(LE, 0), 2)
    else if b == 0x8D then WithField(code, p, Jcc(GE, 0), 2)
    else if b == 0x84 then WithField(code, p, Jcc(E, 0), 2)
    else if b == 0x85 then WithField(code, p, Jcc(NE, 0), 2)
    else Bad
  }

  /** The instruction that starts at offset `p` of the code. */
  function Decode(code: seq<byte>, p: int): Decoded {
    var b, c := ByteAt(code, p), ByteAt(code, p + 1);
    if b == 0x48 then DecodeRexW(code, p)
    else if b == 0x0F then DecodeJcc(code, p)
    else if b == 0x50 then Got(PushRax, 1)
    else if b == 0x58 then Got(PopRax, 1)
    else if b == 0x5B then Got(PopRbx, 1)
    else if b == 0x55 then Got(PushRbp, 1)
    else if b == 0xC9 then Got(Leave, 1)
    else if b == 0xC3 then Got(Ret, 1)
    else if b == 0x90 then Got(Nop, 1)
    else if b == 0x31 && c == 0xC0 then Got(XorEax, 2)
    else if b == 0x8B && c == 0x85 then WithField(code, p, LoadD(0), 2)
    else if b == 0x89 && c == 0x85 then WithField(code, p, StoreD(0), 2)
    else if b == 0xE9 then WithField(code, p, Jmp(0), 1)
    else if b == 0xE8 then WithField(code, p, Call(0), 1)
    else Bad
  }

  /** The bytes of `i` are at offset `p` of the code. */
  ghost predicate At(code: seq<byte>, p: int, i: Instr) {
    0 <= p && p + |Encode(i)| <= |code| && code[p..p + |Encode(i)|] == Encode(i)
  }

  lemma SignedIntToU32(d: i32)
    ensures SignedInt(ToU32(d)) == d
  {
  }

  /** The field after an opcode at `p` reads back as the number encoded there. */
  lemma FieldReads(code: seq<byte>, p: int, k: nat, d: i32)
    requires 0 <= p && p + k + 4 <= |code|
    requires code[p + k..p + k + 4] == Bytes32(ToU32(d))
    ensures SignedInt(Read32(code[p + k..p + k + 4])) == d
  {
    Read32Bytes32(ToU32(d));
    SignedIntToU32(d);
  }

  /** Opcode bytes and operand field of an encoded instruction, separately. */
  lemma AtSplits(code: seq<byte>, p: int, i: Instr)
    requires At(code, p, i)
    ensures forall k :: 0 <= k < |Opcode(i)| ==> ByteAt(code, p + k) == Opcode(i)[k]
    ensures code[p + |Opcode(i)|..p + |Encode(i)|] == Operand(i)
  {
    hide Opcode, Operand;
    var s, n := Encode(i), |Opcode(i)|;
    forall k | 0 <= k < n ensures ByteAt(code, p + k) == Opcode(i)[k] {
      assert code[p..p + |s|][k] == s[k];
    }
    assert code[p..p + |s|][n..] == s[n..];
    assert s[n..] == Operand(i);
    assert code[p + n..p + |s|] == code[p..p + |s|][n..];
  }

  /** Every encoded instruction decodes to itself, whatever surrounds it. */
  lemma DecodeEncode(code: seq<byte>, p: int, i: Instr)
    requires At(code, p, i)
    ensures Decode(code, p) == Got(i, |Encode(i)|)
  {
    hide Bytes32, Bytes64, Read32, Read64, SignedInt;
    AtSplits(code, p, i);
    var op := Opcode(i);
    assert ByteAt(code, p + 0) == op[0];
    if |op| > 1 { assert ByteAt(code, p + 1) == op[1]; }
    if |op| > 2 { assert ByteAt(code, p + 2) == op[2]; }
    if |op| > 3 { assert ByteAt(code, p + 3) == op[3]; }
    if i.MovRaxImm? {
      assert p + 2 + 8 == p + |Encode(i)|;
      Read64Bytes64(i.imm);
    } else if |Operand(i)| == 4 {
      var d := if i.AddRsp? || i.SubRsp? then i.amount
               else if i.LoadQ? || i.LoadD? || i.StoreQ? || i.StoreD? then i.disp else i.rel;
      FieldReads(code, p, |op|, d);
    }
  }

  predicate HasField(i: Instr) {
    |Operand(i)| == 4
  }

  lemma FieldWrites(s: seq<byte>)
    requires |s| == 4
    ensures Bytes32(ToU32(SignedInt(Read32(s)))) == s
  {
    hide Bytes32, Read32;
    Bytes32Read32(s);
  }

  lemma WithFieldAt(code: seq<byte>, p: int, i: Instr)
    requires HasField(i) && WithField(code, p, i, |Opcode(i)|).Got?
    requires code[p..p + |Opcode(i)|] == Opcode(i)
    ensures var r := WithField(code, p, i, |Opcode(i)|);
            At(code, p, r.instr) && r.size == |Encode(r.instr)|
  {
    hide Bytes32, Read32, SignedInt, ToU32;
    var k := |Opcode(i)|;
    FieldWrites(code[p + k..p + k + 4]);
    var j := WithField(code, p, i, k).instr;
    assert Opcode(j) == Opcode(i) && Operand(j) == code[p + k..p + k + 4];
    assert code[p..p + k + 4] == code[p..p + k] + code[p + k..p + k + 4];
  }

  /** The same instruction with a zero field. */
  function Template(i: Instr): Instr {
    SetField(i, 0)
  }

  lemma PlainAt(code: seq<byte>, p: int, i: Instr)
    requires Operand(i) == [] && 0 <= p && p + |Opcode(i)| <= |code|
    requires code[p..p + |Opcode(i)|] == Opcode(i)
    ensures At(code, p, i) && |Encode(i)| == |Opcode(i)|
  {
    assert Opcode(i) + [] == Opcode(i);
  }

  /** What a successful decoding says about the opcode bytes and the field. */
  ghost predicate Justified(code: seq<byte>, p: int, d: Decoded) {
    d.Got? ==>
      var op := Opcode(d.instr);
      && 0 <= p && p + |op| <= |code|
      && (forall k :: 0 <= k < |op| ==> code[p + k] == op[k])
      && (HasField(d.instr) ==> d == WithField(code, p, Template(d.instr), |op|))
      && (d.instr.MovRaxImm? ==> p + 10 <= |code| && d == Got(MovRaxImm(Read64(code[p + 2..p + 10])), 10))
      && (!HasField(d.instr) && !d.instr.MovRaxImm? ==> d.size == |op|)
  }

  lemma RexJustified(code: seq<byte>, p: int)
    requires ByteAt(code, p) == 0x48
    ensures Justified(code, p, DecodeRexW(code, p))
  {
    hide Read32, Read64, SignedInt, Bytes32, Bytes64;
  }

  lemma JccJustified(code: seq<byte>, p: int)
    requires ByteAt(code, p) == 0x0F
    ensures Justified(code, p, DecodeJcc(code, p))
  {
    hide Read32, SignedInt, Bytes32, Bytes64;
  }

  lemma DecodeJustified(code: seq<byte>, p: int)
    ensures Justified(code, p, Decode(code, p))
  {
    hide Read32, Read64, SignedInt, Bytes32, Bytes64, DecodeRexW, DecodeJcc;
    if ByteAt(code, p) == 0x48 {
      hide Justified;
      RexJustified(code, p);
    } else if ByteAt(code, p) == 0x0F {
      hide Justified;
      JccJustified(code, p);
    }
  }

  /** Whatever decodes was encoded there: the decoder accepts nothing else. */
  lemma EncodeDecode(code: seq<byte>, p: int)
    requires Decode(code, p).Got?
    ensures At(code, p, Decode(code, p).instr)
    ensures Decode(code, p).size == |Encode(Decode(code, p).instr)|
  {
    hide Decode, Opcode, Bytes32, Bytes64, Read32, Read64, SignedInt, WithField;
    DecodeJustified(code, p);
    var i := Decode(code, p).instr;
    var op := Opcode(i);
    assert code[p..p + |op|] == op;
    if i.MovRaxImm? {
      MovImmAt(code, p, i);
    } else if HasField(i) {
      WithFieldAtTemplate(code, p, i);
    } else {
      PlainAt(code, p, i);
    }
  }

  lemma MovImmAt(code: seq<byte>, p: int, i: Instr)
    requires i.MovRaxImm? && 0 <= p && p + 10 <= |code| && i.imm == Read64(code[p + 2..p + 10])
    requires p + |Opcode(i)| <= |code| && code[p..p + |Opcode(i)|] == Opcode(i)
    ensures At(code, p, i) && |Encode(i)| == 10
  {
    hide Read64, Bytes64;
    Bytes64Read64(code[p + 2..p + 10]);
    assert code[p..p + 10] == code[p..p + 2] + code[p + 2..p + 10];
  }

  lemma WithFieldAtTemplate(code: seq<byte>, p: int, i: Instr)
    requires HasField(i) && WithField(code, p, Template(i), |Opcode(i)|).Got?
    requires 0 <= p && p + |Opcode(i)| <= |code| && code[p..p + |Opcode(i)|] == Opcode(i)
    ensures var r := WithField(code, p, Template(i), |Opcode(i)|);
            At(code, p, r.instr) && r.size == |Encode(r.instr)|
  {
    hide WithField, Bytes32, At, Encode;
    assert Opcode(Template(i)) == Opcode(i);
    WithFieldAt(code, p, Template(i));
  }

  datatype Flags = Flags(zf: bool, sf: bool, of: bool)

  /** Machine state. `rip` counts from the load address of the code. */
  datatype State = State(rax: word, rbx: word, rdx: word, rsp: word, rbp: word, rip: int,
                         flags: Option<Flags>, mem: Mem)

  /** The code, the address it is loaded at. */
  datatype Image = Image(code: seq<byte>, base: word)

  function CompareFlags(a: word, b: word): Flags {
    Flags(a == b, Signed(ToWord(a - b)) < 0, !IsLong(Signed(a) - Signed(b)))
  }

  function Holds(cc: CC, f: Flags): bool {
    match cc
    case L => f.sf != f.of
    case G => !f.zf && f.sf == f.of
    case LE => f.zf || f.sf != f.of
    case GE => f.sf == f.of
    case E => f.zf
    case NE => !f.zf
  }

  /** The signed comparison a condition code stands for. */
  function Compare(cc: CC, x: int, y: int): bool {
    match cc
    case L => x < y
    case G => x > y
    case LE => x <= y
    case GE => x >= y
    case E => x == y
    case NE => x != y
  }

  /** The flag combinations test exactly the signed comparisons. */
  lemma FlagsDecideCompare(cc: CC, a: word, b: word)
    ensures Holds(cc, CompareFlags(a, b)) == Compare(cc, Signed(a), Signed(b))
  {
  }

  function Push(m: State, w: word): State {
    var top := ToWord(m.rsp - 8);
    m.(rsp := top, mem := Store64(m.mem, top, w))
  }

  function Top(m: State): word {
    Load64(m.mem, m.rsp)
  }

  function Drop(m: State): State {
    m.(rsp := ToWord(m.rsp + 8))
  }

  /** Signed division of rdx:rax; None stands for the divide error exception. */
  function Divide(m: State): Option<State> {
    var dividend, divisor := Signed(m.rdx) * TWO64 + m.rax, Signed(m.rbx);
    if divisor == 0 then None
    else
      var q := TruncDiv(dividend, divisor);
      if IsLong(q)
      then Some(m.(rax := ToWord(q), rdx := ToWord(dividend - q * divisor), flags := None))
      else None
  }

  /** Effect of an instruction once `rip` points after it. Flags that the
      manual leaves undefined, or that are never read, become None. */
  function Effect(i: Instr, base: word, m: State): Option<State> {
    match i
    case PushRax => Some(Push(m, m.rax))
    case PopRax => Some(Drop(m).(rax := Top(m)))
    case PopRbx => Some(Drop(m).(rbx := Top(m)))
    case PushRbp => Some(Push(m, m.rbp))
    case MovRbpRsp => Some(m.(rbp := m.rsp))
    case Leave => Some(m.(rsp := ToWord(m.rbp + 8), rbp := Load64(m.mem, m.rbp)))
    case Ret => Some(Drop(m).(rip := Top(m) - base))
    case Nop => Some(m)
    case MovRaxImm(v) => Some(m.(rax := v))
    case AddRaxRbx => Some(m.(rax := ToWord(m.rax + m.rbx), flags := None))
    case SubRaxRbx => Some(m.(rax := ToWord(m.rax - m.rbx), flags := None))
    case ImulRaxRbx => Some(m.(rax := ToWord(m.rax * m.rbx), flags := None))
    case Cqo => Some(m.(rdx := if Signed(m.rax) < 0 then TWO64 - 1 else 0))
    case IdivRbx => Divide(m)
    case LoadQ(d) => Some(m.(rax := Load64(m.mem, ToWord(m.rbp + d))))
    case LoadD(d) => Some(m.(rax := Load32(m.mem, ToWord(m.rbp + d))))
    case StoreQ(d) => Some(m.(mem := Store64(m.mem, ToWord(m.rbp + d), m.rax)))
    case StoreD(d) => Some(m.(mem := Store32(m.mem, ToWord(m.rbp + d), m.rax % TWO32)))
    case AddRsp(n) => Some(m.(rsp := ToWord(m.rsp + n), flags := None))
    case SubRsp(n) => Some(m.(rsp := ToWord(m.rsp - n), flags := None))
    case CmpRaxRbx => Some(m.(flags := Some(CompareFlags(m.rax, m.rbx))))
    case TestRax => Some(m.(flags := Some(CompareFlags(m.rax, 0))))
    case XorEax => Some(m.(rax := 0, flags := None))
    case Jcc(cc, rel) =>
      if m.flags.None? then None
      else Some(if Holds(cc, m.flags.value) then m.(rip := m.rip + rel) else m)
    case Jmp(rel) => Some(m.(rip := m.rip + rel))
    case Call(rel) => Some(Push(m, ToWord(base + m.rip)).(rip := m.rip + rel))
    case LeaRax(rel) => Some(m.(rax := ToWord(base + m.rip + rel)))
  }

  /** One step; None when no instruction is there or it faults. */
  function Step(img: Image, m: State): Option<State> {
    match Decode(img.code, m.rip)
    case Bad => None
    case Got(i, n) => Effect(i, img.base, m.(rip := m.rip + n))
  }

  function Run(img: Image, m: State, steps: nat): Option<State>
    decreases steps
  {
    if steps == 0 then Some(m)
    else match Step(img, m)
      case None => None
      case Some(m1) => Run(img, m1, steps - 1)
  }

  ghost predicate Reaches(img: Image, m: State, m': State) {
    exists n: nat :: Run(img, m, n) == Some(m')
  }

  lemma ReachesSelf(img: Image, m: State)
    ensures Reaches(img, m, m)
  {
    assert Run(img, m, 0) == Some(m);
  }

  lemma {:induction false} RunAppend(img: Image, m: State, j: nat, m1: State, k: nat)
    requires Run(img, m, j) == Some(m1)
    ensures Run(img, m, j + k) == Run(img, m1, k)
    decreases j
  {
    hide Step;
    if j > 0 {
      RunAppend(img, Step(img, m).value, j - 1, m1, k);
    }
  }

  lemma ReachesTrans(img: Image, m: State, m1: State, m2: State)
    requires Reaches(img, m, m1) && Reaches(img, m1, m2)
    ensures Reaches(img, m, m2)
  {
    hide Step;
    var j: nat :| Run(img, m, j) == Some(m1);
    var k: nat :| Run(img, m1, k) == Some(m2);
    RunAppend(img, m, j, m1, k);
  }

  /** Executing the instruction that stands at rip. */
  lemma Do(img: Image, m: State, i: Instr) returns (m': State)
    requires At(img.code, m.rip, i)
    requires Effect(i, img.base, m.(rip := m.rip + |Encode(i)|)).Some?
    ensures Some(m') == Effect(i, img.base, m.(rip := m.rip + |Encode(i)|))
    ensures Reaches(img, m, m')
  {
    hide Decode, Effect, Encode;
    DecodeEncode(img.code, m.rip, i);
    m' := Step(img, m).value;
    assert Run(img, m', 0) == Some(m');
    assert Run(img, m, 1) == Some(m');
  }
}
