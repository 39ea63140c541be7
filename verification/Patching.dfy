/**
 Growing the code buffer and patching it: later emission only appends, fixup
 sites never overlap, and patching changes the placeholder bytes alone.
 */
module Patching {
  import opened Words
  import opened Machine
  import opened Options
  import opened Ast
  import opened Layout
  import opened Codegen

  /** How much each table grows. */
  datatype Cost = Cost(code: nat, labels: nat, fixups: nat, strs: nat, pool: nat)

  function Plus(a: Cost, b: Cost): Cost {
    Cost(a.code + b.code, a.labels + b.labels, a.fixups + b.fixups, a.strs + b.strs, a.pool + b.pool)
  }

  ghost predicate Fits(g: Gen, c: Cost) {
    && |g.code| + c.code <= CODE_BUF_SIZE
    && g.nextLabel + c.labels <= MAX_LABELS
    && g.fixups + c.fixups <= MAX_FIXUPS
    && |g.strs| + c.strs <= MAX_STR_FIXUPS
    && |g.pool| + c.pool < MAX_STR_POOL
  }

  /** Unused fixup records carry no call mark; other tables are treated in Leftovers. */
  ghost predicate Unmarked(table: seq<Fixup>, used: nat) {
    forall i :: used <= i < |table| ==> !table[i].isFuncCall
  }

  /** Sites lie inside the code, in order and four bytes apart. */
  ghost predicate Sound(g: Gen) {
    && Shaped(g) && SitesInside(g, |g.code|) && Unmarked(g.table, g.fixups)
    && (forall i, j :: 0 <= i < j < g.fixups ==> g.table[i].patchPos + 4 <= g.table[j].patchPos)
    && (forall i, j :: 0 <= i < j < |g.strs| ==> g.strs[i].dispPos + 4 <= g.strs[j].dispPos)
    && (forall i, j :: 0 <= i < g.fixups && 0 <= j < |g.strs| ==>
          g.table[i].patchPos + 4 <= g.strs[j].dispPos || g.strs[j].dispPos + 4 <= g.table[i].patchPos)
  }

  /** `f` continues `g`: nothing written is changed and new sites come later. */
  ghost predicate Extends(g: Gen, f: Gen) {
    && Shaped(g) && Shaped(f)
    && |g.code| <= |f.code| && f.code[..|g.code|] == g.code
    && g.fixups <= f.fixups && (forall i :: 0 <= i < g.fixups ==> f.table[i] == g.table[i])
    && (forall i :: g.fixups <= i < f.fixups ==> f.table[i].patchPos >= |g.code|)
    && g.strs <= f.strs
    && (forall i :: |g.strs| <= i < |f.strs| ==> f.strs[i].dispPos >= |g.code|)
    && g.pool <= f.pool && g.funcs <= f.funcs && g.nextLabel <= f.nextLabel
    && (forall id :: 0 <= id < g.nextLabel && id < MAX_LABELS && g.labels[id] != -1 ==> f.labels[id] == g.labels[id])
  }

  ghost predicate LabelsKept(g: Gen, f: Gen) {
    && Shaped(g) && Shaped(f)
    && forall id :: 0 <= id < g.nextLabel && id < MAX_LABELS ==> f.labels[id] == g.labels[id]
  }

  /** Growth by exactly `c`, touching no label that existed before. */
  ghost predicate Grows(g: Gen, f: Gen, c: Cost) {
    && Sound(f) && Extends(g, f) && LabelsKept(g, f) && f.funcs == g.funcs
    && |f.code| == |g.code| + c.code && f.nextLabel == g.nextLabel + c.labels
    && f.fixups == g.fixups + c.fixups && |f.strs| == |g.strs| + c.strs && |f.pool| == |g.pool| + c.pool
  }

  const NOTHING := Cost(0, 0, 0, 0, 0)

  lemma GrowsSelf(g: Gen)
    requires Sound(g)
    ensures Grows(g, g, NOTHING)
  {
  }

  lemma ExtendsTrans(a: Gen, b: Gen, c: Gen)
    requires Extends(a, b) && Extends(b, c)
    ensures Extends(a, c)
  {
    assert c.code[..|a.code|] == c.code[..|b.code|][..|a.code|];
    forall i | |a.strs| <= i < |c.strs| ensures c.strs[i].dispPos >= |a.code| {
      if i < |b.strs| { assert c.strs[i] == b.strs[i]; }
    }
    forall i | a.fixups <= i < c.fixups ensures c.table[i].patchPos >= |a.code| {
      if i < b.fixups { assert c.table[i] == b.table[i]; }
    }
  }

  lemma GrowsTrans(a: Gen, b: Gen, c: Gen, k1: Cost, k2: Cost)
    requires Grows(a, b, k1) && Grows(b, c, k2)
    ensures Grows(a, c, Plus(k1, k2))
  {
    hide Extends, Sound, Shaped;
    ExtendsTrans(a, b, c);
  }

  lemma EmitGrows(g: Gen, bs: seq<byte>)
    requires Sound(g) && |g.code| + |bs| <= CODE_BUF_SIZE
    ensures Grows(g, Emit(g, bs), Cost(|bs|, 0, 0, 0, 0)) && Emit(g, bs).code == g.code + bs
  {
  }

  lemma EmitIGrows(g: Gen, i: Instr)
    requires Sound(g) && |g.code| + |Encode(i)| <= CODE_BUF_SIZE
    ensures Grows(g, EmitI(g, i), Cost(|Encode(i)|, 0, 0, 0, 0))
  {
    hide Encode, Grows;
    EmitGrows(g, Encode(i));
  }

  /** An opcode, a fixup record for the field behind it, and the placeholder. */
  function Site(g: Gen, op: seq<byte>, f: Fixup): Gen {
    var g1 := Emit(g, op);
    if g1.fixups >= |g1.table| then Emit(g1, PLACEHOLDER)
    else Emit(PutFixup(g1, f.(patchPos := |g1.code|)), PLACEHOLDER)
  }

  lemma SiteGrows(g: Gen, op: seq<byte>, f: Fixup)
    requires Sound(g) && |g.code| + |op| + 4 <= CODE_BUF_SIZE && g.fixups < MAX_FIXUPS
    ensures Grows(g, Site(g, op, f), Cost(|op| + 4, 0, 1, 0, 0))
    ensures Site(g, op, f).table[g.fixups] == f.(patchPos := |g.code| + |op|)
    ensures Site(g, op, f).code == g.code + op + PLACEHOLDER
  {
  }

  /** The lea instruction with its pool entry and string fixup. */
  lemma LeaGrows(g: Gen, raw: string)
    requires Sound(g) && |g.code| + 7 <= CODE_BUF_SIZE && |g.strs| < MAX_STR_FIXUPS && |g.pool| + |Text(raw)| < MAX_STR_POOL
    ensures Grows(g, EmitLea(g, raw), Cost(7, 0, 0, 1, |Text(raw)|))
    ensures EmitLea(g, raw).strs == g.strs + [StrFixup(|g.code| + 3, |g.pool|)]
    ensures EmitLea(g, raw).code == g.code + [0x48, 0x8D, 0x05] + PLACEHOLDER
    ensures EmitLea(g, raw).pool == g.pool + Text(raw)
  {
    hide Text;
    AddStringFits(g, raw);
  }

  lemma AddStringFits(g: Gen, raw: string)
    requires |g.pool| + |Text(raw)| < MAX_STR_POOL
    ensures AddString(g, raw) == g.(pool := g.pool + Text(raw))
  {
    var t := Text(raw);
    assert t == t[..|t| - 1] + [0];
    assert g.pool + t[..|t| - 1] + [0] == g.pool + t;
  }

  lemma AllocGrows(g: Gen)
    requires Sound(g) && g.nextLabel < MAX_LABELS
    ensures Grows(g, AllocLabel(g), Cost(0, 1, 0, 0, 0)) && AllocLabel(g).labels[g.nextLabel] == -1
  {
  }

  /** Marking a label that is still unmarked. */
  lemma MarkExtends(g: Gen, id: nat)
    requires Sound(g) && id < g.nextLabel && id < MAX_LABELS && g.labels[id] == -1
    ensures Extends(g, MarkLabel(g, id)) && Sound(MarkLabel(g, id))
  {
  }

  // ----- patching -----

  lemma Write32Facts(code: seq<byte>, pos: nat, v: int)
    requires pos + 4 <= |code|
    ensures Write32(code, pos, v)[pos..pos + 4] == Bytes32(ToU32(v))
    ensures forall k :: 0 <= k < |code| && (k < pos || pos + 4 <= k) ==> Write32(code, pos, v)[k] == code[k]
  {
  }

  ghost predicate Apart(lo: int, hi: int, pos: int) {
    pos + 4 <= lo || hi <= pos
  }

  lemma {:induction false} FixupsMiss(g: Gen, code: seq<byte>, n: nat, lo: nat, hi: nat)
    requires SitesInside(g, |code|) && n <= g.fixups && lo <= hi <= |code|
    requires forall i :: 0 <= i < n ==> Apart(lo, hi, g.table[i].patchPos)
    ensures PatchFixups(g, code, n)[lo..hi] == code[lo..hi]
    decreases n
  {
    hide Write32, Resolve;
    if n > 0 {
      FixupsMiss(g, code, n - 1, lo, hi);
      if Resolve(g, n - 1) != -1 {
        var before, pos := PatchFixups(g, code, n - 1), g.table[n - 1].patchPos;
        Write32Facts(before, pos, Resolve(g, n - 1) - (pos + 4));
        assert Apart(lo, hi, g.table[n - 1].patchPos);
        assert Write32(before, pos, Resolve(g, n - 1) - (pos + 4))[lo..hi] == before[lo..hi];
      }
    }
  }

  lemma {:induction false} FixupHits(g: Gen, code: seq<byte>, n: nat, i: nat)
    requires SitesInside(g, |code|) && i < n <= g.fixups && Resolve(g, i) != -1
    requires forall i, j :: 0 <= i < j < g.fixups ==> g.table[i].patchPos + 4 <= g.table[j].patchPos
    ensures var pos := g.table[i].patchPos;
            PatchFixups(g, code, n)[pos..pos + 4] == Bytes32(ToU32(Resolve(g, i) - (pos + 4)))
    decreases n
  {
    hide Write32, Resolve, Bytes32, ToU32;
    var pos := g.table[i].patchPos;
    var before, last := PatchFixups(g, code, n - 1), g.table[n - 1].patchPos;
    if Resolve(g, n - 1) != -1 {
      Write32Facts(before, last, Resolve(g, n - 1) - (last + 4));
    }
    if i < n - 1 {
      FixupHits(g, code, n - 1, i);
      if Resolve(g, n - 1) != -1 {
        assert Write32(before, last, Resolve(g, n - 1) - (last + 4))[pos..pos + 4] == before[pos..pos + 4];
      }
    }
  }

  lemma {:induction false} StringsMiss(g: Gen, code: seq<byte>, section: nat, n: nat, lo: nat, hi: nat)
    requires SitesInside(g, |code|) && n <= |g.strs| && lo <= hi <= |code|
    requires forall i :: 0 <= i < n ==> Apart(lo, hi, g.strs[i].dispPos)
    ensures PatchStrings(g, code, section, n)[lo..hi] == code[lo..hi]
    decreases n
  {
    hide Write32;
    if n > 0 {
      StringsMiss(g, code, section, n - 1, lo, hi);
      var f, before := g.strs[n - 1], PatchStrings(g, code, section, n - 1);
      var v := section + f.poolOffset - (f.dispPos + 4);
      Write32Facts(before, f.dispPos, v);
      assert Apart(lo, hi, g.strs[n - 1].dispPos);
      assert Write32(before, f.dispPos, v)[lo..hi] == before[lo..hi];
    }
  }

  lemma {:induction false} StringHits(g: Gen, code: seq<byte>, section: nat, n: nat, i: nat)
    requires SitesInside(g, |code|) && i < n <= |g.strs|
    requires forall i, j :: 0 <= i < j < |g.strs| ==> g.strs[i].dispPos + 4 <= g.strs[j].dispPos
    ensures var f := g.strs[i];
            PatchStrings(g, code, section, n)[f.dispPos..f.dispPos + 4]
            == Bytes32(ToU32(section + f.poolOffset - (f.dispPos + 4)))
    decreases n
  {
    hide Write32, Bytes32, ToU32;
    var f, last, before := g.strs[i], g.strs[n - 1], PatchStrings(g, code, section, n - 1);
    var v := section + last.poolOffset - (last.dispPos + 4);
    Write32Facts(before, last.dispPos, v);
    if i < n - 1 {
      StringHits(g, code, section, n - 1, i);
      assert Write32(before, last.dispPos, v)[f.dispPos..f.dispPos + 4] == before[f.dispPos..f.dispPos + 4];
    }
  }

  /** A range that meets no site is in the linked code as it was emitted. */
  lemma LinkedMiss(g: Gen, lo: nat, hi: nat)
    requires Sound(g) && Section(g) >= 0 && lo <= hi <= |g.code|
    requires forall i :: 0 <= i < g.fixups ==> Apart(lo, hi, g.table[i].patchPos)
    requires forall i :: 0 <= i < |g.strs| ==> Apart(lo, hi, g.strs[i].dispPos)
    ensures Linked(g)[lo..hi] == g.code[lo..hi]
  {
    hide PatchFixups, PatchStrings;
    FixupsMiss(g, g.code, g.fixups, lo, hi);
    StringsMiss(g, PatchFixups(g, g.code, g.fixups), Section(g), |g.strs|, lo, hi);
  }

  /** A fixup's field holds the distance to what it resolves to. */
  lemma LinkedFixup(g: Gen, i: nat)
    requires Sound(g) && Section(g) >= 0 && i < g.fixups && Resolve(g, i) != -1
    ensures var pos := g.table[i].patchPos;
            Linked(g)[pos..pos + 4] == Bytes32(ToU32(Resolve(g, i) - (pos + 4)))
  {
    hide PatchFixups, PatchStrings, Resolve, Bytes32, ToU32;
    var pos := g.table[i].patchPos;
    FixupHits(g, g.code, g.fixups, i);
    forall j | 0 <= j < |g.strs| ensures Apart(pos, pos + 4, g.strs[j].dispPos) {
    }
    StringsMiss(g, PatchFixups(g, g.code, g.fixups), Section(g), |g.strs|, pos, pos + 4);
  }

  /** A string fixup's field holds the distance to its pool entry. */
  lemma LinkedString(g: Gen, i: nat)
    requires Sound(g) && Section(g) >= 0 && i < |g.strs|
    ensures var f := g.strs[i];
            Linked(g)[f.dispPos..f.dispPos + 4] == Bytes32(ToU32(Section(g) + f.poolOffset - (f.dispPos + 4)))
  {
    hide PatchFixups, PatchStrings, Bytes32, ToU32;
    StringHits(g, PatchFixups(g, g.code, g.fixups), Section(g), |g.strs|, i);
  }

  /** Code emitted without a fixup stays as it is, however `f` continues. */
  lemma PlainLinked(g: Gen, g': Gen, f: Gen)
    requires Sound(g) && Extends(g, g') && Extends(g', f) && Sound(f) && Section(f) >= 0
    requires g'.fixups == g.fixups && g'.strs == g.strs
    ensures Linked(f)[|g.code|..|g'.code|] == g'.code[|g.code|..]
  {
    var lo, hi := |g.code|, |g'.code|;
    forall i | 0 <= i < f.fixups ensures Apart(lo, hi, f.table[i].patchPos) {
      if i < g.fixups { assert f.table[i] == g.table[i]; }
    }
    forall i | 0 <= i < |f.strs| ensures Apart(lo, hi, f.strs[i].dispPos) {
      if i < |g.strs| { assert f.strs[i] == g.strs[i]; }
    }
    hide Linked;
    LinkedMiss(f, lo, hi);
    assert f.code[lo..hi] == f.code[..hi][lo..];
  }

  lemma InstrLinked(g: Gen, i: Instr, f: Gen)
    requires Sound(g) && |g.code| + |Encode(i)| <= CODE_BUF_SIZE
    requires Extends(EmitI(g, i), f) && Sound(f) && Section(f) >= 0
    ensures At(Linked(f), |g.code|, i)
  {
    hide Encode, Linked, Sound, Extends, Shaped;
    EmitGrows(g, Encode(i));
    PlainLinked(g, EmitI(g, i), f);
    assert (g.code + Encode(i))[|g.code|..] == Encode(i);
    assert |EmitI(g, i).code| <= |f.code| by { ExtendsLonger(EmitI(g, i), f); }
  }

  lemma ExtendsLonger(g: Gen, f: Gen)
    requires Extends(g, f)
    ensures |g.code| <= |f.code| <= CODE_BUF_SIZE
  {
  }

  /** The opcode of a site stays, its field gets the resolved distance. */
  lemma SiteLinked(g: Gen, op: seq<byte>, x: Fixup, f: Gen)
    requires Sound(g) && |g.code| + |op| + 4 <= CODE_BUF_SIZE && g.fixups < MAX_FIXUPS
    requires Extends(Site(g, op, x), f) && Sound(f) && Section(f) >= 0
    ensures |g.code| + |op| + 4 <= |f.code| && g.fixups < f.fixups
    ensures f.table[g.fixups] == x.(patchPos := |g.code| + |op|)
    ensures Linked(f)[|g.code|..|g.code| + |op|] == op
    ensures var pos := |g.code| + |op|;
            Resolve(f, g.fixups) != -1 ==> Linked(f)[pos..pos + 4] == Bytes32(ToU32(Resolve(f, g.fixups) - (pos + 4)))
  {
    hide Linked, Bytes32, ToU32, Resolve;
    var g', pos := Site(g, op, x), |g.code| + |op|;
    SiteGrows(g, op, x);
    SiteOrder(g, g', f, pos);
    LinkedMiss(f, |g.code|, pos);
    assert f.code[|g.code|..pos] == f.code[..|g'.code|][|g.code|..pos];
    assert (g.code + op + PLACEHOLDER)[|g.code|..pos] == op;
    if Resolve(f, g.fixups) != -1 {
      LinkedFixup(f, g.fixups);
    }
  }

  lemma SiteOrder(g: Gen, g': Gen, f: Gen, pos: nat)
    requires |g.code| <= pos && Sound(g) && Extends(g', f)
    requires Grows(g, g', Cost(pos + 4 - |g.code|, 0, 1, 0, 0))
    requires g'.table[g.fixups].patchPos == pos
    ensures forall i :: 0 <= i < f.fixups ==> Apart(|g.code|, pos, f.table[i].patchPos)
    ensures forall i :: 0 <= i < |f.strs| ==> Apart(|g.code|, pos, f.strs[i].dispPos)
  {
    forall i | 0 <= i < f.fixups ensures Apart(|g.code|, pos, f.table[i].patchPos) {
      if i <= g.fixups { assert f.table[i] == g'.table[i]; }
      if i < g.fixups { assert g'.table[i] == g.table[i]; }
    }
    forall i | 0 <= i < |f.strs| ensures Apart(|g.code|, pos, f.strs[i].dispPos) {
      if i < |g.strs| { assert f.strs[i] == g.strs[i]; }
    }
  }

  /** Opcode and field together are a lea with the resolved displacement. */
  lemma LeaBytes(code: seq<byte>, a: nat, v: int)
    requires a + 7 <= |code| && code[a..a + 3] == [0x48, 0x8D, 0x05] && code[a + 3..a + 7] == Bytes32(ToU32(v))
    ensures At(code, a, LeaRax(SignedInt(ToU32(v))))
  {
    hide Bytes32;
    assert code[a..a + 7] == code[a..a + 3] + code[a + 3..a + 7];
  }

  lemma LeaOpcodeLinked(g: Gen, raw: string, f: Gen)
    requires Sound(g) && |g.code| + 7 <= CODE_BUF_SIZE && |g.strs| < MAX_STR_FIXUPS && |g.pool| + |Text(raw)| < MAX_STR_POOL
    requires Extends(EmitLea(g, raw), f) && Sound(f) && Section(f) >= 0
    ensures |g.code| + 7 <= |f.code| && |g.strs| < |f.strs| && g.pool + Text(raw) <= f.pool
    ensures f.strs[|g.strs|] == StrFixup(|g.code| + 3, |g.pool|)
    ensures Linked(f)[|g.code|..|g.code| + 3] == [0x48, 0x8D, 0x05]
  {
    hide Linked, Bytes32, Text;
    LeaGrows(g, raw);
    var g', pos := EmitLea(g, raw), |g.code| + 3;
    LeaOrder(g, g', f, raw);
    LinkedMiss(f, |g.code|, pos);
    assert f.code[|g.code|..pos] == f.code[..|g'.code|][|g.code|..pos];
    assert (g.code + [0x48, 0x8D, 0x05] + PLACEHOLDER)[|g.code|..pos] == [0x48, 0x8D, 0x05];
  }

  /** The lea of a string literal points at its text in the linked code. */
  lemma LeaLinked(g: Gen, raw: string, f: Gen)
    requires Sound(g) && |g.code| + 7 <= CODE_BUF_SIZE && |g.strs| < MAX_STR_FIXUPS && |g.pool| + |Text(raw)| < MAX_STR_POOL
    requires Extends(EmitLea(g, raw), f) && Sound(f) && Section(f) >= 0
    requires PoolLinked(f)
    ensures exists rel: i32 :: At(Linked(f), |g.code|, LeaRax(rel)) && TextAt(Linked(f), |g.code| + 7 + rel, Text(raw))
  {
    hide Linked, Bytes32, Text, At, TextAt, Extends, ToU32;
    LeaOpcodeLinked(g, raw, f);
    LinkedString(f, |g.strs|);
    var target, next := Section(f) + |g.pool|, |g.code| + 7;
    LeaBytes(Linked(f), |g.code|, target - next);
    TextLinked(g, f, raw);
    RelExact(target, next);
  }

  /** The pool bytes follow the code and no fixup touches them. */
  ghost predicate PoolLinked(f: Gen)
    requires SitesInside(f, |f.code|) && Section(f) >= 0
  {
    Linked(f)[Section(f)..] == f.pool
  }

  lemma LeaOrder(g: Gen, g': Gen, f: Gen, raw: string)
    requires Sound(g) && Grows(g, g', Cost(7, 0, 0, 1, |Text(raw)|)) && Extends(g', f)
    requires g'.strs == g.strs + [StrFixup(|g.code| + 3, |g.pool|)]
    ensures forall i :: 0 <= i < f.fixups ==> Apart(|g.code|, |g.code| + 3, f.table[i].patchPos)
    ensures forall i :: 0 <= i < |f.strs| ==> Apart(|g.code|, |g.code| + 3, f.strs[i].dispPos)
  {
    hide Text;
    forall i | 0 <= i < f.fixups ensures Apart(|g.code|, |g.code| + 3, f.table[i].patchPos) {
      if i < g.fixups { assert f.table[i] == g.table[i]; }
    }
    forall i | 0 <= i < |f.strs| ensures Apart(|g.code|, |g.code| + 3, f.strs[i].dispPos) {
      if i <= |g.strs| { assert f.strs[i] == g'.strs[i]; }
    }
  }

  lemma TextLinked(g: Gen, f: Gen, raw: string)
    requires SitesInside(f, |f.code|) && Section(f) >= 0 && PoolLinked(f)
    requires g.pool + Text(raw) <= f.pool
    ensures TextAt(Linked(f), Section(f) + |g.pool|, Text(raw))
  {
    hide Linked, Text;
    var t, a := Text(raw), Section(f) + |g.pool|;
    assert f.pool[|g.pool|..|g.pool| + |t|] == (g.pool + t)[|g.pool|..];
    assert Linked(f)[a..a + |t|] == Linked(f)[Section(f)..][|g.pool|..|g.pool| + |t|];
  }
}
