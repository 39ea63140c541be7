/** Where mapping a page stops working: large pages, and page allocation that fails. */
module MappingLimits {
  import opened Words
  import opened Options
  import opened PageTables
  import opened Pmm
  import opened Vmm

  predicate LargeLeaf(t: Option<Leaf>) {
    t.Some? && t.value.depth < 3
  }

  /** The address lies in a large page. */
  predicate InLargePage(mem: seq<word>, root: nat, v: nat) {
    LargeLeaf(Translate(mem, root, v))
  }

  /** The first level, if any, whose table is missing and cannot be allocated. */
  ghost function FirstFailure(m: Maps, a: nat, p: seq<nat>, depth: nat): (r: Option<nat>)
    requires |m.pages.words| == BM_SIZE && IsPath(p) && depth <= 3
    ensures r.Some? ==> depth <= r.value < 3
    decreases 3 - depth
  {
    if depth == 3 || !PageIn(m.mem, a) then None
    else
      var e := Entry(m.mem, a, p[depth]);
      if Present(e) then if Links(e, depth) then FirstFailure(m, Frame(e), p, depth + 1) else None
      else if AllocPages(m.pages, 1).0 == 0 then Some(depth)
      else
        var (m', c) := Descend(m, a, p[depth]);
        FirstFailure(m', c, p, depth + 1)
  }

  /** What mapping promises about translations. */
  ghost predicate MapsOnly(m: Maps, root: nat, v: nat, phys: word, flags: nat)
    requires |m.pages.words| == BM_SIZE && flags < 4096
  {
    forall w: nat :: Translate(MapOne(m, root, v, phys, flags).mem, root, w) == AfterMapping(m, root, v, phys, flags, w)
  }

  // ----- large pages -----

  lemma {:induction false} ReadyMeans(m: Maps, root: nat, tables: map<nat, seq<nat>>, live: set<nat>, k: nat, a: nat, p: seq<nat>, depth: nat)
    requires System(m, root, tables, live, k) && IsPath(p) && depth <= 3 && OnPath(tables, a, p, depth)
    ensures Ready(m, a, p, depth) <==> !LargeLeaf(Walk(m.mem, a, p, depth)) && FirstFailure(m, a, p, depth) == None
    decreases 3 - depth
  {
    hide AllocPages, Accounted, Tree, Entry, Frame, Present, Large, Descend;
    SystemTree(m, root, tables, live, k);
    TreePages(m.mem, root, tables);
    if depth < 3 {
      var e := Entry(m.mem, a, p[depth]);
      if Links(e, depth) {
        TreeChild(m.mem, root, tables, a, p, depth);
        ReadyMeans(m, root, tables, live, k, Frame(e), p, depth + 1);
        DescendPresent(m, a, p[depth]);
      } else if !Present(e) && AllocPages(m.pages, 1).0 != 0 {
        var tables', live' := DescendNew(m, root, tables, live, k, a, p, depth);
        var (m', c) := Descend(m, a, p[depth]);
        ReadyMeans(m', root, tables', live', k, c, p, depth + 1);
        assert p[depth + 1] < 512;
        EmptyTable(m'.mem, c, p, depth + 1);
      }
    }
  }

  lemma DescendPresent(m: Maps, a: nat, i: nat)
    requires |m.pages.words| == BM_SIZE && i < 512 && PageIn(m.mem, a) && Present(Entry(m.mem, a, i))
    ensures Descend(m, a, i) == (m, Frame(Entry(m.mem, a, i)))
  {
  }

  lemma EmptyTable(mem: seq<word>, c: nat, q: seq<nat>, depth: nat)
    requires IsPath(q) && depth <= 3 && PageIn(mem, c) && Entry(mem, c, q[depth]) == 0
    ensures Walk(mem, c, q, depth) == None
  {
    hide Entry;
    ZeroEntry();
  }

  /** Paths that share the indices above a large page share the large page. */
  lemma {:induction false} LargeShared(mem: seq<word>, a: nat, p: seq<nat>, q: seq<nat>, depth: nat)
    requires IsPath(p) && IsPath(q) && depth <= 3 && LargeLeaf(Walk(mem, a, q, depth)) && p[..3] == q[..3]
    ensures Walk(mem, a, p, depth) == Walk(mem, a, q, depth)
    decreases 3 - depth
  {
    hide Entry, Frame;
    assert depth < 3;
    assert p[depth] == p[..3][depth] == q[..3][depth] == q[depth];
    if Links(Entry(mem, a, q[depth]), depth) {
      LargeShared(mem, a := Frame(Entry(mem, a, q[depth])), p := p, q := q, depth := depth + 1);
    }
  }

  /** The other page of an aligned pair. */
  function Neighbour(v: nat): nat {
    if v / 4096 % 2 == 0 then v + 4096 else v - 4096
  }

  lemma NeighbourShares(v: nat)
    ensures VirtualPage(Neighbour(v)) != VirtualPage(v) && PathOf(Neighbour(v))[..3] == PathOf(v)[..3]
  {
    hide VirtualPage, PathOf;
    var w := Neighbour(v);
    PagePair(v);
    PathIndices(v);
    PathIndices(w);
    PathIsPage(v, w);
  }

  /** Neighbours differ in the lowest bit of the page number only. */
  lemma PagePair(v: nat)
    ensures Neighbour(v) / 4096 / 2 == v / 4096 / 2 && Neighbour(v) / 4096 % 2 != v / 4096 % 2
  {
    var n := v / 4096;
    assert Neighbour(v) / 4096 == if n % 2 == 0 then n + 1 else n - 1;
  }

  /** The indices of a path in terms of the page number's upper bits and its last bit. */
  lemma PathIndices(v: nat)
    ensures var p, h := PathOf(v), v / 4096 / 2;
            p[0] == h / 256 / 512 / 512 % 512 && p[1] == h / 256 / 512 % 512 && p[2] == h / 256 % 512 && p[3] % 2 == v / 4096 % 2
  {
    var h := v / 4096 / 2;
    assert v / 0x20_0000 == h / 256;
    assert v / 0x4000_0000 == h / 256 / 512;
    assert v / 0x80_0000_0000 == h / 256 / 512 / 512;
  }

  /** With the pages it needs at hand, mapping does what it promises exactly when the
      address does not lie in a large page. */
  lemma MapsIffNoLargePage(m: Maps, root: nat, tables: map<nat, seq<nat>>, live: set<nat>, k: nat, v: nat, phys: word, flags: nat)
    requires System(m, root, tables, live, k) && flags < 4096 && FirstFailure(m, root, PathOf(v), 0) == None
    ensures MapsOnly(m, root, v, phys, flags) <==> !InLargePage(m.mem, root, v)
  {
    hide Accounted, Tree, Ready, FirstFailure, Walk, MapOne, LeafEntry, PathOf, VirtualPage, Extends, Outside, Neighbour;
    RootAt(m, root, tables, live, k, PathOf(v));
    ReadyMeans(m, root, tables, live, k, root, PathOf(v), 0);
    if InLargePage(m.mem, root, v) {
      InsideLarge(m, root, v, phys, flags);
    } else {
      var _, _ := MapPageRefines(m, root, tables, live, k, v, phys, flags);
    }
  }

  /** Whatever memory mapping leaves behind, it cannot translate one page of a large
      page differently from its neighbour. */
  lemma InsideLarge(m: Maps, root: nat, v: nat, phys: word, flags: nat)
    requires |m.pages.words| == BM_SIZE && flags < 4096 && InLargePage(m.mem, root, v)
    ensures !MapsOnly(m, root, v, phys, flags)
  {
    hide Walk, MapOne, LeafEntry, PathOf, VirtualPage, Neighbour;
    var w, mem' := Neighbour(v), MapOne(m, root, v, phys, flags).mem;
    NeighbourShares(v);
    LargeShared(m.mem, root, PathOf(w), PathOf(v), 0);
    if Translate(mem', root, w) == Translate(m.mem, root, w) {
      LargeShared(mem', root, PathOf(v), PathOf(w), 0);
      assert Translate(mem', root, v) != AfterMapping(m, root, v, phys, flags, v);
    } else {
      assert Translate(mem', root, w) != AfterMapping(m, root, v, phys, flags, w);
    }
  }

  // ----- no page left -----

  /** Entry `j` of page 0 once the table at level `d` could not be allocated: page 0 is
      cleared for every missing level, linked to itself below level `d`, and takes the
      leaf. */
  function ZeroPage(p: seq<nat>, leaf: word, d: nat, j: nat): word
    requires IsPath(p)
  {
    if j == p[3] then leaf else if d < 2 && j == p[2] then TableEntry(0) else 0
  }

  ghost predicate NoPages(m: Maps) {
    |m.mem| == CELLS && |m.pages.words| == BM_SIZE && AllocPages(m.pages, 1) == (0, m.pages)
  }

  /** Memory differs from `mem` in page 0, given by `zero`, and in a link to it. */
  ghost predicate ZeroLinked(mem: seq<word>, mem': seq<word>, a: nat, i: nat, zero: nat -> word) {
    && |mem| == |mem'| == CELLS
    && forall b, j: nat :: PageIn(mem, b) && j < 512 ==>
         Entry(mem', b, j) == if b == 0 then zero(j) else if b == a && j == i then TableEntry(0) else Entry(mem, b, j)
  }

  lemma DescendFails(m: Maps, a: nat, i: nat)
    requires NoPages(m) && i < 512 && PageIn(m.mem, a) && !Present(Entry(m.mem, a, i)) && a != 0
    ensures var (m', c) := Descend(m, a, i);
            c == 0 && m'.pages == m.pages && ZeroLinked(m.mem, m'.mem, a, i, j => 0)
  {
    hide AllocPages, Entry, AddTable, Present;
    forall b, j: nat | PageIn(m.mem, b) && j < 512
      ensures PageIn(AddTable(m.mem, a, i, 0), b)
      ensures Entry(AddTable(m.mem, a, i, 0), b, j)
           == if b == 0 then 0 else if b == a && j == i then TableEntry(0) else Entry(m.mem, b, j)
    {
      AddTableEntry(m.mem, a, i, 0, b, j);
    }
  }

  /** Page 0 standing in for a table whose own table is missing. */
  lemma DescendZero(m: Maps, i: nat)
    requires NoPages(m) && i < 512 && !Present(Entry(m.mem, 0, i))
    ensures var (m', c) := Descend(m, 0, i);
            c == 0 && m'.pages == m.pages && ZeroLinked(m.mem, m'.mem, 0, i, j => if j == i then TableEntry(0) else 0)
  {
    hide AllocPages, Entry, ZeroedPage, WithEntry, Present;
    forall b, j: nat | PageIn(m.mem, b) && j < 512
      ensures PageIn(AddTable(m.mem, 0, i, 0), b)
      ensures Entry(AddTable(m.mem, 0, i, 0), b, j)
           == if b == 0 then if j == i then TableEntry(0) else 0 else Entry(m.mem, b, j)
    {
      EntryAfterWrite(ZeroedPage(m.mem, 0), 0, i, TableEntry(0), b, j);
      EntryAfterZero(m.mem, 0, b, j);
    }
  }

  lemma WriteZero(mem0: seq<word>, mem: seq<word>, a: nat, i: nat, zero: nat -> word, j: nat, e: word)
    requires ZeroLinked(mem0, mem, a, i, zero) && j < 512
    ensures PageIn(mem, 0) && ZeroLinked(mem0, WithEntry(mem, 0, j, e), a, i, n => if n == j then e else zero(n))
  {
    hide Entry, WithEntry;
    assert PageIn(mem, 0);
    forall b, n: nat | PageIn(mem, b) && n < 512
      ensures PageIn(WithEntry(mem, 0, j, e), b)
      ensures Entry(WithEntry(mem, 0, j, e), b, n) == if 0 == b && j == n then e else Entry(mem, b, n)
    {
      EntryAfterWrite(mem, 0, j, e, b, n);
    }
  }

  /** Entries below level `d`, one missing level after the other. */
  lemma ZeroTables(m: Maps, a: nat, p: seq<nat>, leaf: word, d: nat)
    requires NoPages(m) && IsPath(p) && d < 3 && PageIn(m.mem, a) && a != 0 && !Present(Entry(m.mem, a, p[d]))
    ensures var m' := MapFrom(m, a, p, leaf, d);
            m'.pages == m.pages && ZeroLinked(m.mem, m'.mem, a, p[d], j => ZeroPage(p, leaf, d, j))
  {
    hide AllocPages, Entry, WithEntry, Present, Descend, Frame;
    DescendFails(m, a, p[d]);
    var m1 := Descend(m, a, p[d]).0;
    var mem3 := m1.mem;
    ZeroEntry();
    TableEntryFacts(0);
    if d == 1 {
      DescendZero(m1, p[2]);
      mem3 := Descend(m1, 0, p[2]).0.mem;
    } else if d == 0 {
      DescendZero(m1, p[1]);
      var m2 := Descend(m1, 0, p[1]).0;
      if p[1] == p[2] {
        DescendPresent(m2, 0, p[2]);
      } else {
        DescendZero(m2, p[2]);
      }
      mem3 := Descend(m2, 0, p[2]).0.mem;
    }
    assert ZeroLinked(m.mem, mem3, a, p[d], j => if d < 2 && j == p[2] then TableEntry(0) else 0);
    WriteZero(m.mem, mem3, a, p[d], j => if d < 2 && j == p[2] then TableEntry(0) else 0, p[3], leaf);
  }

  /** What mapping does from level `depth` down when level `d` cannot be allocated. */
  ghost predicate Failed(m: Maps, m': Maps, root: nat, tables: map<nat, seq<nat>>, tables': map<nat, seq<nat>>, a: nat, p: seq<nat>, leaf: word, d: nat, depth: nat)
    requires IsPath(p) && depth <= d < 3
  {
    && |m'.mem| == CELLS && PageIn(m'.mem, 0)
    && (forall j: nat :: j < 512 ==> Entry(m'.mem, 0, j) == ZeroPage(p, leaf, d, j))
    && (forall q :: IsPath(q) && q[..d + 1] != p[..d + 1] ==> Walk(m'.mem, root, q, 0) == Walk(m.mem, root, q, 0))
    && (forall q :: IsPath(q) && q[..d + 1] == p[..d + 1] ==>
          Walk(m.mem, a, q, depth) == None && Walk(m'.mem, a, q, depth) == Walk(m'.mem, 0, q, d + 1))
    && Extends(tables, tables') && Outside(m.mem, m'.mem, tables') && UpperSame(m.mem, m'.mem, tables, depth)
  }

  lemma PrefixStep(p: seq<nat>, q: seq<nat>, d: nat)
    requires d < |p| && d < |q|
    ensures q[..d + 1] == p[..d + 1] <==> q[..d] == p[..d] && q[d] == p[d]
  {
    assert q[..d + 1] == q[..d] + [q[d]] && p[..d + 1] == p[..d] + [p[d]];
  }

  /** A link below `a` and new contents of page 0 change no walk along other paths. */
  lemma {:induction false} OtherWalks(mem: seq<word>, mem': seq<word>, root: nat, tables: map<nat, seq<nat>>, a: nat, p: seq<nat>, d: nat, zero: nat -> word,
                                      b: nat, q: seq<nat>, depth: nat)
    requires Tree(mem, root, tables) && 0 !in tables && IsPath(p) && IsPath(q) && d < 3 && OnPath(tables, a, p, d)
    requires ZeroLinked(mem, mem', a, p[d], zero) && q[..d + 1] != p[..d + 1] && depth <= 3 && OnPath(tables, b, q, depth)
    ensures Walk(mem', b, q, depth) == Walk(mem, b, q, depth)
    decreases 3 - depth
  {
    hide Tree, Entry, Links, Frame, Present;
    TreePages(mem, root, tables);
    var e := Entry(mem, b, q[depth]);
    assert q[depth] < 512;
    PrefixStep(p, q, d);
    assert b == a ==> |q[..depth]| == |p[..d]|;
    if b == a && q[depth] == p[d] {
      assert false;
    } else if depth < 3 && Links(e, depth) {
      TreeChild(mem, root, tables, b, q, depth);
      OtherWalks(mem, mem', root, tables, a, p, d, zero, Frame(e), q, depth + 1);
    }
  }

  lemma FailsHere(m: Maps, root: nat, tables: map<nat, seq<nat>>, live: set<nat>, k: nat, a: nat, p: seq<nat>, leaf: word, d: nat)
    requires System(m, root, tables, live, k) && 0 !in tables && IsPath(p) && d < 3 && OnPath(tables, a, p, d)
    requires !Present(Entry(m.mem, a, p[d])) && AllocPages(m.pages, 1).0 == 0
    ensures Failed(m, MapFrom(m, a, p, leaf, d), root, tables, tables[0 := p[..d + 1]], a, p, leaf, d, d)
  {
    hide Accounted, Tree, AllocPages, Entry, Frame, Large, Walk, MapFrom;
    TreePages(m.mem, root, tables);
    AllocPagesLowest(m.pages, live, k, 1);
    ZeroTables(m, a, p, leaf, d);
    var m' := MapFrom(m, a, p, leaf, d);
    TableLinks(0, d);
    assert PageIn(m.mem, 0);
    forall q | IsPath(q) && q[..d + 1] != p[..d + 1] ensures Walk(m'.mem, root, q, 0) == Walk(m.mem, root, q, 0) {
      OtherWalks(m.mem, m'.mem, root, tables, a, p, d, j => ZeroPage(p, leaf, d, j), root, q, 0);
    }
    forall q | IsPath(q) && q[..d + 1] == p[..d + 1]
      ensures Walk(m.mem, a, q, d) == None && Walk(m'.mem, a, q, d) == Walk(m'.mem, 0, q, d + 1)
    {
      assert q[d] == q[..d + 1][d] == p[d];
      WalkNone(m.mem, a, q, d);
      WalkLink(m'.mem, a, q, d);
    }
  }

  /** At the last level page 0 becomes an ordinary table. */
  lemma LastTable(m: Maps, root: nat, tables: map<nat, seq<nat>>, live: set<nat>, k: nat, a: nat, p: seq<nat>, leaf: word)
    requires System(m, root, tables, live, k) && 0 !in tables && IsPath(p) && OnPath(tables, a, p, 2)
    requires !Present(Entry(m.mem, a, p[2])) && AllocPages(m.pages, 1).0 == 0
    ensures System(MapFrom(m, a, p, leaf, 2), root, tables[0 := p[..3]], live, k)
  {
    hide Accounted, Tree, AllocPages, Entry, Frame, Present, AddTable, WithEntry;
    SystemTree(m, root, tables, live, k);
    TreePages(m.mem, root, tables);
    AllocPagesLowest(m.pages, live, k, 1);
    AccountedKernel(m.pages, live, k);
    assert p[..2] + [p[2]] == p[..3];
    var mem1, tables1 := AddTable(m.mem, a, p[2], 0), tables[0 := p[..3]];
    AddTableTree(m.mem, root, tables, a, p[2], 0);
    TreePages(mem1, root, tables1);
    LeafTree(mem1, root, tables1, 0, p[3], leaf);
    assert Descend(m, a, p[2]) == (Maps(mem1, m.pages), 0);
    assert MapFrom(m, a, p, leaf, 2) == MapFrom(Maps(mem1, m.pages), 0, p, leaf, 3);
  }

  lemma AccountedKernel(st: Pages, live: set<nat>, k: nat)
    requires Accounted(st, live, k)
    ensures k >= 1
  {
  }

  lemma WalkNone(mem: seq<word>, a: nat, q: seq<nat>, depth: nat)
    requires IsPath(q) && depth <= 3 && PageIn(mem, a) && !Present(Entry(mem, a, q[depth]))
    ensures Walk(mem, a, q, depth) == None
  {
  }

  lemma WalkLink(mem: seq<word>, a: nat, q: seq<nat>, depth: nat)
    requires IsPath(q) && depth < 3 && PageIn(mem, a) && Links(Entry(mem, a, q[depth]), depth)
    ensures Walk(mem, a, q, depth) == Walk(mem, Frame(Entry(mem, a, q[depth])), q, depth + 1)
  {
    hide Entry, Large;
  }

  lemma {:induction false} FailsBelow(m: Maps, root: nat, tables: map<nat, seq<nat>>, live: set<nat>, k: nat, a: nat, p: seq<nat>, leaf: word, d: nat, depth: nat)
    returns (tables': map<nat, seq<nat>>, live': set<nat>)
    requires System(m, root, tables, live, k) && 0 !in tables && IsPath(p) && depth <= d < 3 && OnPath(tables, a, p, depth)
    requires FirstFailure(m, a, p, depth) == Some(d)
    ensures Failed(m, MapFrom(m, a, p, leaf, depth), root, tables, tables', a, p, leaf, d, depth)
    ensures live <= live' && (d == 2 ==> System(MapFrom(m, a, p, leaf, depth), root, tables', live', k))
    decreases 3 - depth
  {
    hide Accounted, Tree, AllocPages, Walk, Entry, Frame, Large, Descend, Failed;
    SystemTree(m, root, tables, live, k);
    TreePages(m.mem, root, tables);
    if !Present(Entry(m.mem, a, p[depth])) && AllocPages(m.pages, 1).0 == 0 {
      FailsHere(m, root, tables, live, k, a, p, leaf, d);
      tables', live' := tables[0 := p[..d + 1]], live;
      if d == 2 { LastTable(m, root, tables, live, k, a, p, leaf); }
    } else {
      var (m1, c) := Descend(m, a, p[depth]);
      var tables1, live1 := tables, live;
      if Present(Entry(m.mem, a, p[depth])) {
        DescendPresent(m, a, p[depth]);
        TreeChild(m.mem, root, tables, a, p, depth);
      } else {
        tables1, live1 := DescendNew(m, root, tables, live, k, a, p, depth);
      }
      tables', live' := FailsBelow(m1, root, tables1, live1, k, c, p, leaf, d, depth + 1);
      StepFailed(m, m1, MapFrom(m, a, p, leaf, depth), root, tables, tables1, tables', a, c, p, leaf, d, depth);
    }
  }

  lemma StepFailed(m: Maps, m1: Maps, m': Maps, root: nat, tables: map<nat, seq<nat>>, tables1: map<nat, seq<nat>>, tables': map<nat, seq<nat>>,
                   a: nat, c: nat, p: seq<nat>, leaf: word, d: nat, depth: nat)
    requires IsPath(p) && depth < d < 3 && OnPath(tables, a, p, depth) && PageIn(m.mem, a) && |m.mem| == |m1.mem|
    requires Links(Entry(m1.mem, a, p[depth]), depth) && Frame(Entry(m1.mem, a, p[depth])) == c
    requires m1 == m || !Present(Entry(m.mem, a, p[depth]))
    requires Extends(tables, tables1) && Outside(m.mem, m1.mem, tables1) && UpperSame(m.mem, m1.mem, tables, depth)
    requires forall q :: IsPath(q) ==> Walk(m1.mem, root, q, 0) == Walk(m.mem, root, q, 0)
    requires Failed(m1, m', root, tables1, tables', c, p, leaf, d, depth + 1)
    ensures Failed(m, m', root, tables, tables', a, p, leaf, d, depth)
  {
    hide Entry, Frame, Large, Walk, Present;
    assert Entry(m'.mem, a, p[depth]) == Entry(m1.mem, a, p[depth]);
    forall q | IsPath(q) && q[..d + 1] == p[..d + 1]
      ensures Walk(m.mem, a, q, depth) == None && Walk(m'.mem, a, q, depth) == Walk(m'.mem, 0, q, d + 1)
    {
      assert q[depth] == q[..d + 1][depth] == p[depth];
      if m1 == m { WalkLink(m.mem, a, q, depth); } else { WalkNone(m.mem, a, q, depth); }
      WalkLink(m'.mem, a, q, depth);
    }
  }

  /** What mapping leaves behind when the first table it cannot allocate is that of
      level `d`: only paths that agree with that of `v` down to there are affected;
      none of them led anywhere before, and all of them now go through page 0. */
  lemma FailedPaths(m: Maps, root: nat, tables: map<nat, seq<nat>>, live: set<nat>, k: nat, v: nat, phys: word, flags: nat, d: nat)
    returns (tables': map<nat, seq<nat>>, live': set<nat>)
    requires System(m, root, tables, live, k) && 0 !in tables && flags < 4096 && FirstFailure(m, root, PathOf(v), 0) == Some(d)
    ensures var p, m' := PathOf(v), MapOne(m, root, v, phys, flags);
            && PageIn(m'.mem, 0) && (forall j: nat :: j < 512 ==> Entry(m'.mem, 0, j) == ZeroPage(p, LeafEntry(phys, flags), d, j))
            && (forall q :: IsPath(q) && q[..d + 1] != p[..d + 1] ==> Walk(m'.mem, root, q, 0) == Walk(m.mem, root, q, 0))
            && (forall q :: IsPath(q) && q[..d + 1] == p[..d + 1] ==>
                  Walk(m.mem, root, q, 0) == None && Walk(m'.mem, root, q, 0) == Walk(m'.mem, 0, q, d + 1))
            && Extends(tables, tables') && live <= live' && Outside(m.mem, m'.mem, tables')
            && (d == 2 ==> System(m', root, tables', live', k))
  {
    hide Accounted, Tree, FirstFailure, Walk, MapFrom, LeafEntry, PathOf, ZeroPage, Entry, Extends, Outside, UpperSame;
    RootAt(m, root, tables, live, k, PathOf(v));
    tables', live' := FailsBelow(m, root, tables, live, k, root, PathOf(v), LeafEntry(phys, flags), d, 0);
  }

  function AddressOf(q: seq<nat>): nat
    requires IsPath(q)
  {
    (q[0] * 0x800_0000 + q[1] * 0x4_0000 + q[2] * 512 + q[3]) * 4096
  }

  lemma PathOfAddress(q: seq<nat>)
    requires IsPath(q)
    ensures PathOf(AddressOf(q)) == q
  {
    hide PathOf, AddressOf;
    var p := PathOf(AddressOf(q));
    PathDigits(AddressOf(q));
    AddressPage(q);
    DigitsUnique(p[0], p[1], p[2], p[3], q[0], q[1], q[2], q[3]);
  }

  lemma AddressPage(q: seq<nat>)
    requires IsPath(q)
    ensures VirtualPage(AddressOf(q)) == q[0] * 0x800_0000 + q[1] * 0x4_0000 + q[2] * 512 + q[3]
  {
    var n := q[0] * 0x800_0000 + q[1] * 0x4_0000 + q[2] * 512 + q[3];
    assert n < 0x10_0000_0000 && AddressOf(q) / 4096 == n;
  }

  /** The promise about translations, path by path. */
  lemma MapsPaths(m: Maps, root: nat, v: nat, phys: word, flags: nat)
    requires |m.pages.words| == BM_SIZE && flags < 4096
    ensures MapsOnly(m, root, v, phys, flags) <==>
            forall q :: IsPath(q) ==>
              Walk(MapOne(m, root, v, phys, flags).mem, root, q, 0)
              == if q == PathOf(v) then Some(Leaf(LeafEntry(phys, flags), 3)) else Walk(m.mem, root, q, 0)
  {
    hide MapOne, PathOf, Walk, LeafEntry, VirtualPage, AddressOf;
    forall w: nat ensures VirtualPage(w) == VirtualPage(v) <==> PathOf(w) == PathOf(v) {
      PathIsPage(v, w);
    }
    if MapsOnly(m, root, v, phys, flags) {
      forall q | IsPath(q)
        ensures Walk(MapOne(m, root, v, phys, flags).mem, root, q, 0)
             == if q == PathOf(v) then Some(Leaf(LeafEntry(phys, flags), 3)) else Walk(m.mem, root, q, 0)
      {
        PathOfAddress(q);
        assert Translate(MapOne(m, root, v, phys, flags).mem, root, AddressOf(q)) == AfterMapping(m, root, v, phys, flags, AddressOf(q));
      }
    }
  }

  /** The path down to level `d`, then one index repeated. */
  function Straight(p: seq<nat>, d: nat, i: nat): (q: seq<nat>)
    requires IsPath(p) && d < 3 && i < 512
    ensures IsPath(q) && q[..d + 1] == p[..d + 1] && forall k :: d < k < 4 ==> q[k] == i
  {
    p[..d + 1] + seq(3 - d, _ => i)
  }

  /** Walking through page 0, linked to itself at index `p[2]`. */
  lemma ZeroWalk(mem: seq<word>, p: seq<nat>, leaf: word, d: nat, q: seq<nat>, depth: nat)
    requires IsPath(p) && IsPath(q) && d < 3 && 0 < depth <= 3 && PageIn(mem, 0) && Present(leaf)
    requires forall j: nat :: j < 512 ==> Entry(mem, 0, j) == ZeroPage(p, leaf, d, j)
    ensures Walk(mem, 0, q, depth) ==
            if q[depth] == p[3] then if depth == 3 || Large(leaf) then Some(Leaf(leaf, depth)) else Walk(mem, Frame(leaf), q, depth + 1)
            else if d < 2 && q[depth] == p[2] then if depth == 3 then Some(Leaf(3, 3)) else Walk(mem, 0, q, depth + 1)
            else None
  {
    hide Entry, Frame, Present, Large;
    assert q[depth] < 512;
    ZeroEntry();
    TableEntryFacts(0);
  }

  /** The frame that is mapped, read as a table, gives the leaf and nothing else. */
  ghost predicate FrameServes(mem: seq<word>, leaf: word, p: seq<nat>, d: nat)
    requires IsPath(p) && d < 2
  {
    forall q :: IsPath(q) && q[..d + 2] == p[..d + 2] ==>
      Walk(mem, Frame(leaf), q, d + 2) == if q == p then Some(Leaf(leaf, 3)) else None
  }

  /** The walks from page 0 are the promised ones. */
  ghost predicate ZeroServes(mem: seq<word>, leaf: word, p: seq<nat>, d: nat)
    requires IsPath(p) && d < 3
  {
    forall q :: IsPath(q) && q[..d + 1] == p[..d + 1] ==>
      Walk(mem, 0, q, d + 1) == if q == p then Some(Leaf(leaf, 3)) else None
  }

  lemma ServesIff(mem: seq<word>, p: seq<nat>, leaf: word, d: nat)
    requires IsPath(p) && d < 3 && PageIn(mem, 0) && Present(leaf)
    requires forall j: nat :: j < 512 ==> Entry(mem, 0, j) == ZeroPage(p, leaf, d, j)
    ensures ZeroServes(mem, leaf, p, d) <==>
            d == 2 || (p[2] == p[3] && (d == 0 ==> p[1] == p[3]) && !Large(leaf) && FrameServes(mem, leaf, p, d))
  {
    hide Entry, Frame, Present, Large, Walk, ZeroPage;
    if d < 2 && p[2] != p[3] {
      var q := Straight(p, d, p[2]);
      ZeroLoop(mem, p, leaf, d, q);
      assert Walk(mem, 0, q, d + 1) != None && q != p;
    } else if d == 0 && p[1] != p[3] {
      ZeroWalk(mem, p, leaf, d, p, 1);
      assert Walk(mem, 0, p, d + 1) == None;
    } else {
      forall q | IsPath(q) && q[..d + 1] == p[..d + 1]
        ensures Walk(mem, 0, q, d + 1) ==
                if q[..d + 2] != p[..d + 2] then None
                else if d == 2 || Large(leaf) then Some(Leaf(leaf, d + 1)) else Walk(mem, Frame(leaf), q, d + 2)
      {
        ZeroWalk(mem, p, leaf, d, q, d + 1);
        PrefixStep(p, q, d + 1);
      }
      if d == 2 { Whole(p); }
      if ZeroServes(mem, leaf, p, d) { assert Walk(mem, 0, p, d + 1) == Some(Leaf(leaf, 3)); }
      forall q | IsPath(q) && d < 2 && q[..d + 2] == p[..d + 2] ensures q[..d + 1] == p[..d + 1] {
        PrefixStep(p, q, d + 1);
      }
    }
  }

  lemma Whole(p: seq<nat>)
    requires IsPath(p)
    ensures forall q :: IsPath(q) ==> (q[..4] == p[..4] <==> q == p)
  {
    forall q | IsPath(q) ensures q[..4] == p[..4] <==> q == p {
      assert q[..4] == q && p[..4] == p;
    }
  }

  /** Page 0 reaches itself along its own index and is mapped there. */
  lemma ZeroLoop(mem: seq<word>, p: seq<nat>, leaf: word, d: nat, q: seq<nat>)
    requires IsPath(p) && d < 2 && PageIn(mem, 0) && Present(leaf) && p[2] != p[3] && q == Straight(p, d, p[2])
    requires forall j: nat :: j < 512 ==> Entry(mem, 0, j) == ZeroPage(p, leaf, d, j)
    ensures Walk(mem, 0, q, d + 1) == Some(Leaf(3, 3))
  {
    hide Entry, Frame, Present, Large, Walk, ZeroPage;
    if d == 0 { ZeroWalk(mem, p, leaf, d, q, 1); }
    ZeroWalk(mem, p, leaf, d, q, 2);
    ZeroWalk(mem, p, leaf, d, q, 3);
  }

  /** So mapping still does what it promises exactly when only the last table was
      missing, or the indices below the failed level are all the same and the frame
      that is mapped happens to serve as a table. */
  lemma MapsIffLastTable(m: Maps, root: nat, tables: map<nat, seq<nat>>, live: set<nat>, k: nat, v: nat, phys: word, flags: nat, d: nat)
    requires System(m, root, tables, live, k) && 0 !in tables && flags < 4096 && FirstFailure(m, root, PathOf(v), 0) == Some(d)
    ensures var p, leaf := PathOf(v), LeafEntry(phys, flags);
            MapsOnly(m, root, v, phys, flags) <==>
            d == 2 || (p[2] == p[3] && (d == 0 ==> p[1] == p[3]) && !Large(leaf) && FrameServes(MapOne(m, root, v, phys, flags).mem, leaf, p, d))
  {
    hide System, FirstFailure, MapOne, PathOf, Walk, LeafEntry, Frame, Large, Entry, ZeroPage, UpperSame, Extends, Outside, FrameServes;
    SystemSize(m, root, tables, live, k);
    var p, leaf, mem' := PathOf(v), LeafEntry(phys, flags), MapOne(m, root, v, phys, flags).mem;
    LeafEntryFacts(phys, flags);
    var _, _ := FailedPaths(m, root, tables, live, k, v, phys, flags, d);
    MapsPaths(m, root, v, phys, flags);
    ServesIff(mem', p, leaf, d);
    assert MapsOnly(m, root, v, phys, flags) <==> ZeroServes(mem', leaf, p, d) by {
      hide FrameServes;
    }
  }

  /** Where `v` leads afterwards; and when the last two indices differ, an address that
      led nowhere now maps page 0, the page that holds these entries. */
  lemma AfterFailure(m: Maps, root: nat, tables: map<nat, seq<nat>>, live: set<nat>, k: nat, v: nat, phys: word, flags: nat, d: nat)
    requires System(m, root, tables, live, k) && 0 !in tables && flags < 4096 && FirstFailure(m, root, PathOf(v), 0) == Some(d)
    ensures var p, leaf, mem' := PathOf(v), LeafEntry(phys, flags), MapOne(m, root, v, phys, flags).mem;
            && Translate(mem', root, v) ==
                 (if d == 2 || (p[2] != p[3] && (d == 0 ==> p[1] == p[2])) then Some(Leaf(leaf, 3))
                  else if p[d + 1] != p[3] then None
                  else if Large(leaf) then Some(Leaf(leaf, d + 1))
                  else Walk(mem', Frame(leaf), p, d + 2))
            && (d < 2 && p[2] != p[3] ==>
                  var w := AddressOf(Straight(p, d, p[2]));
                  Translate(m.mem, root, w) == None && Translate(mem', root, w) == Some(Leaf(3, 3)))
  {
    hide System, FirstFailure, MapOne, PathOf, Walk, LeafEntry, Frame, Large, Entry, ZeroPage, UpperSame, Extends, Outside, FrameServes, AddressOf, Present;
    SystemSize(m, root, tables, live, k);
    var p, leaf, mem' := PathOf(v), LeafEntry(phys, flags), MapOne(m, root, v, phys, flags).mem;
    LeafEntryFacts(phys, flags);
    var _, _ := FailedPaths(m, root, tables, live, k, v, phys, flags, d);
    ZeroWalk(mem', p, leaf, d, p, d + 1);
    if d < 2 { ZeroWalk(mem', p, leaf, d, p, d + 2); }
    ZeroWalk(mem', p, leaf, d, p, 3);
    if d < 2 && p[2] != p[3] {
      var q := Straight(p, d, p[2]);
      ZeroLoop(mem', p, leaf, d, q);
      PathOfAddress(q);
    }
  }

  // ----- how many pages are left -----

  /** Single pages can be taken `n` times and no more. */
  ghost predicate PagesLeft(st: Pages, n: nat)
    requires |st.words| == BM_SIZE
    decreases n
  {
    if n == 0 then AllocPages(st, 1).0 == 0
    else AllocPages(st, 1).0 != 0 && PagesLeft(AllocPages(st, 1).1, n - 1)
  }

  /** When the tables end at level `depth` and `n` pages are left, the first table that
      cannot be allocated is that of level `depth + n`. */
  lemma {:induction false} FailureLevel(m: Maps, root: nat, tables: map<nat, seq<nat>>, live: set<nat>, k: nat, a: nat, p: seq<nat>, depth: nat, n: nat)
    requires System(m, root, tables, live, k) && IsPath(p) && depth < 3 && OnPath(tables, a, p, depth)
    requires !Present(Entry(m.mem, a, p[depth])) && PagesLeft(m.pages, n)
    ensures FirstFailure(m, a, p, depth) == if depth + n < 3 then Some(depth + n) else None
    decreases n
  {
    hide AllocPages, Accounted, Tree, Entry, Frame, Present, Large, Descend;
    SystemTree(m, root, tables, live, k);
    TreePages(m.mem, root, tables);
    if n > 0 {
      var tables', live' := DescendNew(m, root, tables, live, k, a, p, depth);
      var (m', c) := Descend(m, a, p[depth]);
      DescendTakes(m, a, p[depth]);
      if depth < 2 {
        ZeroEntry();
        assert Entry(m'.mem, c, p[depth + 1]) == 0;
        FailureLevel(m', root, tables', live', k, c, p, depth + 1, n - 1);
      }
    }
  }

  lemma DescendTakes(m: Maps, a: nat, i: nat)
    requires |m.pages.words| == BM_SIZE && i < 512 && PageIn(m.mem, a) && !Present(Entry(m.mem, a, i))
    requires PageIn(m.mem, AllocPages(m.pages, 1).0)
    ensures Descend(m, a, i).0.pages == AllocPages(m.pages, 1).1
  {
    hide AllocPages, AddTable;
  }

  /** The allocator after everything but the last `n` pages has been taken at once. */
  ghost function AllBut(kernelEnd: nat, n: nat): Use
    requires KernelPages(kernelEnd) + n < MAX_PAGES
  {
    PageStep(Use(Initial(kernelEnd), {}), Take(MAX_PAGES - KernelPages(kernelEnd) - n))
  }

  lemma AllButLeaves(kernelEnd: nat, n: nat)
    requires kernelEnd > 0 && KernelPages(kernelEnd) + n < MAX_PAGES
    ensures var u := AllBut(kernelEnd, n);
            Accounted(u.pages, u.live, KernelPages(kernelEnd)) && PagesLeft(u.pages, n)
  {
    hide Initial, KernelPages, Accounted, PagesLeft, PageStep, AllocPages, Unused;
    var k, start := KernelPages(kernelEnd), Initial(kernelEnd);
    InitialAccounted(kernelEnd);
    InitialHint(kernelEnd);
    UnusedMeans({}, k, MAX_PAGES - k - n);
    TakesRun(start, {}, k, MAX_PAGES - k - n, k);
    var u := AllBut(kernelEnd, n);
    assert forall p: nat :: p in u.live <==> k <= p < MAX_PAGES - n;
    TopLeft(u.pages, u.live, k, n);
  }

  lemma {:induction false} TopLeft(st: Pages, live: set<nat>, k: nat, n: nat)
    requires Accounted(st, live, k) && k + n < MAX_PAGES && st.hint == MAX_PAGES - n
    requires forall p: nat :: p in live <==> k <= p < MAX_PAGES - n
    ensures PagesLeft(st, n)
    decreases n
  {
    hide AllocPages, Unused;
    AllocPagesLowest(st, live, k, 1);
    if n > 0 {
      UnusedMeans(live, st.hint, 1);
      TakesRun(st, live, k, 1, st.hint);
      var u := PageStep(Use(st, live), Take(1));
      assert u.pages == AllocPages(st, 1).1;
      TopLeft(u.pages, u.live, k, n - 1);
    }
  }

  // ----- the address space of the boot code -----

  /** Three tables in a row; the last maps the first gigabyte to itself by 512 large
      pages. */
  function BootEntry(root: nat, level: nat, i: nat): word
    requires root < 0x4000_0000 && level < 3 && i < 512
  {
    if level == 2 then i * 0x20_0000 + 0x83
    else if i == 0 then root + (level + 1) * 4096 + 3
    else 0
  }

  predicate BootEntryAt(mem: seq<word>, root: nat, level: nat, i: nat)
    requires root < 0x4000_0000 && level < 3 && i < 512
  {
    PageIn(mem, root + level * 4096) && Entry(mem, root + level * 4096, i) == BootEntry(root, level, i)
  }

  ghost predicate BootTables(mem: seq<word>, root: nat) {
    && |mem| == CELLS && root % PAGE == 0 && root < 0x4000_0000
    && forall level: nat, i: nat :: level < 3 && i < 512 ==> BootEntryAt(mem, root, level, i)
  }

  function BootCell(root: nat, n: nat): word
    requires root % PAGE == 0 && root < 0x4000_0000
  {
    if root / 8 <= n < root / 8 + 1536 then BootEntry(root, (n - root / 8) / 512, (n - root / 8) % 512) else 0
  }

  function BootMemory(root: nat): (r: seq<word>)
    requires root % PAGE == 0 && root < 0x4000_0000
  {
    seq(CELLS, n requires n >= 0 => BootCell(root, n))
  }

  lemma BootCellAt(root: nat, level: nat, i: nat)
    requires root % PAGE == 0 && root < 0x4000_0000 && level < 3 && i < 512
    ensures (root + level * 4096) % PAGE == 0 && (root + level * 4096) / 8 + i < CELLS
    ensures BootCell(root, (root + level * 4096) / 8 + i) == BootEntry(root, level, i)
  {
    hide BootEntry;
    var n := level * 512 + i;
    assert (root + level * 4096) / 8 + i == root / 8 + n;
    assert n / 512 == level && n % 512 == i;
  }

  lemma BootMemoryTables(root: nat)
    requires root % PAGE == 0 && root < 0x4000_0000
    ensures BootTables(BootMemory(root), root)
  {
    hide BootEntry, BootCell;
    forall level: nat, i: nat | level < 3 && i < 512
      ensures BootEntryAt(BootMemory(root), root, level, i)
    {
      BootCellAt(root, level, i);
    }
  }

  function BootMap(root: nat): map<nat, seq<nat>> {
    map[root := [], root + 4096 := [0], root + 8192 := [0, 0]]
  }

  lemma BootEntryFacts(root: nat, level: nat, i: nat)
    requires root % PAGE == 0 && root < 0x4000_0000 && level < 3 && i < 512
    ensures level == 2 ==> Present(BootEntry(root, level, i)) && Large(BootEntry(root, level, i)) && Frame(BootEntry(root, level, i)) == i * 0x20_0000
    ensures level < 2 ==> (Present(BootEntry(root, level, i)) <==> i == 0)
    ensures level < 2 && i == 0 ==>
              Links(BootEntry(root, level, i), level) && Frame(BootEntry(root, level, i)) == root + (level + 1) * 4096
  {
    var e := BootEntry(root, level, i);
    if level == 2 {
      assert e / 128 == i * 16384 + 1 && e / 4096 == i * 512;
    } else if i == 0 {
      TableEntryFacts(root + (level + 1) * 4096);
    } else {
      ZeroEntry();
    }
  }

  lemma BootSystem(m: Maps, root: nat, live: set<nat>, k: nat)
    requires BootTables(m.mem, root) && Accounted(m.pages, live, k) && (root + 8192) / PAGE < k
    ensures System(m, root, BootMap(root), live, k)
  {
    hide Accounted, Entry, Present, Large, Frame, BootEntry;
    AccountedSize(m.pages, live, k);
    var t := BootMap(root);
    forall a | a in t ensures PageIn(m.mem, a) && |t[a]| <= 3 {
      assert a == root + |t[a]| * 4096;
      assert BootEntryAt(m.mem, root, |t[a]|, 0);
    }
    forall a, i: nat | a in t && i < 512 && |t[a]| < 3 && Links(Entry(m.mem, a, i), |t[a]|)
      ensures var c := Frame(Entry(m.mem, a, i)); c in t && t[c] == t[a] + [i]
    {
      assert a == root + |t[a]| * 4096;
      assert BootEntryAt(m.mem, root, |t[a]|, i);
      BootEntryFacts(root, |t[a]|, i);
    }
  }

  /** The first gigabyte lies in large pages; nothing else translates. */
  lemma BootTranslates(mem: seq<word>, root: nat, v: nat)
    requires BootTables(mem, root)
    ensures var p := PathOf(v);
            Translate(mem, root, v) == if p[0] == 0 && p[1] == 0 then Some(Leaf(BootEntry(root, 2, p[2]), 2)) else None
  {
    hide Entry, Present, Large, Frame, BootEntry, PathOf;
    var p := PathOf(v);
    forall level: nat | level < 3 ensures BootEntryAt(mem, root, level, p[level]) {
      assert p[level] < 512;
    }
    BootEntryFacts(root, 0, p[0]);
    BootEntryFacts(root, 1, p[1]);
    BootEntryFacts(root, 2, p[2]);
    assert root + 0 * 4096 == root;
  }

  /** In the address space the kernel boots with, mapping a page works exactly for the
      addresses outside the first gigabyte. */
  lemma BootMapsIff(m: Maps, root: nat, live: set<nat>, k: nat, v: nat, phys: word, flags: nat)
    requires BootTables(m.mem, root) && Accounted(m.pages, live, k) && (root + 8192) / PAGE < k && flags < 4096
    requires |m.pages.words| == BM_SIZE && FirstFailure(m, root, PathOf(v), 0) == None
    ensures MapsOnly(m, root, v, phys, flags) <==> VirtualPage(v) >= 0x4_0000
  {
    hide Accounted, FirstFailure, MapsOnly, BootEntry, BootTables, PathOf, VirtualPage, Translate;
    BootSystem(m, root, live, k);
    MapsIffNoLargePage(m, root, BootMap(root), live, k, v, phys, flags);
    BootTranslates(m.mem, root, v);
    PathDigits(v);
  }

  /** Mapping inside the first gigabyte overwrites one cell at the start of the large
      page and changes no translation. */
  lemma BootOverwrites(m: Maps, root: nat, live: set<nat>, k: nat, v: nat, phys: word, flags: nat)
    requires BootTables(m.mem, root) && Accounted(m.pages, live, k) && (root + 8192) / PAGE < k && flags < 4096
    requires |m.pages.words| == BM_SIZE && VirtualPage(v) < 0x4_0000 && PathOf(v)[2] * 0x20_0000 !in BootMap(root)
    ensures var p, m' := PathOf(v), MapOne(m, root, v, phys, flags);
            && m' == m.(mem := m.mem[p[2] * 0x4_0000 + p[3] := LeafEntry(phys, flags)])
            && forall w: nat :: Translate(m'.mem, root, w) == Translate(m.mem, root, w)
  {
    hide Accounted, BootEntry, PathOf, VirtualPage, Translate, MapOne, Tree, Entry, Large, Frame, Present, LeafEntry;
    BootSystem(m, root, live, k);
    PathDigits(v);
    var p := PathOf(v);
    forall level: nat | level < 3 ensures BootEntryAt(m.mem, root, level, p[level]) {
      assert p[level] < 512;
    }
    BootEntryFacts(root, 0, p[0]);
    BootEntryFacts(root, 1, p[1]);
    BootEntryFacts(root, 2, p[2]);
    assert root + 0 * 4096 == root;
    assert PageIn(m.mem, p[2] * 0x20_0000);
    LargePageOverwritten(m, root, BootMap(root), live, k, v, phys, flags, root + 4096, root + 8192, BootEntry(root, 2, p[2]));
  }

  lemma NoZero(root: nat)
    requires root > 0
    ensures 0 !in BootMap(root)
  {
  }

  lemma BootEmptyBelow(mem: seq<word>, root: nat, i: nat)
    requires BootTables(mem, root) && 0 < i < 512
    ensures PageIn(mem, root) && !Present(Entry(mem, root, i))
  {
    hide Entry, Present;
    assert BootEntryAt(mem, root, 0, i);
    BootEntryFacts(root, 0, i);
  }

  /** One page of the first gigabyte mapped right after booting: the entry lands in the
      sixth cell of physical memory. */
  lemma BootExample()
    ensures var m := Maps(BootMemory(0x10_1000), Initial(0x20_0000));
            var m' := MapOne(m, 0x10_1000, 0x5000, 0x40_0000, 2);
            m' == m.(mem := m.mem[5 := 0x40_0003]) && Translate(m'.mem, 0x10_1000, 0x5000) == Some(Leaf(0x83, 2))
  {
    hide BootMemory, Initial, MapOne, Accounted, BootTables, Translate, BootMap;
    var root, m := 0x10_1000, Maps(BootMemory(0x10_1000), Initial(0x20_0000));
    BootMemoryTables(root);
    InitialAccounted(0x20_0000);
    AccountedSize(m.pages, {}, 0x200);
    assert PathOf(0x5000) == [0, 0, 0, 5];
    NoZero(root);
    BootOverwrites(m, root, {}, 0x200, 0x5000, 0x40_0000, 2);
    BootTranslates(m.mem, root, 0x5000);
  }

  /** The pages run out: with none left a page outside the first gigabyte is not
      mapped, with one left it is, and page 0 becomes writable behind its neighbour;
      with two left, page 0 is its last table. */
  lemma PagesRunOut(n: nat, phys: word, flags: nat)
    requires n < 3 && flags < 4096
    ensures var m, v := Maps(BootMemory(0x10_1000), AllBut(0x20_0000, n).pages), AddressOf([1, 1, 2, 3]);
            && |m.pages.words| == BM_SIZE && FirstFailure(m, 0x10_1000, PathOf(v), 0) == Some(n)
            && (MapsOnly(m, 0x10_1000, v, phys, flags) <==> n == 2)
            && Translate(MapOne(m, 0x10_1000, v, phys, flags).mem, 0x10_1000, v)
               == (if n == 0 then None else Some(Leaf(LeafEntry(phys, flags), 3)))
            && (n < 2 ==> Translate(MapOne(m, 0x10_1000, v, phys, flags).mem, 0x10_1000, AddressOf([1, if n == 0 then 2 else 1, 2, 2])) == Some(Leaf(3, 3)))
  {
    hide BootMemory, AllBut, MapOne, Accounted, BootTables, BootMap, Tree, PagesLeft, AddressOf, PathOf, MapsOnly, LeafEntry, Entry, Present, FrameServes, Walk, FirstFailure;
    var root, p := 0x10_1000, [1, 1, 2, 3];
    var u, v := AllBut(0x20_0000, n), AddressOf(p);
    var m := Maps(BootMemory(root), u.pages);
    PathOfAddress(p);
    BootMemoryTables(root);
    AllButLeaves(0x20_0000, n);
    BootSystem(m, root, u.live, 0x200);
    BootEmptyBelow(m.mem, root, 1);
    RootAt(m, root, BootMap(root), u.live, 0x200, p);
    FailureLevel(m, root, BootMap(root), u.live, 0x200, root, p, 0, n);
    NoZero(root);
    MapsIffLastTable(m, root, BootMap(root), u.live, 0x200, v, phys, flags, n);
    AfterFailure(m, root, BootMap(root), u.live, 0x200, v, phys, flags, n);
    if n < 2 {
      assert Straight(p, n, 2) == [1, if n == 0 then 2 else 1, 2, 2];
    }
  }
}
