/** Mapping a page: walking the four levels and creating the missing tables. */
module Vmm {
  import opened Words
  import opened Options
  import opened PageTables
  import opened Pmm

  /** Memory and the physical pages in use. */
  datatype Maps = Maps(mem: seq<word>, pages: Pages)

  /** The table below entry `i` of table `a`, created when the entry is empty. */
  ghost function Descend(m: Maps, a: nat, i: nat): (r: (Maps, nat))
    requires |m.pages.words| == BM_SIZE && i < 512
    ensures |r.0.pages.words| == BM_SIZE && |r.0.mem| == |m.mem|
  {
    if !PageIn(m.mem, a) then (m, 0)
    else if Present(Entry(m.mem, a, i)) then (m, Frame(Entry(m.mem, a, i)))
    else
      var (page, st) := AllocPages(m.pages, 1);
      if PageIn(m.mem, page) then (Maps(AddTable(m.mem, a, i, page), st), page) else (m, 0)
  }

  ghost function MapFrom(m: Maps, a: nat, p: seq<nat>, leaf: word, depth: nat): (r: Maps)
    requires |m.pages.words| == BM_SIZE && IsPath(p) && depth <= 3
    ensures |r.pages.words| == BM_SIZE && |r.mem| == |m.mem|
    decreases 3 - depth
  {
    if depth == 3 then if PageIn(m.mem, a) then m.(mem := WithEntry(m.mem, a, p[3], leaf)) else m
    else
      var (m', c) := Descend(m, a, p[depth]);
      MapFrom(m', c, p, leaf, depth + 1)
  }

  /** The walk meets no large page and page allocation succeeds where it is needed. */
  ghost predicate Ready(m: Maps, a: nat, p: seq<nat>, depth: nat)
    requires |m.pages.words| == BM_SIZE && IsPath(p) && depth <= 3
    decreases 3 - depth
  {
    depth == 3 ||
    (&& PageIn(m.mem, a)
     && (Present(Entry(m.mem, a, p[depth])) ==> Links(Entry(m.mem, a, p[depth]), depth))
     && (!Present(Entry(m.mem, a, p[depth])) ==> AllocPages(m.pages, 1).0 != 0)
     && var (m', c) := Descend(m, a, p[depth]);
        Ready(m', c, p, depth + 1))
  }

  /** The tables form a tree of pages that are in use or belong to the kernel. */
  ghost predicate System(m: Maps, root: nat, tables: map<nat, seq<nat>>, live: set<nat>, k: nat) {
    && |m.mem| == CELLS && |m.pages.words| == BM_SIZE && Accounted(m.pages, live, k) && Tree(m.mem, root, tables)
    && forall a :: a in tables ==> a / PAGE in live || a / PAGE < k
  }

  /** Nothing outside the table pages changes. */
  ghost predicate Outside(mem: seq<word>, mem': seq<word>, tables: map<nat, seq<nat>>) {
    |mem| == |mem'| && forall b, j: nat :: PageIn(mem, b) && b !in tables && j < 512 ==> Entry(mem', b, j) == Entry(mem, b, j)
  }

  /** Entries of tables above level `depth` are the same. */
  ghost predicate UpperSame(mem: seq<word>, mem': seq<word>, tables: map<nat, seq<nat>>, depth: nat) {
    && |mem| == |mem'|
    && forall b, j: nat :: b in tables && |tables[b]| < depth && j < 512 && PageIn(mem, b) ==> Entry(mem', b, j) == Entry(mem, b, j)
  }

  ghost predicate Extends(small: map<nat, seq<nat>>, big: map<nat, seq<nat>>) {
    forall a :: a in small ==> a in big && big[a] == small[a]
  }

  /** Translations of all paths other than `p` are the same. */
  ghost predicate OthersSame(mem: seq<word>, mem': seq<word>, root: nat, p: seq<nat>) {
    forall q :: IsPath(q) && q != p ==> Walk(mem', root, q, 0) == Walk(mem, root, q, 0)
  }

  // ----- one level -----

  lemma FreshPage(m: Maps, root: nat, tables: map<nat, seq<nat>>, live: set<nat>, k: nat)
    requires System(m, root, tables, live, k) && AllocPages(m.pages, 1).0 != 0
    ensures var (page, st) := AllocPages(m.pages, 1);
            && PageIn(m.mem, page) && page !in tables
            && Accounted(st, live + {page / PAGE}, k)
  {
    hide AllocPages, Accounted, Tree;
    AllocPagesLowest(m.pages, live, k, 1);
    var page := AllocPages(m.pages, 1).0;
    var s := page / PAGE_SIZE;
    RunMembers(s, 1);
    assert RunOf(s, 1) == {s};
    assert s in RunOf(s, 1);
  }

  lemma DescendOld(m: Maps, root: nat, tables: map<nat, seq<nat>>, live: set<nat>, k: nat, a: nat, p: seq<nat>, depth: nat)
    requires System(m, root, tables, live, k) && IsPath(p) && depth < 3 && OnPath(tables, a, p, depth)
    requires Ready(m, a, p, depth) && Present(Entry(m.mem, a, p[depth]))
    ensures Descend(m, a, p[depth]) == (m, Frame(Entry(m.mem, a, p[depth])))
    ensures OnPath(tables, Frame(Entry(m.mem, a, p[depth])), p, depth + 1)
  {
    hide Tree, Accounted, Walk, Frame;
    TreeChild(m.mem, root, tables, a, p, depth);
  }

  lemma DescendNew(m: Maps, root: nat, tables: map<nat, seq<nat>>, live: set<nat>, k: nat, a: nat, p: seq<nat>, depth: nat)
    returns (tables': map<nat, seq<nat>>, live': set<nat>)
    requires System(m, root, tables, live, k) && IsPath(p) && depth < 3 && OnPath(tables, a, p, depth) && PageIn(m.mem, a)
    requires !Present(Entry(m.mem, a, p[depth])) && AllocPages(m.pages, 1).0 != 0
    ensures var (m', c) := Descend(m, a, p[depth]);
            && System(m', root, tables', live', k) && OnPath(tables', c, p, depth + 1) && PageIn(m'.mem, a)
            && Links(Entry(m'.mem, a, p[depth]), depth) && Frame(Entry(m'.mem, a, p[depth])) == c
            && c == AllocPages(m.pages, 1).0 && (forall b :: b in tables' <==> b in tables || b == c)
            && PageIn(m'.mem, c) && (forall j: nat :: j < 512 ==> Entry(m'.mem, c, j) == 0)
            && Extends(tables, tables') && live <= live'
            && Outside(m.mem, m'.mem, tables') && UpperSame(m.mem, m'.mem, tables, depth)
            && forall q :: IsPath(q) ==> Walk(m'.mem, root, q, 0) == Walk(m.mem, root, q, 0)
  {
    hide Accounted, Tree, AllocPages, Walk, AddTable, Entry, Links, Frame;
    var i := p[depth];
    var (page, st) := AllocPages(m.pages, 1);
    FreshPage(m, root, tables, live, k);
    TreePages(m.mem, root, tables);
    tables', live' := tables[page := tables[a] + [i]], live + {page / PAGE};
    AddTableTree(m.mem, root, tables, a, i, page);
    assert p[..depth] + [i] == p[..depth + 1];
    AddTableEntry(m.mem, a, i, page, a, i);
    TableLinks(page, depth);
    forall b, j: nat | PageIn(m.mem, b) && j < 512
      ensures PageIn(AddTable(m.mem, a, i, page), b)
      ensures Entry(AddTable(m.mem, a, i, page), b, j)
           == if a == b && i == j then TableEntry(page) else if b == page then 0 else Entry(m.mem, b, j)
    {
      AddTableEntry(m.mem, a, i, page, b, j);
    }
    FreshEmpty(m, a, i);
    forall q | IsPath(q) ensures Walk(AddTable(m.mem, a, i, page), root, q, 0) == Walk(m.mem, root, q, 0) {
      AddTableWalk(m.mem, root, tables, a, i, page, root, q, 0);
    }
  }

  /** A table made for an empty entry is empty. */
  lemma FreshEmpty(m: Maps, a: nat, i: nat)
    requires |m.pages.words| == BM_SIZE && i < 512 && PageIn(m.mem, a) && !Present(Entry(m.mem, a, i))
    requires var page := AllocPages(m.pages, 1).0; PageIn(m.mem, page) && page != a
    ensures var (m', c) := Descend(m, a, i);
            c == AllocPages(m.pages, 1).0 && PageIn(m'.mem, c) && forall j: nat :: j < 512 ==> Entry(m'.mem, c, j) == 0
  {
    hide AllocPages, AddTable, Entry, Present;
    var (m', c) := Descend(m, a, i);
    forall j: nat | j < 512 ensures PageIn(m'.mem, c) && Entry(m'.mem, c, j) == 0 {
      AddTableEntry(m.mem, a, i, c, c, j);
    }
  }

  lemma TableLinks(page: nat, depth: nat)
    requires page % PAGE == 0 && page < 8 * CELLS
    ensures Links(TableEntry(page), depth) && Frame(TableEntry(page)) == page
  {
    TableEntryFacts(page);
  }

  // ----- all levels -----

  /** What mapping does, for the tables from level `depth` down. */
  ghost predicate Mapped(m: Maps, m': Maps, root: nat, tables: map<nat, seq<nat>>, tables': map<nat, seq<nat>>, a: nat, p: seq<nat>, leaf: word, depth: nat)
    requires IsPath(p) && depth <= 3
  {
    && Extends(tables, tables') && Outside(m.mem, m'.mem, tables') && UpperSame(m.mem, m'.mem, tables, depth)
    && OthersSame(m.mem, m'.mem, root, p) && Walk(m'.mem, a, p, depth) == Some(Leaf(leaf, 3))
  }

  lemma {:induction false} MapFromRefines(m: Maps, root: nat, tables: map<nat, seq<nat>>, live: set<nat>, k: nat, a: nat, p: seq<nat>, leaf: word, depth: nat)
    returns (tables': map<nat, seq<nat>>, live': set<nat>)
    requires System(m, root, tables, live, k) && IsPath(p) && depth <= 3 && OnPath(tables, a, p, depth)
    requires Ready(m, a, p, depth) && Present(leaf)
    ensures var m' := MapFrom(m, a, p, leaf, depth);
            System(m', root, tables', live', k) && live <= live' && Mapped(m, m', root, tables, tables', a, p, leaf, depth)
    decreases 3 - depth
  {
    hide Accounted, Tree, AllocPages, Walk, Entry, Links, Frame, Descend, WithEntry, Mapped, Present;
    TreePages(m.mem, root, tables);
    if depth == 3 {
      tables', live' := tables, live;
      LeafMapped(m, root, tables, live, k, a, p, leaf);
    } else {
      var (m1, c) := Descend(m, a, p[depth]);
      var tables1, live1 := tables, live;
      if Present(Entry(m.mem, a, p[depth])) {
        DescendOld(m, root, tables, live, k, a, p, depth);
      } else {
        tables1, live1 := DescendNew(m, root, tables, live, k, a, p, depth);
      }
      tables', live' := MapFromRefines(m1, root, tables1, live1, k, c, p, leaf, depth + 1);
      var m' := MapFrom(m, a, p, leaf, depth);
      StepMapped(m, m1, m', root, tables, tables1, tables', a, c, p, leaf, depth);
    }
  }

  lemma LeafMapped(m: Maps, root: nat, tables: map<nat, seq<nat>>, live: set<nat>, k: nat, a: nat, p: seq<nat>, leaf: word)
    requires System(m, root, tables, live, k) && IsPath(p) && OnPath(tables, a, p, 3) && PageIn(m.mem, a) && Present(leaf)
    ensures var m' := m.(mem := WithEntry(m.mem, a, p[3], leaf));
            System(m', root, tables, live, k) && Mapped(m, m', root, tables, tables, a, p, leaf, 3)
  {
    hide Accounted, Tree, Entry, Links, Frame, WithEntry, Present;
    var mem' := WithEntry(m.mem, a, p[3], leaf);
    LeafTree(m.mem, root, tables, a, p[3], leaf);
    forall b, j: nat | PageIn(m.mem, b) && j < 512
      ensures Entry(mem', b, j) == if a == b && p[3] == j then leaf else Entry(m.mem, b, j)
    {
      EntryAfterWrite(m.mem, a, p[3], leaf, b, j);
    }
    TreePages(m.mem, root, tables);
    forall q | IsPath(q) && q != p ensures Walk(mem', root, q, 0) == Walk(m.mem, root, q, 0) {
      LeafWalk(m.mem, root, tables, a, p, leaf, root, q, 0);
    }
  }

  lemma StepMapped(m: Maps, m1: Maps, m': Maps, root: nat, tables: map<nat, seq<nat>>, tables1: map<nat, seq<nat>>, tables': map<nat, seq<nat>>,
                   a: nat, c: nat, p: seq<nat>, leaf: word, depth: nat)
    requires IsPath(p) && depth < 3 && OnPath(tables, a, p, depth) && PageIn(m1.mem, a) && |m.mem| == |m1.mem|
    requires Links(Entry(m1.mem, a, p[depth]), depth) && Frame(Entry(m1.mem, a, p[depth])) == c
    requires Extends(tables, tables1) && Outside(m.mem, m1.mem, tables1) && UpperSame(m.mem, m1.mem, tables, depth)
    requires forall q :: IsPath(q) ==> Walk(m1.mem, root, q, 0) == Walk(m.mem, root, q, 0)
    requires Mapped(m1, m', root, tables1, tables', c, p, leaf, depth + 1)
    ensures Mapped(m, m', root, tables, tables', a, p, leaf, depth)
  {
    hide Entry, Frame, Large;
    assert Entry(m'.mem, a, p[depth]) == Entry(m1.mem, a, p[depth]);
  }

  // ----- the flat map -----

  ghost function MapOne(m: Maps, root: nat, v: nat, phys: word, flags: nat): (r: Maps)
    requires |m.pages.words| == BM_SIZE && flags < 4096
    ensures |r.pages.words| == BM_SIZE
  {
    MapFrom(m, root, PathOf(v), LeafEntry(phys, flags), 0)
  }

  /** The flat map after one update. */
  function AfterMapping(m: Maps, root: nat, v: nat, phys: word, flags: nat, w: nat): Option<Leaf>
    requires flags < 4096
  {
    if VirtualPage(w) == VirtualPage(v) then Some(Leaf(LeafEntry(phys, flags), 3)) else Translate(m.mem, root, w)
  }

  /** The page tables refine a flat map: afterwards every address of the page of `v`
      translates to the given frame and flags, every other page to what it did
      before, the tables are still a tree, and no memory outside them changed. */
  lemma MapPageRefines(m: Maps, root: nat, tables: map<nat, seq<nat>>, live: set<nat>, k: nat, v: nat, phys: word, flags: nat)
    returns (tables': map<nat, seq<nat>>, live': set<nat>)
    requires System(m, root, tables, live, k) && flags < 4096 && Ready(m, root, PathOf(v), 0)
    ensures var m' := MapOne(m, root, v, phys, flags);
            && System(m', root, tables', live', k) && Extends(tables, tables') && live <= live'
            && Outside(m.mem, m'.mem, tables')
            && forall w :: Translate(m'.mem, root, w) == AfterMapping(m, root, v, phys, flags, w)
  {
    hide System, Ready, Walk, MapFrom, PathOf, VirtualPage, LeafEntry, Extends, Outside;
    LeafEntryFacts(phys, flags);
    SystemSize(m, root, tables, live, k);
    var p := PathOf(v);
    RootAt(m, root, tables, live, k, p);
    tables', live' := MapFromRefines(m, root, tables, live, k, root, p, LeafEntry(phys, flags), 0);
    forall w
      ensures Translate(MapOne(m, root, v, phys, flags).mem, root, w) == AfterMapping(m, root, v, phys, flags, w)
    {
      PathIsPage(v, w);
    }
  }

  lemma SystemSize(m: Maps, root: nat, tables: map<nat, seq<nat>>, live: set<nat>, k: nat)
    requires System(m, root, tables, live, k)
    ensures |m.mem| == CELLS && |m.pages.words| == BM_SIZE
  {
  }

  lemma RootAt(m: Maps, root: nat, tables: map<nat, seq<nat>>, live: set<nat>, k: nat, p: seq<nat>)
    requires System(m, root, tables, live, k) && IsPath(p)
    ensures OnPath(tables, root, p, 0)
  {
    hide Accounted;
    TreePages(m.mem, root, tables);
  }

  // ----- where it goes wrong -----

  /** The walk of `v` meets a large page at the third level, as the boot code maps the
      first gigabyte. */
  ghost predicate MeetsLarge(m: Maps, root: nat, v: nat, b: nat, c: nat, e: word) {
    var p := PathOf(v);
    && PageIn(m.mem, root) && Links(Entry(m.mem, root, p[0]), 0) && b == Frame(Entry(m.mem, root, p[0]))
    && PageIn(m.mem, b) && Links(Entry(m.mem, b, p[1]), 1) && c == Frame(Entry(m.mem, b, p[1]))
    && PageIn(m.mem, c) && e == Entry(m.mem, c, p[2]) && Present(e) && Large(e)
  }

  /** Then the large page itself is taken for a table: one cell of its memory is
      overwritten, and no address translates differently from before. */
  lemma LargePageOverwritten(m: Maps, root: nat, tables: map<nat, seq<nat>>, live: set<nat>, k: nat, v: nat, phys: word, flags: nat,
                             b: nat, c: nat, e: word)
    requires System(m, root, tables, live, k) && flags < 4096 && MeetsLarge(m, root, v, b, c, e)
    requires PageIn(m.mem, Frame(e)) && Frame(e) !in tables
    ensures MapOne(m, root, v, phys, flags) == m.(mem := WithEntry(m.mem, Frame(e), PathOf(v)[3], LeafEntry(phys, flags)))
    ensures forall w: nat :: Translate(MapOne(m, root, v, phys, flags).mem, root, w) == Translate(m.mem, root, w)
    ensures Translate(m.mem, root, v) == Some(Leaf(e, 2))
  {
    hide System, PathOf, Frame, LeafEntry, Entry, WithEntry, Accounted;
    SystemSize(m, root, tables, live, k);
    var p, leaf := PathOf(v), LeafEntry(phys, flags);
    var m' := m.(mem := WithEntry(m.mem, Frame(e), p[3], leaf));
    assert Descend(m, c, p[2]) == (m, Frame(e)) && Descend(m, b, p[1]) == (m, c) && Descend(m, root, p[0]) == (m, b);
    FourLevels(m, m, m, m, root, b, c, Frame(e), p, leaf);
    SystemTree(m, root, tables, live, k);
    forall w: nat ensures Translate(m'.mem, root, w) == Translate(m.mem, root, w) {
      RootAt(m, root, tables, live, k, PathOf(w));
      ForeignWrite(m.mem, root, tables, Frame(e), p[3], leaf, root, PathOf(w), 0);
    }
    assert Walk(m.mem, c, p, 2) == Some(Leaf(e, 2));
    assert Walk(m.mem, b, p, 1) == Walk(m.mem, c, p, 2);
  }

  lemma SystemTree(m: Maps, root: nat, tables: map<nat, seq<nat>>, live: set<nat>, k: nat)
    requires System(m, root, tables, live, k)
    ensures Tree(m.mem, root, tables)
  {
  }

  /** A cell of a page that is no table plays no part in any walk. */
  lemma {:induction false} ForeignWrite(mem: seq<word>, root: nat, tables: map<nat, seq<nat>>, f: nat, i: nat, e: word, a: nat, q: seq<nat>, depth: nat)
    requires Tree(mem, root, tables) && PageIn(mem, f) && f !in tables && i < 512
    requires IsPath(q) && depth <= 3 && OnPath(tables, a, q, depth)
    ensures Walk(WithEntry(mem, f, i, e), a, q, depth) == Walk(mem, a, q, depth)
    decreases 3 - depth
  {
    hide Tree, Entry, WithEntry, Frame, Present, Large;
    TreePages(mem, root, tables);
    EntryAfterWrite(mem, f, i, e, a, q[depth]);
    var g := Entry(mem, a, q[depth]);
    if depth < 3 && Links(g, depth) {
      TreeChild(mem, root, tables, a, q, depth);
      ForeignWrite(mem, root, tables, f, i, e, Frame(g), q, depth + 1);
    }
  }

  // ----- a first address space -----

  /** A cleared root page that is in use or belongs to the kernel is an address space
      that translates nothing. */
  lemma EmptyRoot(m: Maps, root: nat, live: set<nat>, k: nat)
    requires |m.mem| == CELLS && Accounted(m.pages, live, k) && PageIn(m.mem, root)
    requires root / PAGE in live || root / PAGE < k
    requires forall i: nat :: i < 512 ==> Entry(m.mem, root, i) == 0
    ensures System(m, root, map[root := []], live, k) && forall v: nat :: Translate(m.mem, root, v) == None
  {
    hide Accounted, PathOf;
    AccountedSize(m.pages, live, k);
    ZeroLinks();
    ZeroEntry();
    forall v: nat ensures Translate(m.mem, root, v) == None {
      assert Entry(m.mem, root, PathOf(v)[0]) == 0;
    }
  }

  lemma AccountedSize(st: Pages, live: set<nat>, k: nat)
    requires Accounted(st, live, k)
    ensures |st.words| == BM_SIZE
  {
  }

  // ----- runs -----

  datatype Request = Request(v: nat, phys: word, flags: nat)

  ghost function MapAll(m: Maps, root: nat, reqs: seq<Request>): (r: Maps)
    requires |m.pages.words| == BM_SIZE && forall i :: 0 <= i < |reqs| ==> reqs[i].flags < 4096
    ensures |r.pages.words| == BM_SIZE
    decreases |reqs|
  {
    if reqs == [] then m
    else
      var last := reqs[|reqs| - 1];
      MapOne(MapAll(m, root, reqs[..|reqs| - 1]), root, last.v, last.phys, last.flags)
  }

  ghost predicate AllReady(m: Maps, root: nat, reqs: seq<Request>)
    requires |m.pages.words| == BM_SIZE && forall i :: 0 <= i < |reqs| ==> reqs[i].flags < 4096
    decreases |reqs|
  {
    reqs != [] ==>
      AllReady(m, root, reqs[..|reqs| - 1]) && Ready(MapAll(m, root, reqs[..|reqs| - 1]), root, PathOf(reqs[|reqs| - 1].v), 0)
  }

  /** The latest request for the page of `w`, or what it translated to before. */
  function Latest(reqs: seq<Request>, w: nat, before: Option<Leaf>): Option<Leaf>
    requires forall i :: 0 <= i < |reqs| ==> reqs[i].flags < 4096
    decreases |reqs|
  {
    if reqs == [] then before
    else
      var last := reqs[|reqs| - 1];
      if VirtualPage(w) == VirtualPage(last.v) then Some(Leaf(LeafEntry(last.phys, last.flags), 3))
      else Latest(reqs[..|reqs| - 1], w, before)
  }

  /** Over every run of mappings the tables stay a tree and every address translates
      as the latest mapping of its page says. */
  lemma {:induction false} RunsRefineMap(m: Maps, root: nat, tables: map<nat, seq<nat>>, live: set<nat>, k: nat, reqs: seq<Request>)
    returns (tables': map<nat, seq<nat>>, live': set<nat>)
    requires System(m, root, tables, live, k) && forall i :: 0 <= i < |reqs| ==> reqs[i].flags < 4096
    requires AllReady(m, root, reqs)
    ensures System(MapAll(m, root, reqs), root, tables', live', k)
    ensures forall w :: Translate(MapAll(m, root, reqs).mem, root, w) == Latest(reqs, w, Translate(m.mem, root, w))
    decreases |reqs|
  {
    hide System, Ready, MapOne, PathOf, VirtualPage, LeafEntry, Extends, Outside, Translate;
    tables', live' := tables, live;
    SystemSize(m, root, tables, live, k);
    if reqs != [] {
      var front, last := reqs[..|reqs| - 1], reqs[|reqs| - 1];
      var tables1, live1 := RunsRefineMap(m, root, tables, live, k, front);
      tables', live' := MapPageRefines(MapAll(m, root, front), root, tables1, live1, k, last.v, last.phys, last.flags);
    }
  }

  // ----- the code -----

  /** Every table on the way down lies in memory. */
  ghost predicate InMemory(m: Maps, a: nat, p: seq<nat>, depth: nat)
    requires |m.pages.words| == BM_SIZE && IsPath(p) && depth <= 3
    decreases 3 - depth
  {
    && PageIn(m.mem, a)
    && (depth < 3 ==> var (m', c) := Descend(m, a, p[depth]); InMemory(m', c, p, depth + 1))
  }

  /** So it is whenever the walk meets no large page and allocation succeeds. */
  lemma {:induction false} ReadyInMemory(m: Maps, root: nat, tables: map<nat, seq<nat>>, live: set<nat>, k: nat, a: nat, p: seq<nat>, depth: nat)
    requires System(m, root, tables, live, k) && IsPath(p) && depth <= 3 && OnPath(tables, a, p, depth) && Ready(m, a, p, depth)
    ensures InMemory(m, a, p, depth)
    decreases 3 - depth
  {
    hide Accounted, Tree, AllocPages, Entry, Links, Frame, Descend, Present;
    TreePages(m.mem, root, tables);
    if depth < 3 {
      if Present(Entry(m.mem, a, p[depth])) {
        DescendOld(m, root, tables, live, k, a, p, depth);
        ReadyInMemory(m, root, tables, live, k, Frame(Entry(m.mem, a, p[depth])), p, depth + 1);
      } else {
        var tables', live' := DescendNew(m, root, tables, live, k, a, p, depth);
        var (m', c) := Descend(m, a, p[depth]);
        ReadyInMemory(m', root, tables', live', k, c, p, depth + 1);
      }
    }
  }

  /** An allocated page, or page 0 when there is none, lies in memory. */
  lemma AllocatedPage(st: Pages)
    requires |st.words| == BM_SIZE
    ensures var page := AllocPages(st, 1).0; page % PAGE == 0 && page / 8 + 512 <= CELLS
  {
    hide LowestRun;
  }

  class AddressSpace {
    const memory: array<word>
    const pmm: PageAllocator
    const cr3: word

    constructor (memory: array<word>, pmm: PageAllocator, cr3: word)
      requires memory.Length == CELLS && pmm.Valid() && pmm.bitmap != memory
      ensures Valid() && this.memory == memory && this.pmm == pmm && this.cr3 == cr3
    {
      this.memory, this.pmm, this.cr3 := memory, pmm, cr3;
    }

    ghost predicate Valid()
      reads this, pmm
    {
      memory.Length == CELLS && pmm.Valid() && pmm.bitmap != memory
    }

    ghost function State(): Maps
      reads this, memory, pmm, pmm.bitmap
    {
      Maps(memory[..], pmm.State())
    }

    /** Table below entry `i` of table `a`; a missing one is taken from the page
        allocator, cleared and linked. */
    method NextTable(a: nat, i: nat) returns (c: nat)
      requires Valid() && PageIn(memory[..], a) && i < 512
      modifies memory, pmm, pmm.bitmap
      ensures Valid() && (State(), c) == Descend(old(State()), a, i)
    {
      hide AllocPages, Present, Frame;
      var e := memory[a / 8 + i];
      if Present(e) { return Frame(e); }
      AllocatedPage(pmm.State());
      c := pmm.Alloc(1);
      ghost var before := memory[..];
      for j := 0 to 512
        modifies memory
        invariant memory[..] == before[..c / 8] + seq<word>(j, _ => 0) + before[c / 8 + j..]
      {
        memory[c / 8 + j] := 0;
      }
      assert memory[..] == ZeroedPage(before, c);
      memory[a / 8 + i] := c + 3;
      assert memory[..] == AddTable(before, a, i, c);
    }

    method MapPage(virt: nat, phys: word, flags: nat)
      requires Valid() && flags < 4096
      requires InMemory(State(), Frame(cr3), PathOf(virt), 0)
      modifies memory, pmm, pmm.bitmap
      ensures Valid() && State() == MapOne(old(State()), Frame(cr3), virt, phys, flags)
    {
      hide AllocPages, Descend;
      ghost var p, m0 := PathOf(virt), State();
      var pml4 := Frame(cr3);
      var pdpt := NextTable(pml4, virt / 0x80_0000_0000 % 512);
      ghost var m1 := State();
      var pd := NextTable(pdpt, virt / 0x4000_0000 % 512);
      ghost var m2 := State();
      var pt := NextTable(pd, virt / 0x20_0000 % 512);
      ghost var m3 := State();
      memory[pt / 8 + virt / 0x1000 % 512] := LeafEntry(phys, flags);
      FourLevels(m0, m1, m2, m3, pml4, pdpt, pd, pt, p, LeafEntry(phys, flags));
    }
  }

  lemma FourLevels(m0: Maps, m1: Maps, m2: Maps, m3: Maps, a: nat, b: nat, c: nat, d: nat, p: seq<nat>, leaf: word)
    requires IsPath(p) && |m0.pages.words| == BM_SIZE && |m1.pages.words| == BM_SIZE && |m2.pages.words| == BM_SIZE
    requires Descend(m0, a, p[0]) == (m1, b) && Descend(m1, b, p[1]) == (m2, c) && Descend(m2, c, p[2]) == (m3, d)
    requires PageIn(m3.mem, d)
    ensures MapFrom(m0, a, p, leaf, 0) == m3.(mem := WithEntry(m3.mem, d, p[3], leaf))
  {
    hide Descend, WithEntry;
    assert MapFrom(m3, d, p, leaf, 3) == m3.(mem := WithEntry(m3.mem, d, p[3], leaf));
    assert MapFrom(m2, c, p, leaf, 2) == MapFrom(m3, d, p, leaf, 3);
    assert MapFrom(m1, b, p, leaf, 1) == MapFrom(m2, c, p, leaf, 2);
  }
}
