/**
 Four-level page tables in physical memory (Intel SDM Vol. 3A, section 4.5), seen as
 a flat map from virtual pages to leaf entries.
 */
module PageTables {
  import opened Words
  import opened Options

  /** Physical memory as 64-bit cells: 4 GiB. */
  const CELLS: nat := 0x2000_0000

  const PAGE: nat := 4096

  // ----- entries -----

  predicate Present(e: word) {
    e % 2 == 1
  }

  /** Entry maps a large page (bit 7). */
  predicate Large(e: word) {
    e / 128 % 2 == 1
  }

  /** Page frame address: bits 12 to 51. */
  function Frame(e: word): (a: nat)
    ensures a % PAGE == 0
  {
    e / 4096 % 0x100_0000_0000 * 4096
  }

  /** Entry for a table page: present and writable. */
  function TableEntry(page: nat): word
    requires page % PAGE == 0 && page < 8 * CELLS
  {
    page + 3
  }

  /** Entry for a page of memory; `flags` holds bits 0 to 11 only. */
  function LeafEntry(phys: word, flags: nat): (e: word)
    requires flags < 4096
  {
    Frame(phys) + flags / 2 * 2 + 1
  }

  lemma TableEntryFacts(page: nat)
    requires page % PAGE == 0 && page < 8 * CELLS
    ensures Present(TableEntry(page)) && !Large(TableEntry(page)) && Frame(TableEntry(page)) == page
  {
    var f := page / 4096;
    assert page == 4096 * f;
    assert (page + 3) / 4096 == f && (page + 3) / 128 == 32 * f;
  }

  /** A leaf entry gives the frame, the flags and Present. */
  lemma LeafEntryFacts(phys: word, flags: nat)
    requires flags < 4096
    ensures Present(LeafEntry(phys, flags)) && Frame(LeafEntry(phys, flags)) == Frame(phys)
    ensures LeafEntry(phys, flags) % 4096 == flags / 2 * 2 + 1
  {
    var f := phys / 4096 % 0x100_0000_0000;
    assert LeafEntry(phys, flags) / 4096 == f;
  }

  // ----- memory -----

  predicate PageIn(mem: seq<word>, a: nat) {
    a % PAGE == 0 && a / 8 + 512 <= |mem| <= CELLS
  }

  function Entry(mem: seq<word>, a: nat, i: nat): word
    requires PageIn(mem, a) && i < 512
  {
    mem[a / 8 + i]
  }

  function ZeroedPage(mem: seq<word>, a: nat): (r: seq<word>)
    requires PageIn(mem, a)
    ensures |r| == |mem|
  {
    mem[..a / 8] + seq<word>(512, _ => 0) + mem[a / 8 + 512..]
  }

  function WithEntry(mem: seq<word>, a: nat, i: nat, e: word): (r: seq<word>)
    requires PageIn(mem, a) && i < 512
    ensures |r| == |mem|
  {
    mem[a / 8 + i := e]
  }

  lemma EntriesApart(a: nat, i: nat, b: nat, j: nat)
    requires a % PAGE == 0 && b % PAGE == 0 && i < 512 && j < 512
    ensures a / 8 + i == b / 8 + j <==> a == b && i == j
  {
  }

  lemma EntryAfterWrite(mem: seq<word>, a: nat, i: nat, e: word, b: nat, j: nat)
    requires PageIn(mem, a) && PageIn(mem, b) && i < 512 && j < 512
    ensures Entry(WithEntry(mem, a, i, e), b, j) == if a == b && i == j then e else Entry(mem, b, j)
  {
    EntriesApart(a, i, b, j);
  }

  lemma EntryAfterZero(mem: seq<word>, a: nat, b: nat, j: nat)
    requires PageIn(mem, a) && PageIn(mem, b) && j < 512
    ensures Entry(ZeroedPage(mem, a), b, j) == if a == b then 0 else Entry(mem, b, j)
  {
    PagesApart(a, b);
    ZeroedCell(mem, a / 8, b / 8 + j);
  }

  lemma PagesApart(a: nat, b: nat)
    requires a % PAGE == 0 && b % PAGE == 0
    ensures a < b ==> a / 8 + 512 <= b / 8
    ensures b < a ==> b / 8 + 512 <= a / 8
  {
  }

  /** Clearing 512 cells from `s` on. */
  lemma ZeroedCell(mem: seq<word>, s: nat, k: nat)
    requires s + 512 <= |mem| && k < |mem|
    ensures (mem[..s] + seq<word>(512, _ => 0) + mem[s + 512..])[k] == if s <= k < s + 512 then 0 else mem[k]
  {
  }

  // ----- walks -----

  /** The four indices of a virtual address, from the top level down. */
  function PathOf(v: nat): (p: seq<nat>)
    ensures IsPath(p)
  {
    [v / 0x80_0000_0000 % 512, v / 0x4000_0000 % 512, v / 0x20_0000 % 512, v / 0x1000 % 512]
  }

  predicate IsPath(p: seq<nat>) {
    |p| == 4 && p[0] < 512 && p[1] < 512 && p[2] < 512 && p[3] < 512
  }

  /** Virtual page number of a 48-bit address. */
  function VirtualPage(v: nat): nat {
    v / 4096 % 0x10_0000_0000
  }

  /** Addresses share a path exactly when they lie in the same virtual page. */
  lemma PathIsPage(v: nat, w: nat)
    ensures PathOf(v) == PathOf(w) <==> VirtualPage(v) == VirtualPage(w)
  {
    hide PathOf, VirtualPage;
    var p, q := PathOf(v), PathOf(w);
    PathDigits(v);
    PathDigits(w);
    if VirtualPage(v) == VirtualPage(w) {
      DigitsUnique(p[0], p[1], p[2], p[3], q[0], q[1], q[2], q[3]);
    }
  }

  lemma DigitsUnique(a: nat, b: nat, c: nat, d: nat, x: nat, y: nat, z: nat, w: nat)
    requires a < 512 && b < 512 && c < 512 && d < 512 && x < 512 && y < 512 && z < 512 && w < 512
    requires a * 0x800_0000 + b * 0x4_0000 + c * 512 + d == x * 0x800_0000 + y * 0x4_0000 + z * 512 + w
    ensures a == x && b == y && c == z && d == w
  {
  }

  lemma PathDigits(v: nat)
    ensures var p, n := PathOf(v), VirtualPage(v);
            n == p[0] * 0x800_0000 + p[1] * 0x4_0000 + p[2] * 512 + p[3]
  {
    var n := v / 4096;
    assert v / 0x20_0000 == n / 512;
    assert v / 0x4000_0000 == n / 512 / 512;
    assert v / 0x80_0000_0000 == n / 512 / 512 / 512;
    var a, b, c := n / 512, n / 512 / 512, n / 512 / 512 / 512;
    assert n == 512 * a + n % 512 && a == 512 * b + a % 512 && b == 512 * c + b % 512;
    assert n % 0x10_0000_0000 == (c % 512) * 0x800_0000 + b % 512 * 0x4_0000 + a % 512 * 512 + n % 512 by {
      assert c == 512 * (c / 512) + c % 512;
    }
  }

  /** An entry that leads to a table one level down. */
  predicate Links(e: word, depth: nat) {
    Present(e) && (depth == 0 || !Large(e))
  }

  /** Leaf entry found for a path, with the level it was found at. */
  datatype Leaf = Leaf(entry: word, depth: nat)

  function Walk(mem: seq<word>, a: nat, p: seq<nat>, depth: nat): Option<Leaf>
    requires IsPath(p) && depth <= 3
    decreases 3 - depth
  {
    if !PageIn(mem, a) then None
    else
      var e := Entry(mem, a, p[depth]);
      if !Present(e) then None
      else if depth == 3 || !Links(e, depth) then Some(Leaf(e, depth))
      else Walk(mem, Frame(e), p, depth + 1)
  }

  /** Translation of a virtual address by the tables at `root`. */
  function Translate(mem: seq<word>, root: nat, v: nat): Option<Leaf> {
    Walk(mem, root, PathOf(v), 0)
  }

  // ----- trees -----

  /** `tables` gives every table page the path that leads to it from the root. So no
      table page is reached in two ways. */
  ghost predicate Tree(mem: seq<word>, root: nat, tables: map<nat, seq<nat>>) {
    && root in tables && tables[root] == []
    && (forall a :: a in tables ==> PageIn(mem, a) && |tables[a]| <= 3)
    && (forall a, i: nat :: a in tables && i < 512 && |tables[a]| < 3 && Links(Entry(mem, a, i), |tables[a]|) ==>
          var c := Frame(Entry(mem, a, i)); c in tables && tables[c] == tables[a] + [i])
  }

  ghost predicate OnPath(tables: map<nat, seq<nat>>, a: nat, p: seq<nat>, depth: nat)
    requires IsPath(p) && depth <= 3
  {
    a in tables && tables[a] == p[..depth]
  }

  lemma TreeChild(mem: seq<word>, root: nat, tables: map<nat, seq<nat>>, a: nat, p: seq<nat>, depth: nat)
    requires Tree(mem, root, tables) && IsPath(p) && depth < 3 && OnPath(tables, a, p, depth)
    requires Links(Entry(mem, a, p[depth]), depth)
    ensures OnPath(tables, Frame(Entry(mem, a, p[depth])), p, depth + 1)
  {
    assert p[..depth] + [p[depth]] == p[..depth + 1];
  }

  // ----- adding an empty table -----

  function AddTable(mem: seq<word>, a: nat, i: nat, page: nat): seq<word>
    requires PageIn(mem, a) && PageIn(mem, page) && i < 512
  {
    WithEntry(ZeroedPage(mem, page), a, i, TableEntry(page))
  }

  lemma AddTableEntry(mem: seq<word>, a: nat, i: nat, page: nat, b: nat, j: nat)
    requires PageIn(mem, a) && PageIn(mem, b) && PageIn(mem, page) && i < 512 && j < 512 && page != a
    ensures PageIn(AddTable(mem, a, i, page), b)
    ensures Entry(AddTable(mem, a, i, page), b, j)
         == if a == b && i == j then TableEntry(page) else if b == page then 0 else Entry(mem, b, j)
  {
    EntryAfterWrite(ZeroedPage(mem, page), a, i, TableEntry(page), b, j);
    EntryAfterZero(mem, page, b, j);
  }

  lemma AddTableTree(mem: seq<word>, root: nat, tables: map<nat, seq<nat>>, a: nat, i: nat, page: nat)
    requires Tree(mem, root, tables) && a in tables && |tables[a]| < 3 && i < 512
    requires PageIn(mem, page) && page !in tables
    ensures Tree(AddTable(mem, a, i, page), root, tables[page := tables[a] + [i]])
  {
    hide Entry, Links, Frame, Walk, AddTable;
    var mem', ts := AddTable(mem, a, i, page), tables[page := tables[a] + [i]];
    AddTableEntry(mem, a, i, page, a, i);
    TableEntryFacts(page);
    ZeroLinks();
    forall b, j: nat | b in ts && j < 512 && |ts[b]| < 3 && PageIn(mem', b) && Links(Entry(mem', b, j), |ts[b]|)
      ensures var c := Frame(Entry(mem', b, j)); c in ts && ts[c] == ts[b] + [j]
    {
      AddTableEntry(mem, a, i, page, b, j);
    }
    forall b | b in ts ensures PageIn(mem', b) && |ts[b]| <= 3 {
      AddTableEntry(mem, a, i, page, b, 0);
    }
  }

  lemma ZeroEntry()
    ensures !Present(0)
  {
  }

  lemma ZeroLinks()
    ensures forall d: nat :: !Links(0, d)
  {
  }

  /** An empty table changes no translation. */
  lemma {:induction false} AddTableWalk(mem: seq<word>, root: nat, tables: map<nat, seq<nat>>, a: nat, i: nat, page: nat, b: nat, q: seq<nat>, depth: nat)
    requires Tree(mem, root, tables) && a in tables && |tables[a]| < 3 && i < 512
    requires PageIn(mem, page) && page !in tables && !Present(Entry(mem, a, i))
    requires IsPath(q) && depth <= 3 && OnPath(tables, b, q, depth)
    ensures Walk(AddTable(mem, a, i, page), b, q, depth) == Walk(mem, b, q, depth)
    decreases 3 - depth
  {
    hide Tree, Entry, AddTable, Frame, Present, Large;
    TreePages(mem, root, tables);
    var mem' := AddTable(mem, a, i, page);
    AddTableEntry(mem, a, i, page, b, q[depth]);
    var e := Entry(mem, b, q[depth]);
    if a == b && i == q[depth] {
      TableEntryFacts(page);
      AddTableEntry(mem, a, i, page, page, q[depth + 1]);
      ZeroEntry();
      assert Walk(mem', page, q, depth + 1) == None;
    } else if depth < 3 && Links(e, depth) {
      TreeChild(mem, root, tables, b, q, depth);
      AddTableWalk(mem, root, tables, a, i, page, Frame(e), q, depth + 1);
    }
  }

  lemma TreePages(mem: seq<word>, root: nat, tables: map<nat, seq<nat>>)
    requires Tree(mem, root, tables)
    ensures root in tables && tables[root] == [] && forall a :: a in tables ==> PageIn(mem, a) && |tables[a]| <= 3
  {
  }

  // ----- writing a leaf -----

  lemma LeafTree(mem: seq<word>, root: nat, tables: map<nat, seq<nat>>, a: nat, i: nat, e: word)
    requires Tree(mem, root, tables) && a in tables && |tables[a]| == 3 && i < 512
    ensures Tree(WithEntry(mem, a, i, e), root, tables)
  {
    hide Entry, Links, Frame, WithEntry;
    var mem' := WithEntry(mem, a, i, e);
    forall b, j: nat | b in tables && j < 512 && |tables[b]| < 3 && Links(Entry(mem', b, j), |tables[b]|)
      ensures var c := Frame(Entry(mem', b, j)); c in tables && tables[c] == tables[b] + [j]
    {
      EntryAfterWrite(mem, a, i, e, b, j);
    }
  }

  /** A leaf entry changes the translation of its own path only. */
  lemma {:induction false} LeafWalk(mem: seq<word>, root: nat, tables: map<nat, seq<nat>>, a: nat, p: seq<nat>, e: word, b: nat, q: seq<nat>, depth: nat)
    requires Tree(mem, root, tables) && IsPath(p) && IsPath(q) && p != q && OnPath(tables, a, p, 3)
    requires depth <= 3 && OnPath(tables, b, q, depth)
    ensures Walk(WithEntry(mem, a, p[3], e), b, q, depth) == Walk(mem, b, q, depth)
    decreases 3 - depth
  {
    hide Tree, Entry, Links, Frame, WithEntry, Present;
    TreePages(mem, root, tables);
    EntryAfterWrite(mem, a, p[3], e, b, q[depth]);
    var f := Entry(mem, b, q[depth]);
    if a == b && p[3] == q[depth] {
      assert depth == 3 by { assert |p[..3]| == |q[..depth]|; }
      assert p[..3] == q[..3];
      assert forall k :: 0 <= k < 3 ==> p[k] == p[..3][k] && q[k] == q[..3][k];
    } else if depth < 3 && Links(f, depth) {
      TreeChild(mem, root, tables, b, q, depth);
      LeafWalk(mem, root, tables, a, p, e, Frame(f), q, depth + 1);
    }
  }
}
