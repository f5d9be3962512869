/** Sv39 page tables as a forest over physical pages, and the finite maps they implement.

    Virtual and physical addresses are page numbers here; callers keep the byte addresses and
    their alignment checks. Every page the allocator manages has one owner in `own`, so the
    owners partition the pages by construction.
 */
module PageTable {
  import opened Collections

  const PGSIZE := 4096
  const ENTRIES := 512
  /** MAXVA in pages. */
  const PAGES := 0x400_0000
  const TRAMPOLINE := PAGES - 1
  const TRAPFRAME := PAGES - 2

  datatype Pte = Pte(ppn: nat, v: bool, r: bool, w: bool, x: bool, u: bool)

  const NOPTE := Pte(0, false, false, false, false, false)

  /** A zeroed page-table page. */
  function EmptyTable(): (r: seq<Pte>)
    ensures |r| == ENTRIES && forall i | 0 <= i < ENTRIES :: r[i] == NOPTE
  {
    seq(ENTRIES, (i: int) => NOPTE)
  }

  predicate HasPerm(e: Pte) {
    e.r || e.w || e.x
  }

  /** The place of a page-table page: whose table, which level, which part of the address space. */
  datatype Node = Node(root: nat, level: nat, prefix: nat)

  datatype Owner = Free | Table(node: Node) | Leaf(root: nat, vpn: nat) | Kernel

  ghost function Child(n: Node, i: nat): Node
    requires n.level > 0
  {
    Node(n.root, n.level - 1, n.prefix * ENTRIES + i)
  }

  ghost function Parent(n: Node): Node {
    Node(n.root, n.level + 1, n.prefix / ENTRIES)
  }

  ghost function Index(n: Node): nat {
    n.prefix % ENTRIES
  }

  lemma ChildParent(n: Node, i: nat)
    requires n.level > 0 && i < ENTRIES
    ensures Parent(Child(n, i)) == n && Index(Child(n, i)) == i
  {
  }

  /** The index of a virtual page at a level, PX in the source. */
  function PX(level: nat, vpn: nat): nat {
    if level == 0 then vpn % ENTRIES
    else if level == 1 then vpn / ENTRIES % ENTRIES
    else vpn / (ENTRIES * ENTRIES) % ENTRIES
  }

  /** The three indexes are the 9-bit digits of the page number, the highest one for level 2. */
  lemma IndexDigits(vpn: nat)
    requires vpn < PAGES
    ensures PX(2, vpn) < 512 && PX(1, vpn) < 512 && PX(0, vpn) < 512
    ensures vpn == PX(2, vpn) * 0x40000 + PX(1, vpn) * 0x200 + PX(0, vpn)
  {
    assert vpn / (ENTRIES * ENTRIES) == vpn / ENTRIES / ENTRIES;
  }

  /** The page-table page the walk for a virtual page goes through at a level. */
  ghost function PathNode(root: nat, level: nat, vpn: nat): Node {
    Node(root, level, if level == 0 then vpn / ENTRIES
                      else if level == 1 then vpn / (ENTRIES * ENTRIES)
                      else vpn / (ENTRIES * ENTRIES * ENTRIES))
  }

  lemma PathStep(root: nat, level: nat, vpn: nat)
    requires 0 < level <= 2
    ensures PX(level, vpn) < ENTRIES
    ensures vpn < PAGES ==> InSpace(PathNode(root, level - 1, vpn))
    ensures PathNode(root, level - 1, vpn) == Child(PathNode(root, level, vpn), PX(level, vpn))
  {
  }

  /** Two virtual pages never share a page-table entry. */
  lemma SlotsDistinct(root: nat, vpn: nat, vpn': nat)
    requires PathNode(root, 0, vpn) == PathNode(root, 0, vpn') && PX(0, vpn) == PX(0, vpn')
    ensures vpn == vpn'
  {
  }

  lemma SlotOf(n: Node, i: nat)
    requires n.level == 0 && i < ENTRIES
    ensures PathNode(n.root, 0, n.prefix * ENTRIES + i) == n && PX(0, n.prefix * ENTRIES + i) == i
  {
  }

  /** The allocator's free list, the contents of page-table pages, the owner of every page, and
      the page at each place of the forest. */
  datatype Heap = Heap(free: seq<nat>, table: map<nat, seq<Pte>>, own: map<nat, Owner>, at: map<Node, nat>)

  ghost predicate FreeOk(h: Heap) {
    && Distinct(h.free)
    && (forall p | p in h.free :: p in h.own && h.own[p].Free?)
    && (forall p | p in h.own && h.own[p].Free? :: p in h.free)
  }

  /** The node covers virtual pages below MAXVA. */
  ghost predicate InSpace(n: Node) {
    n.level <= 2 && n.prefix < (if n.level == 0 then PAGES / ENTRIES else if n.level == 1 then PAGES / (ENTRIES * ENTRIES) else 1)
  }

  ghost predicate NodeOk(h: Heap, n: Node) {
    && n in h.at && InSpace(n)
    && (n.level == 2 ==> h.at[n] == n.root)
    && h.at[n] in h.own && h.own[h.at[n]] == Table(n)
    && h.at[n] in h.table && |h.table[h.at[n]]| == ENTRIES
  }

  ghost predicate NodesOk(h: Heap) {
    && (forall n | n in h.at :: NodeOk(h, n))
    && (forall p | p in h.table :: p in h.own && h.own[p].Table?)
    && (forall p | p in h.own && h.own[p].Table? :: h.own[p].node in h.at && h.at[h.own[p].node] == p)
  }

  ghost function Entry(h: Heap, n: Node, i: nat): Pte
    requires NodeOk(h, n) && i < ENTRIES
  {
    h.table[h.at[n]][i]
  }

  /** A valid entry above the last level has no permission bits and leads to the page for its part
      of the address space, unless it leads to `gone`. */
  ghost predicate DownOk(h: Heap, gone: set<nat>)
    requires NodesOk(h)
  {
    forall n, i | n in h.at && n.level > 0 && 0 <= i < ENTRIES && Entry(h, n, i).v ::
      && !HasPerm(Entry(h, n, i))
      && (Entry(h, n, i).ppn in gone || (Child(n, i) in h.at && h.at[Child(n, i)] == Entry(h, n, i).ppn))
  }

  /** Every page-table page but the roots hangs from its place. */
  ghost predicate UpOk(h: Heap)
    requires NodesOk(h)
  {
    forall n | n in h.at && n.level < 2 ::
      && Parent(n) in h.at
      && Entry(h, Parent(n), Index(n)).v && Entry(h, Parent(n), Index(n)).ppn == h.at[n]
  }

  /** Last-level entries have a permission bit, and map exactly the pages owned as their leaves. */
  ghost predicate LeavesOk(h: Heap)
    requires NodesOk(h)
  {
    && (forall n, i | n in h.at && n.level == 0 && 0 <= i < ENTRIES && Entry(h, n, i).v ::
          && HasPerm(Entry(h, n, i))
          && (n.prefix * ENTRIES + i < TRAPFRAME ==>
                Entry(h, n, i).ppn in h.own && h.own[Entry(h, n, i).ppn] == Leaf(n.root, n.prefix * ENTRIES + i)))
    && (forall p | p in h.own && h.own[p].Leaf? ::
          var n := PathNode(h.own[p].root, 0, h.own[p].vpn);
          && h.own[p].vpn < TRAPFRAME && n in h.at
          && Entry(h, n, PX(0, h.own[p].vpn)).v && Entry(h, n, PX(0, h.own[p].vpn)).ppn == p)
  }

  ghost predicate Wf(h: Heap) {
    FreeOk(h) && NodesOk(h) && DownOk(h, {}) && UpOk(h) && LeavesOk(h)
  }

  ghost predicate IsRoot(h: Heap, root: nat) {
    Node(root, 2, 0) in h.at
  }

  ghost function Lookup(h: Heap, root: nat, vpn: nat): Pte
    requires NodesOk(h)
  {
    var n := PathNode(root, 0, vpn);
    if n in h.at then Entry(h, n, PX(0, vpn)) else NOPTE
  }

  /** The finite map from virtual pages to entries that a page table stands for. */
  ghost function Maps(h: Heap, root: nat): map<nat, Pte>
    requires NodesOk(h)
  {
    map vpn | 0 <= vpn < PAGES && Lookup(h, root, vpn).v :: Lookup(h, root, vpn)
  }

  /** The walk the hardware does, from the contents of the page-table pages alone. */
  function Translate(table: map<nat, seq<Pte>>, root: nat, vpn: nat): (r: Pte) {
    if root !in table || |table[root]| != ENTRIES then NOPTE else
    var e2 := table[root][PX(2, vpn)];
    if !e2.v || e2.ppn !in table || |table[e2.ppn]| != ENTRIES then NOPTE else
    var e1 := table[e2.ppn][PX(1, vpn)];
    if !e1.v || e1.ppn !in table || |table[e1.ppn]| != ENTRIES then NOPTE else
    table[e1.ppn][PX(0, vpn)]
  }

  /** The hardware walk finds exactly the entries of the map. */
  lemma WalkRefinesMap(h: Heap, root: nat, vpn: nat)
    requires Wf(h) && IsRoot(h, root) && vpn < PAGES
    ensures Translate(h.table, root, vpn).v <==> vpn in Maps(h, root)
    ensures vpn in Maps(h, root) ==> Translate(h.table, root, vpn) == Maps(h, root)[vpn]
  {
    var n2, n1, n0 := PathNode(root, 2, vpn), PathNode(root, 1, vpn), PathNode(root, 0, vpn);
    PathStep(root, 2, vpn);
    PathStep(root, 1, vpn);
    ChildParent(n2, PX(2, vpn));
    ChildParent(n1, PX(1, vpn));
    assert NodeOk(h, n2);
    assert n2 == Node(root, 2, 0);
    if n0 in h.at {
      assert Entry(h, n1, PX(1, vpn)).v && n1 in h.at;
      assert Entry(h, n2, PX(2, vpn)).v;
    } else if Entry(h, n2, PX(2, vpn)).v {
      assert n1 in h.at && NodeOk(h, n1);
      assert !Entry(h, n1, PX(1, vpn)).v;
    }
  }

  ghost predicate SameMaps(h: Heap, h': Heap)
    requires NodesOk(h) && NodesOk(h')
  {
    forall root :: Maps(h', root) == Maps(h, root)
  }

  /** Only the map of one page table changes. */
  ghost predicate OnlyMap(h: Heap, h': Heap, root: nat, m: map<nat, Pte>)
    requires NodesOk(h) && NodesOk(h')
  {
    Maps(h', root) == m && forall r | r != root :: Maps(h', r) == Maps(h, r)
  }

  /** Nothing but the free list and pages that are no table and no leaf changes owner. */
  ghost predicate SameForest(h: Heap, h': Heap) {
    && h'.table == h.table && h'.at == h.at
    && (forall p | p in h.own && (h.own[p].Table? || h.own[p].Leaf?) :: p in h'.own && h'.own[p] == h.own[p])
    && (forall p | p in h'.own && (h'.own[p].Table? || h'.own[p].Leaf?) :: p in h.own && h.own[p] == h'.own[p])
  }

  lemma SameForestNodes(h: Heap, h': Heap)
    requires NodesOk(h) && SameForest(h, h')
    ensures NodesOk(h')
    ensures forall n | n in h.at :: NodeOk(h', n)
  {
  }

  lemma SameForestKeepsWf(h: Heap, h': Heap)
    requires Wf(h) && SameForest(h, h') && FreeOk(h')
    ensures Wf(h')
  {
    hide FreeOk;
    SameForestNodes(h, h');
    SameForestDown(h, h');
    SameForestLeaves(h, h');
  }

  lemma SameForestDown(h: Heap, h': Heap)
    requires NodesOk(h) && NodesOk(h') && DownOk(h, {}) && UpOk(h) && SameForest(h, h')
    ensures DownOk(h', {}) && UpOk(h')
  {
    forall n, i | n in h'.at && n.level > 0 && 0 <= i < ENTRIES && Entry(h', n, i).v
      ensures !HasPerm(Entry(h', n, i)) && Child(n, i) in h'.at && h'.at[Child(n, i)] == Entry(h', n, i).ppn
    {
      assert Entry(h', n, i) == Entry(h, n, i);
    }
    forall n | n in h'.at && n.level < 2
      ensures Parent(n) in h'.at
      ensures Entry(h', Parent(n), Index(n)).v && Entry(h', Parent(n), Index(n)).ppn == h'.at[n]
    {
      assert Entry(h', Parent(n), Index(n)) == Entry(h, Parent(n), Index(n));
    }
  }

  lemma SameForestLeaves(h: Heap, h': Heap)
    requires NodesOk(h) && NodesOk(h') && LeavesOk(h) && SameForest(h, h')
    ensures LeavesOk(h')
  {
    forall n, i | n in h'.at && n.level == 0 && 0 <= i < ENTRIES && Entry(h', n, i).v
      ensures HasPerm(Entry(h', n, i))
      ensures n.prefix * ENTRIES + i < TRAPFRAME ==>
                Entry(h', n, i).ppn in h'.own && h'.own[Entry(h', n, i).ppn] == Leaf(n.root, n.prefix * ENTRIES + i)
    {
      assert Entry(h', n, i) == Entry(h, n, i);
    }
    forall p | p in h'.own && h'.own[p].Leaf?
      ensures var n := PathNode(h'.own[p].root, 0, h'.own[p].vpn);
        && h'.own[p].vpn < TRAPFRAME && n in h'.at
        && Entry(h', n, PX(0, h'.own[p].vpn)).v && Entry(h', n, PX(0, h'.own[p].vpn)).ppn == p
    {
      var n := PathNode(h'.own[p].root, 0, h'.own[p].vpn);
      assert Entry(h', n, PX(0, h'.own[p].vpn)) == Entry(h, n, PX(0, h'.own[p].vpn));
    }
  }

  lemma SameForestMaps(h: Heap, h': Heap)
    requires NodesOk(h) && NodesOk(h') && SameForest(h, h')
    ensures SameMaps(h, h')
  {
    forall root ensures Maps(h', root) == Maps(h, root) {
      forall vpn: nat ensures Lookup(h', root, vpn) == Lookup(h, root, vpn) {
      }
    }
  }

  /** kalloc: the first free page becomes the kernel's. */
  ghost function Took(h: Heap): Heap
    requires h.free != []
  {
    Heap(h.free[1..], h.table, h.own[h.free[0] := Kernel], h.at)
  }

  lemma TakeKeepsWf(h: Heap)
    requires Wf(h) && h.free != []
    ensures Wf(Took(h)) && SameMaps(h, Took(h))
  {
    hide NodesOk, DownOk, UpOk, LeavesOk, SameMaps;
    assert h.free == [h.free[0]] + h.free[1..];
    SameForestKeepsWf(h, Took(h));
    SameForestMaps(h, Took(h));
  }

  /** kfree: a page of the kernel's goes to the front of the free list. */
  ghost function Gave(h: Heap, p: nat): Heap {
    Heap([p] + h.free, h.table, h.own[p := Free], h.at)
  }

  lemma GiveKeepsWf(h: Heap, p: nat)
    requires Wf(h) && p in h.own && h.own[p].Kernel?
    ensures Wf(Gave(h, p)) && SameMaps(h, Gave(h, p))
  {
    hide NodesOk, DownOk, UpOk, LeavesOk, SameMaps;
    SameForestKeepsWf(h, Gave(h, p));
    SameForestMaps(h, Gave(h, p));
  }

  /** walk: a zeroed kernel page becomes the page-table page below an empty entry. */
  ghost function Hung(h: Heap, n: Node, i: nat, p: nat): Heap
    requires n in h.at && h.at[n] in h.table && i < |h.table[h.at[n]]| && n.level > 0
  {
    Heap(h.free,
         h.table[p := EmptyTable()][h.at[n] := h.table[h.at[n]][i := Pte(p, true, false, false, false, false)]],
         h.own[p := Table(Child(n, i))], h.at[Child(n, i) := p])
  }

  ghost predicate CanHang(h: Heap, n: Node, i: nat, p: nat) {
    && NodesOk(h) && n in h.at && n.level > 0 && i < ENTRIES && !Entry(h, n, i).v
    && p in h.own && h.own[p].Kernel? && Child(n, i) !in h.at && InSpace(Child(n, i))
  }

  lemma HungNodes(h: Heap, n: Node, i: nat, p: nat)
    requires CanHang(h, n, i, p)
    ensures NodesOk(Hung(h, n, i, p))
  {
    var h' := Hung(h, n, i, p);
    forall m | m in h'.at ensures NodeOk(h', m) {
      assert m != Child(n, i) ==> NodeOk(h, m);
    }
  }

  lemma HungEntry(h: Heap, n: Node, i: nat, p: nat, m: Node, j: nat)
    requires CanHang(h, n, i, p) && NodesOk(Hung(h, n, i, p)) && m in Hung(h, n, i, p).at && j < ENTRIES
    ensures Entry(Hung(h, n, i, p), m, j)
         == if m == Child(n, i) then NOPTE
            else if m == n && j == i then Pte(p, true, false, false, false, false)
            else Entry(h, m, j)
  {
    assert m != Child(n, i) ==> NodeOk(h, m);
    assert NodeOk(h, n);
  }

  lemma HungDown(h: Heap, n: Node, i: nat, p: nat)
    requires CanHang(h, n, i, p) && DownOk(h, {}) && UpOk(h) && NodesOk(Hung(h, n, i, p))
    ensures DownOk(Hung(h, n, i, p), {}) && UpOk(Hung(h, n, i, p))
  {
    var h' := Hung(h, n, i, p);
    forall m, j | m in h'.at && m.level > 0 && 0 <= j < ENTRIES && Entry(h', m, j).v
      ensures !HasPerm(Entry(h', m, j)) && Child(m, j) in h'.at && h'.at[Child(m, j)] == Entry(h', m, j).ppn
    {
      HungEntry(h, n, i, p, m, j);
      ChildParent(m, j);
      ChildParent(n, i);
    }
    forall m | m in h'.at && m.level < 2
      ensures Parent(m) in h'.at
      ensures Entry(h', Parent(m), Index(m)).v && Entry(h', Parent(m), Index(m)).ppn == h'.at[m]
    {
      ChildParent(n, i);
      HungEntry(h, n, i, p, Parent(m), Index(m));
    }
  }

  lemma HungLeaves(h: Heap, n: Node, i: nat, p: nat)
    requires CanHang(h, n, i, p) && LeavesOk(h) && NodesOk(Hung(h, n, i, p))
    ensures LeavesOk(Hung(h, n, i, p))
  {
    var h' := Hung(h, n, i, p);
    forall m, j | m in h'.at && m.level == 0 && 0 <= j < ENTRIES && Entry(h', m, j).v
      ensures m in h.at && Entry(h', m, j) == Entry(h, m, j)
      ensures m.prefix * ENTRIES + j < TRAPFRAME ==>
                Entry(h', m, j).ppn in h'.own && h'.own[Entry(h', m, j).ppn] == Leaf(m.root, m.prefix * ENTRIES + j)
    {
      HungEntry(h, n, i, p, m, j);
    }
    forall q | q in h'.own && h'.own[q].Leaf?
      ensures var m := PathNode(h'.own[q].root, 0, h'.own[q].vpn);
        && h'.own[q].vpn < TRAPFRAME && m in h'.at
        && Entry(h', m, PX(0, h'.own[q].vpn)).v && Entry(h', m, PX(0, h'.own[q].vpn)).ppn == q
    {
      HungEntry(h, n, i, p, PathNode(h'.own[q].root, 0, h'.own[q].vpn), PX(0, h'.own[q].vpn));
    }
  }

  lemma HungMaps(h: Heap, n: Node, i: nat, p: nat)
    requires CanHang(h, n, i, p) && NodesOk(Hung(h, n, i, p))
    ensures SameMaps(h, Hung(h, n, i, p))
  {
    var h' := Hung(h, n, i, p);
    forall root ensures Maps(h', root) == Maps(h, root) {
      forall vpn: nat ensures Lookup(h', root, vpn).v == Lookup(h, root, vpn).v
                      ensures Lookup(h', root, vpn).v ==> Lookup(h', root, vpn) == Lookup(h, root, vpn) {
        if PathNode(root, 0, vpn) in h'.at {
          HungEntry(h, n, i, p, PathNode(root, 0, vpn), PX(0, vpn));
        }
      }
    }
  }

  lemma HangKeepsWf(h: Heap, n: Node, i: nat, p: nat)
    requires Wf(h) && n in h.at && n.level > 0 && i < ENTRIES && !Entry(h, n, i).v && InSpace(Child(n, i))
    requires p in h.own && h.own[p].Kernel?
    ensures Wf(Hung(h, n, i, p)) && SameMaps(h, Hung(h, n, i, p))
  {
    hide DownOk, LeavesOk, SameMaps;
    ChildParent(n, i);
    assert CanHang(h, n, i, p);
    HungNodes(h, n, i, p);
    HungDown(h, n, i, p);
    HungLeaves(h, n, i, p);
    HungMaps(h, n, i, p);
  }

  /** A last-level entry is overwritten and leaf pages change hands. */
  ghost function Stored(h: Heap, root: nat, vpn: nat, e: Pte, own: map<nat, Owner>): Heap
    requires NodesOk(h) && PathNode(root, 0, vpn) in h.at
  {
    var q := h.at[PathNode(root, 0, vpn)];
    Heap(h.free, h.table[q := h.table[q][PX(0, vpn) := e]], own, h.at)
  }

  ghost predicate SameTableOwners(own: map<nat, Owner>, own': map<nat, Owner>) {
    && (forall p | p in own && own[p].Table? :: p in own' && own'[p] == own[p])
    && (forall p | p in own' && own'[p].Table? :: p in own && own[p] == own'[p])
  }

  lemma StoredNodes(h: Heap, root: nat, vpn: nat, e: Pte, own: map<nat, Owner>)
    requires NodesOk(h) && PathNode(root, 0, vpn) in h.at && SameTableOwners(h.own, own)
    ensures NodesOk(Stored(h, root, vpn, e, own))
    ensures forall m, j | m in h.at && 0 <= j < ENTRIES ::
      Entry(Stored(h, root, vpn, e, own), m, j)
      == if m == PathNode(root, 0, vpn) && j == PX(0, vpn) then e else Entry(h, m, j)
  {
    var h' := Stored(h, root, vpn, e, own);
    var n := PathNode(root, 0, vpn);
    assert NodeOk(h, n);
    forall m | m in h'.at ensures NodeOk(h', m) {
      assert NodeOk(h, m);
    }
  }

  lemma StoredDown(h: Heap, root: nat, vpn: nat, e: Pte, own: map<nat, Owner>)
    requires NodesOk(h) && PathNode(root, 0, vpn) in h.at && SameTableOwners(h.own, own)
    requires DownOk(h, {}) && UpOk(h) && NodesOk(Stored(h, root, vpn, e, own))
    ensures DownOk(Stored(h, root, vpn, e, own), {}) && UpOk(Stored(h, root, vpn, e, own))
  {
    StoredNodes(h, root, vpn, e, own);
    var h' := Stored(h, root, vpn, e, own);
    forall m | m in h'.at && m.level < 2
      ensures Parent(m) in h'.at
      ensures Entry(h', Parent(m), Index(m)).v && Entry(h', Parent(m), Index(m)).ppn == h'.at[m]
    {
      assert Entry(h', Parent(m), Index(m)) == Entry(h, Parent(m), Index(m));
    }
  }

  /** One entry after a store. */
  lemma StoredEntry(h: Heap, root: nat, vpn: nat, e: Pte, own: map<nat, Owner>, m: Node, j: nat)
    requires NodesOk(h) && PathNode(root, 0, vpn) in h.at && NodesOk(Stored(h, root, vpn, e, own)) && m in h.at && j < ENTRIES
    ensures Entry(Stored(h, root, vpn, e, own), m, j) == if m == PathNode(root, 0, vpn) && j == PX(0, vpn) then e else Entry(h, m, j)
  {
    assert NodeOk(h, PathNode(root, 0, vpn)) && NodeOk(h, m);
  }

  lemma StoredLookup(h: Heap, root: nat, vpn: nat, e: Pte, own: map<nat, Owner>, r: nat, v: nat)
    requires NodesOk(h) && PathNode(root, 0, vpn) in h.at && vpn < PAGES && v < PAGES && NodesOk(Stored(h, root, vpn, e, own))
    ensures Lookup(Stored(h, root, vpn, e, own), r, v) == if r == root && v == vpn then e else Lookup(h, r, v)
  {
    hide NodeOk, Entry, SameTableOwners;
    if PathNode(r, 0, v) in h.at {
      StoredEntry(h, root, vpn, e, own, PathNode(r, 0, v), PX(0, v));
      if PathNode(r, 0, v) == PathNode(root, 0, vpn) && PX(0, v) == PX(0, vpn) {
        SlotsDistinct(root, v, vpn);
      }
    }
  }

  lemma StoredMaps(h: Heap, root: nat, vpn: nat, e: Pte, own: map<nat, Owner>)
    requires NodesOk(h) && PathNode(root, 0, vpn) in h.at && SameTableOwners(h.own, own) && vpn < PAGES
    requires NodesOk(Stored(h, root, vpn, e, own))
    ensures OnlyMap(h, Stored(h, root, vpn, e, own), root,
                    if e.v then Maps(h, root)[vpn := e] else Maps(h, root) - {vpn})
  {
    hide NodeOk, Entry, SameTableOwners, Lookup, PathNode, PX;
    var h' := Stored(h, root, vpn, e, own);
    forall r: nat, v: nat | v < PAGES
      ensures Lookup(h', r, v) == if r == root && v == vpn then e else Lookup(h, r, v)
    {
      StoredLookup(h, root, vpn, e, own, r, v);
    }
  }

  /** mappages, one page: an empty entry takes a mapping; a user mapping takes its page over. */
  ghost function Mapped(h: Heap, root: nat, vpn: nat, e: Pte): Heap
    requires NodesOk(h) && PathNode(root, 0, vpn) in h.at
  {
    Stored(h, root, vpn, e, if vpn < TRAPFRAME then h.own[e.ppn := Leaf(root, vpn)] else h.own)
  }

  lemma SameFree(h: Heap, h': Heap)
    requires FreeOk(h) && h'.free == h.free && h'.own == h.own
    ensures FreeOk(h')
  {
  }

  lemma OwnerKeepsFree(h: Heap, h': Heap, p: nat, o: Owner)
    requires FreeOk(h) && p in h.own && !h.own[p].Free? && !o.Free?
    requires h'.free == h.free && h'.own == h.own[p := o]
    ensures FreeOk(h')
  {
  }

  lemma MapKeepsWf(h: Heap, root: nat, vpn: nat, e: Pte)
    requires Wf(h) && PathNode(root, 0, vpn) in h.at && vpn < PAGES
    requires !Lookup(h, root, vpn).v && e.v && HasPerm(e)
    requires vpn < TRAPFRAME ==> e.ppn in h.own && h.own[e.ppn].Kernel?
    ensures Wf(Mapped(h, root, vpn, e))
    ensures OnlyMap(h, Mapped(h, root, vpn, e), root, Maps(h, root)[vpn := e])
  {
    hide FreeOk, DownOk, UpOk, LeavesOk, OnlyMap, HasPerm;
    var own := if vpn < TRAPFRAME then h.own[e.ppn := Leaf(root, vpn)] else h.own;
    assert SameTableOwners(h.own, own);
    if vpn < TRAPFRAME {
      OwnerKeepsFree(h, Mapped(h, root, vpn, e), e.ppn, Leaf(root, vpn));
    } else {
      SameFree(h, Mapped(h, root, vpn, e));
    }
    StoredNodes(h, root, vpn, e, own);
    StoredDown(h, root, vpn, e, own);
    StoredMaps(h, root, vpn, e, own);
    MappedLeaves(h, root, vpn, e);
  }

  /** What LeavesOk says of one valid last-level entry, and of one user page. */
  ghost predicate EntryOk(h: Heap, m: Node, j: nat)
    requires NodesOk(h) && m in h.at && j < ENTRIES
  {
    && HasPerm(Entry(h, m, j))
    && (m.prefix * ENTRIES + j < TRAPFRAME ==>
          Entry(h, m, j).ppn in h.own && h.own[Entry(h, m, j).ppn] == Leaf(m.root, m.prefix * ENTRIES + j))
  }

  ghost predicate LeafOk(h: Heap, q: nat)
    requires NodesOk(h) && q in h.own && h.own[q].Leaf?
  {
    var m := PathNode(h.own[q].root, 0, h.own[q].vpn);
    && h.own[q].vpn < TRAPFRAME && m in h.at
    && Entry(h, m, PX(0, h.own[q].vpn)).v && Entry(h, m, PX(0, h.own[q].vpn)).ppn == q
  }

  lemma MappedLeaves(h: Heap, root: nat, vpn: nat, e: Pte)
    requires NodesOk(h) && LeavesOk(h) && PathNode(root, 0, vpn) in h.at && vpn < PAGES
    requires !Lookup(h, root, vpn).v && e.v && HasPerm(e)
    requires vpn < TRAPFRAME ==> e.ppn in h.own && h.own[e.ppn].Kernel?
    requires NodesOk(Mapped(h, root, vpn, e))
    ensures LeavesOk(Mapped(h, root, vpn, e))
  {
    hide NodeOk, Entry, HasPerm, PX, PathNode;
    var h' := Mapped(h, root, vpn, e);
    forall m, j | m in h'.at && m.level == 0 && 0 <= j < ENTRIES && Entry(h', m, j).v ensures EntryOk(h', m, j) {
      MappedEntry(h, root, vpn, e, m, j);
    }
    forall q | q in h'.own && h'.own[q].Leaf? ensures LeafOk(h', q) {
      MappedLeaf(h, root, vpn, e, q);
    }
  }

  lemma MappedEntry(h: Heap, root: nat, vpn: nat, e: Pte, m: Node, j: nat)
    requires NodesOk(h) && LeavesOk(h) && PathNode(root, 0, vpn) in h.at && vpn < PAGES && HasPerm(e)
    requires vpn < TRAPFRAME ==> e.ppn in h.own && h.own[e.ppn].Kernel?
    requires NodesOk(Mapped(h, root, vpn, e)) && m in h.at && m.level == 0 && j < ENTRIES && Entry(Mapped(h, root, vpn, e), m, j).v
    ensures EntryOk(Mapped(h, root, vpn, e), m, j)
  {
    hide NodesOk, Entry, HasPerm;
    StoredEntry(h, root, vpn, e, Mapped(h, root, vpn, e).own, m, j);
  }

  lemma MappedLeaf(h: Heap, root: nat, vpn: nat, e: Pte, q: nat)
    requires NodesOk(h) && LeavesOk(h) && PathNode(root, 0, vpn) in h.at && vpn < PAGES && !Lookup(h, root, vpn).v && e.v
    requires vpn < TRAPFRAME ==> e.ppn in h.own && h.own[e.ppn].Kernel?
    requires NodesOk(Mapped(h, root, vpn, e)) && q in Mapped(h, root, vpn, e).own && Mapped(h, root, vpn, e).own[q].Leaf?
    ensures LeafOk(Mapped(h, root, vpn, e), q)
  {
    hide NodesOk, Entry, HasPerm, PathNode;
    var h' := Mapped(h, root, vpn, e);
    var m := PathNode(h'.own[q].root, 0, h'.own[q].vpn);
    assert m in h.at;
    StoredEntry(h, root, vpn, e, h'.own, m, PX(0, h'.own[q].vpn));
  }

  /** uvmunmap, one page: the entry is zeroed and a user page goes back to the kernel. */
  ghost function Unmapped(h: Heap, root: nat, vpn: nat): Heap
    requires NodesOk(h) && PathNode(root, 0, vpn) in h.at
  {
    Stored(h, root, vpn, NOPTE,
           if vpn < TRAPFRAME then h.own[Lookup(h, root, vpn).ppn := Kernel] else h.own)
  }

  lemma LeafOwned(h: Heap, root: nat, vpn: nat)
    requires NodesOk(h) && LeavesOk(h) && PathNode(root, 0, vpn) in h.at && Lookup(h, root, vpn).v && vpn < TRAPFRAME
    ensures Lookup(h, root, vpn).ppn in h.own && h.own[Lookup(h, root, vpn).ppn] == Leaf(root, vpn)
  {
  }

  lemma UnmapKeepsWf(h: Heap, root: nat, vpn: nat)
    requires Wf(h) && PathNode(root, 0, vpn) in h.at && vpn < PAGES && Lookup(h, root, vpn).v
    ensures vpn < TRAPFRAME ==>
      Lookup(h, root, vpn).ppn in h.own && h.own[Lookup(h, root, vpn).ppn] == Leaf(root, vpn)
    ensures Wf(Unmapped(h, root, vpn))
    ensures OnlyMap(h, Unmapped(h, root, vpn), root, Maps(h, root) - {vpn})
  {
    hide FreeOk, DownOk, UpOk, LeavesOk, OnlyMap;
    if vpn < TRAPFRAME {
      LeafOwned(h, root, vpn);
    }
    var own := Unmapped(h, root, vpn).own;
    assert SameTableOwners(h.own, own);
    if vpn < TRAPFRAME {
      OwnerKeepsFree(h, Unmapped(h, root, vpn), Lookup(h, root, vpn).ppn, Kernel);
    } else {
      SameFree(h, Unmapped(h, root, vpn));
    }
    StoredNodes(h, root, vpn, NOPTE, own);
    StoredDown(h, root, vpn, NOPTE, own);
    StoredMaps(h, root, vpn, NOPTE, own);
    UnmappedLeaves(h, root, vpn);
  }

  lemma UnmappedLeaves(h: Heap, root: nat, vpn: nat)
    requires NodesOk(h) && LeavesOk(h) && PathNode(root, 0, vpn) in h.at && vpn < PAGES && Lookup(h, root, vpn).v
    requires NodesOk(Unmapped(h, root, vpn)) && SameTableOwners(h.own, Unmapped(h, root, vpn).own)
    ensures LeavesOk(Unmapped(h, root, vpn))
  {
    hide NodeOk, Entry, HasPerm, PX, PathNode;
    var h' := Unmapped(h, root, vpn);
    forall m, j | m in h'.at && m.level == 0 && 0 <= j < ENTRIES && Entry(h', m, j).v ensures EntryOk(h', m, j) {
      UnmappedEntry(h, root, vpn, m, j);
    }
    forall q | q in h'.own && h'.own[q].Leaf? ensures LeafOk(h', q) {
      UnmappedLeaf(h, root, vpn, q);
    }
  }

  lemma UnmappedEntry(h: Heap, root: nat, vpn: nat, m: Node, j: nat)
    requires NodesOk(h) && LeavesOk(h) && PathNode(root, 0, vpn) in h.at && vpn < PAGES && Lookup(h, root, vpn).v
    requires NodesOk(Unmapped(h, root, vpn)) && m in h.at && m.level == 0 && j < ENTRIES && Entry(Unmapped(h, root, vpn), m, j).v
    ensures EntryOk(Unmapped(h, root, vpn), m, j)
  {
    hide NodesOk, Entry, HasPerm;
    StoredEntry(h, root, vpn, NOPTE, Unmapped(h, root, vpn).own, m, j);
    SlotOf(m, j);
    if vpn < TRAPFRAME {
      LeafOwned(h, root, vpn);
    }
  }

  lemma UnmappedLeaf(h: Heap, root: nat, vpn: nat, q: nat)
    requires NodesOk(h) && LeavesOk(h) && PathNode(root, 0, vpn) in h.at && vpn < PAGES && Lookup(h, root, vpn).v
    requires NodesOk(Unmapped(h, root, vpn)) && q in Unmapped(h, root, vpn).own && Unmapped(h, root, vpn).own[q].Leaf?
    ensures LeafOk(Unmapped(h, root, vpn), q)
  {
    hide NodesOk, Entry, HasPerm;
    var h' := Unmapped(h, root, vpn);
    var m := PathNode(h'.own[q].root, 0, h'.own[q].vpn);
    assert h'.own[q] == h.own[q] && m in h.at;
    StoredEntry(h, root, vpn, NOPTE, h'.own, m, PX(0, h'.own[q].vpn));
  }

  ghost function Rooted(h: Heap, p: nat): Heap {
    Heap(h.free, h.table[p := EmptyTable()], h.own[p := Table(Node(p, 2, 0))], h.at[Node(p, 2, 0) := p])
  }

  /** A page table that has no root page has no other page either. */
  lemma {:induction false} NoRootNoNodes(h: Heap, n: Node)
    requires NodesOk(h) && UpOk(h) && n in h.at
    ensures IsRoot(h, n.root)
    decreases 2 - n.level
  {
    assert NodeOk(h, n);
    if n.level < 2 {
      NoRootNoNodes(h, Parent(n));
    }
  }

  lemma RootKeepsWf(h: Heap, p: nat)
    requires Wf(h) && p in h.own && h.own[p].Kernel?
    ensures Wf(Rooted(h, p)) && !IsRoot(h, p) && OnlyMap(h, Rooted(h, p), p, map[])
  {
    hide FreeOk, NodesOk, DownOk, UpOk, LeavesOk, OnlyMap;
    RootedNodes(h, p);
    RootedDown(h, p);
    RootedLeaves(h, p);
    RootedMaps(h, p);
    OwnerKeepsFree(h, Rooted(h, p), p, Table(Node(p, 2, 0)));
  }

  lemma RootedMaps(h: Heap, p: nat)
    requires NodesOk(h) && UpOk(h) && NodesOk(Rooted(h, p)) && p in h.own && h.own[p].Kernel?
    ensures !IsRoot(h, p) && OnlyMap(h, Rooted(h, p), p, map[])
  {
    hide UpOk;
    RootedNodes(h, p);
    var h' := Rooted(h, p);
    forall n | n in h.at ensures n.root != p {
      NoRootNoNodes(h, n);
    }
    forall r: nat, v: nat ensures Lookup(h', r, v) == if r == p then NOPTE else Lookup(h, r, v) {
      PXInRange(0, v);
    }
  }

  lemma RootedNodes(h: Heap, p: nat)
    requires NodesOk(h) && p in h.own && h.own[p].Kernel?
    ensures NodesOk(Rooted(h, p))
    ensures forall n | n in h.at :: n != Node(p, 2, 0) && NodeOk(h, n) && NodeOk(Rooted(h, p), n)
    ensures NodeOk(Rooted(h, p), Node(p, 2, 0))
    ensures forall i | 0 <= i < ENTRIES :: Entry(Rooted(h, p), Node(p, 2, 0), i) == NOPTE
    ensures forall n, i | n in h.at && 0 <= i < ENTRIES :: Entry(Rooted(h, p), n, i) == Entry(h, n, i)
  {
    var h' := Rooted(h, p);
    forall n | n in h'.at ensures NodeOk(h', n) {
      assert n != Node(p, 2, 0) ==> NodeOk(h, n);
    }
    forall n | n in h.at ensures n != Node(p, 2, 0) && NodeOk(h, n) {
      assert NodeOk(h, n);
    }
  }

  lemma RootedDown(h: Heap, p: nat)
    requires NodesOk(h) && DownOk(h, {}) && UpOk(h) && p in h.own && h.own[p].Kernel? && NodesOk(Rooted(h, p))
    ensures DownOk(Rooted(h, p), {}) && UpOk(Rooted(h, p))
  {
    hide NodesOk;
    RootedNodes(h, p);
    var h' := Rooted(h, p);
    forall n, i | n in h'.at && n.level > 0 && 0 <= i < ENTRIES && Entry(h', n, i).v
      ensures !HasPerm(Entry(h', n, i)) && Child(n, i) in h'.at && h'.at[Child(n, i)] == Entry(h', n, i).ppn
    {
      assert n in h.at;
    }
    forall n | n in h'.at && n.level < 2
      ensures Parent(n) in h'.at
      ensures Entry(h', Parent(n), Index(n)).v && Entry(h', Parent(n), Index(n)).ppn == h'.at[n]
    {
      assert Parent(n) in h.at;
    }
  }

  lemma RootedLeaves(h: Heap, p: nat)
    requires NodesOk(h) && LeavesOk(h) && p in h.own && h.own[p].Kernel? && NodesOk(Rooted(h, p))
    ensures LeavesOk(Rooted(h, p))
  {
    hide NodesOk;
    RootedNodes(h, p);
    var h' := Rooted(h, p);
    forall n, i | n in h'.at && n.level == 0 && 0 <= i < ENTRIES && Entry(h', n, i).v
      ensures HasPerm(Entry(h', n, i))
      ensures n.prefix * ENTRIES + i < TRAPFRAME ==>
                Entry(h', n, i).ppn in h'.own && h'.own[Entry(h', n, i).ppn] == Leaf(n.root, n.prefix * ENTRIES + i)
    {
      assert n in h.at && Entry(h, n, i) == Entry(h', n, i);
    }
    forall q | q in h'.own && h'.own[q].Leaf?
      ensures var n := PathNode(h'.own[q].root, 0, h'.own[q].vpn);
        && h'.own[q].vpn < TRAPFRAME && n in h'.at
        && Entry(h', n, PX(0, h'.own[q].vpn)).v && Entry(h', n, PX(0, h'.own[q].vpn)).ppn == q
    {
      PXInRange(0, h'.own[q].vpn);
    }
  }

  lemma PXInRange(level: nat, vpn: nat)
    ensures PX(level, vpn) < ENTRIES
  {
  }
}
