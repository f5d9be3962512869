/** The page allocator and the operations on user address spaces. */
module AddressSpace {
  import opened Collections
  import opened Ownership
  import opened PageTable
  import opened Subtrees

  datatype MapResult = Ok | NoMemory | Remap

  class Vm {
    var free: seq<nat>
    var table: map<nat, seq<Pte>>
    var page: map<nat, Page>
    ghost var own: map<nat, Owner>
    ghost var at: map<Node, nat>

    ghost function H(): Heap
      reads this
    {
      Heap(free, table, own, at)
    }

    /** kinit: hand every page of a range to the allocator. */
    constructor (lo: nat, hi: nat)
      requires lo <= hi
      ensures Wf(H()) && table == map[] && at == map[] && own.Keys == Range(lo, hi)
      ensures |free| == hi - lo && forall p | p in own :: own[p].Free?
    {
      hide Wf;
      free, table, page, at := [], map[], map[], map[];
      own := map p | p in Range(lo, hi) :: Kernel;
      new;
      NothingYet(H());
      var p := lo;
      while p < hi
        invariant lo <= p <= hi && |free| == p - lo && Wf(H()) && table == map[] && at == map[] && own.Keys == Range(lo, hi)
        invariant forall q | q in own :: own[q] == if q < p then Free else Kernel
      {
        Kfree(p);
        p := p + 1;
      }
    }

    /** Take a page off the free list. */
    method Kalloc() returns (p: nat, ok: bool)
      requires Wf(H())
      modifies this`free, this`own
      ensures ok <==> old(free) != []
      ensures !ok ==> H() == old(H())
      ensures ok ==> p == old(free)[0] && H() == Took(old(H()))
      ensures Wf(H()) && SameMaps(old(H()), H())
    {
      if free == [] {
        return 0, false;
      }
      TakeKeepsWf(H());
      p := free[0];
      free := free[1..];
      own := own[p := Kernel];
      return p, true;
    }

    /** Put a page back at the front of the free list. */
    method Kfree(p: nat)
      requires Wf(H()) && p in own && own[p].Kernel?
      modifies this`free, this`own
      ensures H() == Gave(old(H()), p)
      ensures Wf(H()) && SameMaps(old(H()), H())
    {
      GiveKeepsWf(H(), p);
      free := [p] + free;
      own := own[p := Free];
    }

    /** The page that holds the last-level entry of a virtual page, with the pages on the way to it
        created if asked for. */
    method Walk(root: nat, vpn: nat, alloc: bool) returns (t: nat, ok: bool)
      requires Wf(H()) && IsRoot(H(), root) && vpn < PAGES
      modifies this`free, this`table, this`own, this`at
      ensures Wf(H()) && SameMaps(old(H()), H())
      ensures Grew(old(own), own, root, false) && Extends(old(at), at)
      ensures !alloc ==> H() == old(H())
      ensures ok ==> PathNode(root, 0, vpn) in at && at[PathNode(root, 0, vpn)] == t
      ensures !ok ==> PathNode(root, 0, vpn) !in at && (alloc ==> free == [] && |old(free)| <= 1)
      ensures |old(free)| <= |free| + 2
    {
      hide SameMaps, FreeOk, NodesOk, DownOk, UpOk, LeavesOk, Entry, Child, PathNode, PX, Grew, InSpace;
      t := root;
      var level := 2;
      WfNodes(H());
      SameMapsRefl(H());
      GrewRefl(own, root, false);
      PathTop(root, vpn);
      NodeAt(H(), Node(root, 2, 0));
      while level > 0
        invariant 0 <= level <= 2
        invariant Wf(H()) && SameMaps(old(H()), H())
        invariant Grew(old(own), own, root, false) && Extends(old(at), at)
        invariant !alloc ==> H() == old(H())
        invariant PathNode(root, level, vpn) in at && at[PathNode(root, level, vpn)] == t
        invariant |old(free)| <= |free| + (2 - level)
      {
        ghost var n, h := PathNode(root, level, vpn), H();
        PathStep(root, level, vpn);
        PathParts(root, level, vpn);
        NodeAt(h, n);
        EntryAt(h, n, PX(level, vpn));
        if table[t][PX(level, vpn)].v {
          t := table[t][PX(level, vpn)].ppn;
        } else {
          WalkStops(h, root, level, vpn);
          if !alloc {
            return 0, false;
          }
          var p, got := NewTable(t, PX(level, vpn), n);
          if !got {
            return 0, false;
          }
          WfNodes(old(H()));
          SameMapsTrans(old(H()), h, H());
          GrewTrans(old(own), h.own, own, root, false);
          t := p;
        }
        level := level - 1;
      }
      ok := true;
    }

    /** mappages for one page: map an unmapped virtual page, or leave the map as it was. */
    method Mappages(root: nat, vpn: nat, e: Pte) returns (r: MapResult)
      requires Wf(H()) && IsRoot(H(), root) && vpn < PAGES && e.v && HasPerm(e)
      requires vpn < TRAPFRAME ==> e.ppn in own && own[e.ppn].Kernel?
      modifies this`free, this`table, this`own, this`at
      ensures Wf(H()) && Extends(old(at), at)
      ensures r.Remap? <==> vpn in Maps(old(H()), root)
      ensures r.Ok? ==> OnlyMap(old(H()), H(), root, Maps(old(H()), root)[vpn := e])
      ensures !r.Ok? ==> SameMaps(old(H()), H())
      ensures Grew(if r.Ok? && vpn < TRAPFRAME then old(own)[e.ppn := Leaf(root, vpn)] else old(own), own, root, false)
      ensures r.NoMemory? ==> |old(free)| <= 1
      ensures |old(free)| <= |free| + 2
    {
      hide FreeOk, NodesOk, DownOk, UpOk, LeavesOk, Entry, PathNode, PX;
      var t, ok := Walk(root, vpn, true);
      if !ok {
        return NoMemory;
      }
      ghost var h := H();
      WfNodes(h);
      NodeAt(h, PathNode(root, 0, vpn));
      PathParts(root, 0, vpn);
      PXInRange(0, vpn);
      EntryAt(h, PathNode(root, 0, vpn), PX(0, vpn));
      if table[t][PX(0, vpn)].v {
        return Remap;
      }
      MapKeepsWf(h, root, vpn, e);
      table := table[t := table[t][PX(0, vpn) := e]];
      if vpn < TRAPFRAME {
        own := own[e.ppn := Leaf(root, vpn)];
      }
      assert H() == Mapped(h, root, vpn, e);
      return Ok;
    }

    /** Remove a range of mappings and, if asked to, free the pages they map. */
    method Uvmunmap(root: nat, vpn: nat, npages: nat, doFree: bool)
      requires Wf(H()) && IsRoot(H(), root) && vpn + npages <= PAGES
      requires if doFree then vpn + npages <= TRAPFRAME else TRAPFRAME <= vpn
      modifies this`free, this`table, this`own, this`at
      ensures at == old(at)
      ensures Wf(H())
      ensures OnlyMap(old(H()), H(), root, Without(Maps(old(H()), root), vpn, vpn + npages))
      ensures own == FreeLeaves(old(own), root, vpn, vpn + npages)
    {
      hide Wf, OnlyMap, Without, FreeLeaves;
      WfNodes(H());
      UnmapNothing(H(), root, vpn);
      var a := vpn;
      while a < vpn + npages
        invariant vpn <= a <= vpn + npages
        invariant Wf(H()) && NodesOk(H()) && IsRoot(H(), root)
        invariant OnlyMap(old(H()), H(), root, Without(Maps(old(H()), root), vpn, a))
        invariant own == FreeLeaves(old(own), root, vpn, a) && at == old(at)
      {
        ghost var h := H();
        UnmapOne(root, a, doFree);
        UnmapNext(old(H()), h, H(), root, vpn, a);
        a := a + 1;
      }
    }

    /** The body of uvmunmap's loop. */
    method UnmapOne(root: nat, vpn: nat, doFree: bool)
      requires Wf(H()) && NodesOk(H()) && IsRoot(H(), root) && vpn < PAGES
      requires if doFree then vpn < TRAPFRAME else TRAPFRAME <= vpn
      modifies this`free, this`table, this`own, this`at
      ensures at == old(at)
      ensures Wf(H()) && NodesOk(H())
      ensures OnlyMap(old(H()), H(), root, Maps(old(H()), root) - {vpn})
      ensures own == FreeLeaves(old(own), root, vpn, vpn + 1)
    {
      hide FreeOk, NodesOk, DownOk, UpOk, LeavesOk, Entry, PathNode, PX, OnlyMap, SameMaps;
      ghost var h := H();
      var t, ok := Walk(root, vpn, false);
      if !ok {
        NothingMapped(h, root, vpn);
        return;
      }
      NodeAt(h, PathNode(root, 0, vpn));
      PathParts(root, 0, vpn);
      PXInRange(0, vpn);
      EntryAt(h, PathNode(root, 0, vpn), PX(0, vpn));
      if !table[t][PX(0, vpn)].v {
        NothingMapped(h, root, vpn);
        return;
      }
      var p := table[t][PX(0, vpn)].ppn;
      UnmapKeepsWf(h, root, vpn);
      table := table[t := table[t][PX(0, vpn) := NOPTE]];
      if vpn < TRAPFRAME {
        own := own[p := Kernel];
      }
      ghost var h1 := H();
      assert h1 == Unmapped(h, root, vpn);
      if doFree {
        Kfree(p);
        OnlyMapSame(h, h1, H(), root, Maps(h, root) - {vpn});
      }
      OneLeafFreed(h, root, vpn);
    }

    /** Free a page-table page and all below it. `top` is the place of the page in its table; the source
        panics on a last-level entry that is still valid. */
    method Freewalk(p: nat, ghost top: Node) returns (ok: bool)
      requires Bare(H(), top) && at[top] == p
      modifies this`free, this`table, this`own, this`at
      ensures ok && Pruned(old(H()), H(), NodesUnder(old(H()), top))
      decreases top.level
    {
      hide Bare, Pruned, Walked, NodesOk, NodesUnder, FreeOk;
      ghost var h := H();
      WalkedNothing(h, top);
      BareTop(h, top);
      ghost var t := table[p];
      var i := 0;
      while i < ENTRIES
        invariant 0 <= i <= ENTRIES
        invariant Bare(h, top) && Walked(h, H(), top, i, t)
        invariant top in at && at[top] == p && p in table && |table[p]| == ENTRIES && table[p] == t
      {
        WalkedNextBare(h, H(), top, i, t);
        var e := table[p][i];
        if e.v && !HasPerm(e) {
          ghost var h1 := H();
          ok := Freewalk(e.ppn, Child(top, i));
          AfterKid(h1, H(), top, i);
          WalkedFreed(h, h1, H(), top, i, t);
          t := t[i := NOPTE];
          table := table[p := table[p][i := NOPTE]];
        } else if e.v {
          return false;
        } else {
          WalkedSkipped(h, H(), top, i, t);
        }
        i := i + 1;
      }
      WalkedDone(h, H(), top, t, Heap([p] + free, table - {p}, own[p := Free], at - {top}));
      table := table - {p};
      at := at - {top};
      free := [p] + free;
      own := own[p := Free];
      ok := true;
    }

    /** A page table that maps nothing. */
    method Uvmcreate() returns (root: nat, ok: bool)
      requires Wf(H())
      modifies this`free, this`table, this`own, this`at
      ensures Wf(H())
      ensures ok <==> old(free) != []
      ensures !ok ==> H() == old(H())
      ensures ok ==>
        && |old(free)| == |free| + 1
        && IsRoot(H(), root) && !IsRoot(old(H()), root) && Extends(old(at), at)
        && OnlyMap(old(H()), H(), root, map[])
        && root in old(own) && old(own)[root].Free? && own == old(own)[root := Table(Node(root, 2, 0))]
    {
      hide FreeOk, NodesOk, DownOk, UpOk, LeavesOk, OnlyMap, SameMaps;
      ghost var h := H();
      root, ok := Kalloc();
      if ok {
        FirstIsFree(h);
        ghost var h1 := H();
        RootKeepsWf(h1, root);
        WfNodes(h);
        WfNodes(h1);
        WfNodes(Rooted(h1, root));
        SameThenOnly(h, h1, Rooted(h1, root), root, map[]);
        table := table[root := EmptyTable()];
        own := own[root := Table(Node(root, 2, 0))];
        at := at[Node(root, 2, 0) := root];
        assert H() == Rooted(h1, root);
      }
    }

    /** Free user memory, then the page table. */
    method Uvmfree(root: nat, sz: nat)
      requires Wf(H()) && IsRoot(H(), root) && PagesOf(sz) <= TRAPFRAME
      requires forall v | v in Maps(H(), root) :: v < PagesOf(sz)
      modifies this`free, this`table, this`own, this`at
      ensures Wf(H())
      ensures own == FreeAll(old(own), root)
      ensures forall r | r != root :: Maps(H(), r) == Maps(old(H()), r)
      ensures forall r | r != root && IsRoot(old(H()), r) :: IsRoot(H(), r)
    {
      hide Wf, FreeLeaves, Maps;
      ghost var h := H();
      WfNodes(h);
      if sz > 0 {
        Uvmunmap(root, 0, PagesOf(sz), true);
      }
      ghost var h1 := H();
      WfNodes(h1);
      AllUnmapped(h, h1, root, PagesOf(sz), sz > 0);
      RootBare(h1, root);
      var ok := Freewalk(root, Node(root, 2, 0));
      RootPruned(h1, H(), root);
      AllFreed(h, root, PagesOf(sz), sz > 0);
    }

    /** The kalloc, fill, mappages, kfree-on-failure sequence that uvmalloc, uvmcopy and vmfault
        share. The page is unmapped before, so mappages cannot panic with a remap. */
    method MapFresh(root: nat, vpn: nat, e: Pte, content: Page) returns (p: nat, ok: bool)
      requires Wf(H()) && IsRoot(H(), root) && vpn < TRAPFRAME && vpn !in Maps(H(), root) && e.v && HasPerm(e)
      modifies this`free, this`table, this`page, this`own, this`at
      ensures Wf(H()) && Extends(old(at), at)
      ensures Grew(old(own), own, root, ok) && KeptPages(old(own), old(page), page)
      ensures ok ==> p in page && page[p] == content && p in own && own[p] == Leaf(root, vpn)
      ensures ok ==> OnlyMap(old(H()), H(), root, Maps(old(H()), root)[vpn := e.(ppn := p)])
      ensures !ok ==> SameMaps(old(H()), H()) && |old(free)| <= 2
      ensures ok ==> |old(free)| <= |free| + 3
    {
      hide Wf, OnlyMap, SameMaps, Maps, NodesOk, Grew, KeptPages;
      ghost var h := H();
      WfNodes(h);
      KeptUnused(own, page, 0, content);
      p, ok := Kalloc();
      if !ok {
        SameMapsRefl(h);
        GrewRefl(own, root, false);
        return;
      }
      FirstIsFree(h);
      ghost var h1 := H();
      WfNodes(h1);
      assert h1.own[p := Leaf(root, vpn)] == h.own[p := Leaf(root, vpn)];
      KeptUnused(h.own, page, p, content);
      page := page[p := content];
      SameMapsAt(h, h1, root);
      var r := Mappages(root, vpn, e.(ppn := p));
      assert !r.Remap?;
      ghost var h2 := H();
      WfNodes(h2);
      if !r.Ok? {
        ok := false;
        GrewPast(h.own, h2.own, root, p, Kernel);
        Kfree(p);
        WfNodes(H());
        SameMapsTrans(h, h1, h2);
        SameMapsTrans(h, h2, H());
        return;
      }
      GrewPast(h.own, h2.own, root, p, Leaf(root, vpn));
      SameThenOnly(h, h1, h2, root, Maps(h, root)[vpn := e.(ppn := p)]);
    }

    /** Deallocate user pages to bring a process from one size to another, in bytes. */
    method Uvmdealloc(root: nat, oldsz: nat, newsz: nat) returns (r: nat)
      requires Wf(H()) && IsRoot(H(), root) && PagesOf(oldsz) <= TRAPFRAME
      modifies this`free, this`table, this`own, this`at
      ensures r == if newsz < oldsz then newsz else oldsz
      ensures Wf(H()) && at == old(at)
      ensures OnlyMap(old(H()), H(), root, Without(Maps(old(H()), root), PagesOf(newsz), PagesOf(oldsz)))
      ensures own == FreeLeaves(old(own), root, PagesOf(newsz), PagesOf(oldsz))
    {
      hide Wf, OnlyMap, Maps;
      WfNodes(H());
      PagesOfMonotone(newsz, oldsz);
      if newsz >= oldsz || PagesOf(newsz) >= PagesOf(oldsz) {
        UnmapNone(H(), root, PagesOf(newsz), PagesOf(oldsz));
        return if newsz >= oldsz then oldsz else newsz;
      }
      Uvmunmap(root, PagesOf(newsz), PagesOf(oldsz) - PagesOf(newsz), true);
      return newsz;
    }

    /** Allocate zeroed pages and entries to grow a process; 0 when out of memory, and then the
        mappings are as they were. */
    method Uvmalloc(root: nat, oldsz: nat, newsz: nat, w: bool, x: bool) returns (r: nat)
      requires Wf(H()) && IsRoot(H(), root) && PagesOf(oldsz) <= TRAPFRAME && PagesOf(newsz) <= TRAPFRAME
      requires forall v | v in Maps(H(), root) :: !(PagesOf(oldsz) <= v < PagesOf(newsz))
      modifies this`free, this`table, this`page, this`own, this`at
      ensures Wf(H()) && Extends(old(at), at)
      ensures newsz < oldsz ==> r == oldsz && H() == old(H()) && page == old(page)
      ensures newsz >= oldsz ==> r == newsz || r == 0
      ensures newsz >= oldsz && r != 0 ==>
        Filled(old(H()), old(page), H(), page, root, ZeroPages(PagesOf(oldsz), PagesOf(newsz), w, x))
      ensures newsz >= oldsz && r == 0 ==>
        && SameMaps(old(H()), H()) && Grew(old(own), own, root, false) && KeptPages(old(own), old(page), page)
      ensures newsz >= oldsz && r == 0 && newsz != 0 ==> |old(free)| < 3 * (PagesOf(newsz) - PagesOf(oldsz))
    {
      hide Wf, OnlyMap, Filled, SameMaps, Grew, Maps, KeptPages, NodesOk, Without, FreeLeaves, ZeroPages;
      ghost var h, pg := H(), page;
      WfNodes(h);
      if newsz < oldsz {
        return oldsz;
      }
      PagesOfMonotone(oldsz, newsz);
      var lo := PagesOf(oldsz);
      var a := lo;
      ZeroPagesNext(lo, lo, w, x);
      FilledNothing(h, pg, root, ZeroPages(lo, lo, w, x));
      while a * PGSIZE < newsz
        invariant lo <= a <= PagesOf(newsz)
        invariant Wf(H()) && NodesOk(H()) && Extends(old(at), at)
        invariant Filled(h, pg, H(), page, root, ZeroPages(lo, a, w, x))
        invariant |old(free)| <= |free| + 3 * (a - lo)
        decreases PagesOf(newsz) - a
      {
        ghost var h1, pg1 := H(), page;
        ZeroPagesNext(lo, a, w, x);
        FilledFree(h, pg, h1, pg1, root, ZeroPages(lo, a, w, x), a);
        var p, ok := MapFresh(root, a, Pte(0, true, true, w, x, true), ZeroPage());
        WfNodes(H());
        if !ok {
          ghost var h2 := H();
          FilledSame(h, pg, h1, pg1, h2, page, root, ZeroPages(lo, a, w, x));
          PagesOfPages(a);
          PagesOfPages(lo);
          var _ := Uvmdealloc(root, a * PGSIZE, lo * PGSIZE);
          WfNodes(H());
          FilledUndone(h, pg, h2, page, H(), root, ZeroPages(lo, a, w, x), lo, a);
          return 0;
        }
        FilledNext(h, pg, h1, pg1, H(), page, root, ZeroPages(lo, a, w, x), a,
                   Want(Pte(0, true, true, w, x, true), ZeroPage()), p);
        a := a + 1;
      }
      if newsz == 0 {
        UnmapNone(H(), root, lo, lo);
        FilledUndone(h, pg, H(), page, H(), root, ZeroPages(lo, a, w, x), lo, lo);
      }
      return newsz;
    }

    /** The entry of a virtual page: walk without allocation and a read, as ismapped and uvmcopy do it. */
    method FindPte(root: nat, vpn: nat) returns (e: Pte)
      requires Wf(H()) && IsRoot(H(), root) && vpn < PAGES
      modifies this`free, this`table, this`own, this`at
      ensures H() == old(H())
      ensures e.v <==> vpn in Maps(H(), root)
      ensures e.v ==> e == Maps(H(), root)[vpn]
    {
      hide FreeOk, NodesOk, DownOk, UpOk, LeavesOk, Entry, PathNode, PX;
      var t, ok := Walk(root, vpn, false);
      if !ok {
        return NOPTE;
      }
      NodeAt(H(), PathNode(root, 0, vpn));
      PathParts(root, 0, vpn);
      PXInRange(0, vpn);
      EntryAt(H(), PathNode(root, 0, vpn), PX(0, vpn));
      return table[t][PX(0, vpn)];
    }

    /** Copy a parent's memory, pages and flags, into a child's page table, or take everything back. */
    method Uvmcopy(parent: nat, child: nat, sz: nat) returns (ok: bool)
      requires Wf(H()) && IsRoot(H(), parent) && IsRoot(H(), child) && parent != child && PagesOf(sz) <= TRAPFRAME
      requires LeavesHeld(own, page)
      requires forall v | v in Maps(H(), child) :: PagesOf(sz) <= v
      modifies this`free, this`table, this`page, this`own, this`at
      ensures Wf(H()) && Extends(old(at), at)
      ensures forall v | v in Maps(old(H()), parent) && v < TRAPFRAME :: Maps(old(H()), parent)[v].ppn in old(page)
      ensures ok ==> Filled(old(H()), old(page), H(), page, child, Copies(Maps(old(H()), parent), old(page), PagesOf(sz)))
      ensures !ok ==>
        && SameMaps(old(H()), H()) && Grew(old(own), own, child, false) && KeptPages(old(own), old(page), page)
        && |old(free)| < 3 * PagesOf(sz)
    {
      hide Wf, OnlyMap, Filled, SameMaps, Grew, Maps, KeptPages, NodesOk, Without, FreeLeaves, Copies;
      ghost var h, pg := H(), page;
      WfNodes(h);
      MappedHeld(h, pg, parent);
      ghost var m := Maps(h, parent);
      var i := 0;
      CopiesNext(m, pg, 0);
      FilledNothing(h, pg, child, Copies(m, pg, 0));
      PagesOfMonotone(sz, sz);
      while i * PGSIZE < sz
        invariant 0 <= i <= PagesOf(sz)
        invariant Wf(H()) && NodesOk(H()) && Extends(old(at), at)
        invariant Filled(h, pg, H(), page, child, Copies(m, pg, i))
        invariant |old(free)| <= |free| + 3 * i
        decreases PagesOf(sz) - i
      {
        ghost var h1, pg1 := H(), page;
        CopiesNext(m, pg, i);
        FilledOther(h, pg, h1, pg1, child, Copies(m, pg, i), parent, i);
        var e := FindPte(parent, i);
        if e.v {
          FilledFree(h, pg, h1, pg1, child, Copies(m, pg, i), i);
          LeafHasPerm(h, parent, i);
          var p, got := MapFresh(child, i, e, page[e.ppn]);
          WfNodes(H());
          if !got {
            ghost var h2 := H();
            FilledSame(h, pg, h1, pg1, h2, page, child, Copies(m, pg, i));
            Uvmunmap(child, 0, i, true);
            WfNodes(H());
            FilledUndone(h, pg, h2, page, H(), child, Copies(m, pg, i), 0, i);
            return false;
          }
          FilledNext(h, pg, h1, pg1, H(), page, child, Copies(m, pg, i), i, Want(m[i], pg[m[i].ppn]), p);
        }
        i := i + 1;
      }
      return true;
    }

    /** A page table with the trampoline and trapframe pages and no user memory. */
    method ProcPagetable(trampoline: nat, tf: nat) returns (root: nat, ok: bool)
      requires Wf(H())
      modifies this`free, this`table, this`own, this`at
      ensures Wf(H())
      ensures ok ==>
        && IsRoot(H(), root) && !IsRoot(old(H()), root) && Extends(old(at), at) && Grew(old(own), own, root, false)
        && OnlyMap(old(H()), H(), root, KernelMaps(trampoline, tf)) && |old(free)| <= |free| + 5
        && TopPages(table, root, trampoline, tf)
      ensures !ok ==> own == old(own) && SameMaps(old(H()), H()) && |old(free)| < 5
    {
      hide Wf, OnlyMap, SameMaps, Maps, NodesOk, Grew, TopPages;
      ghost var h := H();
      WfNodes(h);
      root, ok := Uvmcreate();
      WfNodes(H());
      if !ok {
        SameMapsRefl(h);
        return;
      }
      NewRootGrew(h, H(), root);
      var r := BuildMap(h, root, TRAMPOLINE, Pte(trampoline, true, true, false, true, false), map[]);
      if !r.Ok? {
        BuildDrop(h, root);
        return root, false;
      }
      ghost var m := map[TRAMPOLINE := Pte(trampoline, true, true, false, true, false)];
      r := BuildMap(h, root, TRAPFRAME, Pte(tf, true, true, true, false, false), m);
      if !r.Ok? {
        BuildUndo(h, root, m);
        return root, false;
      }
      OnlyMapAt(h, H(), root, KernelMaps(trampoline, tf));
      TopPagesFound(H(), root, trampoline, tf);
    }

    /** proc_pagetable's way out when the second mapping fails. */
    method BuildUndo(ghost h: Heap, root: nat, ghost m: map<nat, Pte>)
      requires Wf(h) && Wf(H()) && Building(h, H(), root, m) && m.Keys == {TRAMPOLINE}
      modifies this`free, this`table, this`own, this`at
      ensures Wf(H()) && own == h.own && NodesOk(h) && SameMaps(h, H())
    {
      hide Wf, OnlyMap, SameMaps, Maps, NodesOk, Grew;
      ghost var h1 := H();
      Uvmunmap(root, TRAMPOLINE, 1, false);
      WfNodes(H());
      NoHighLeaves(h1, root, TRAMPOLINE, TRAMPOLINE + 1);
      assert Without(m, TRAMPOLINE, TRAMPOLINE + 1) == map[];
      OnlyMapAt(h, h1, root, m);
      OnlyMapOnly(h, h1, H(), root, m, map[]);
      BuildDrop(h, root);
    }

    /** A mapping for the kernel in a page table built since `h`. */
    method BuildMap(ghost h: Heap, root: nat, vpn: nat, e: Pte, ghost m: map<nat, Pte>) returns (r: MapResult)
      requires Wf(H()) && Building(h, H(), root, m) && TRAPFRAME <= vpn < PAGES && vpn !in m && e.v && HasPerm(e)
      modifies this`free, this`table, this`own, this`at
      ensures Wf(H()) && Building(h, H(), root, if r.Ok? then m[vpn := e] else m)
      ensures |old(free)| <= |free| + 2 && (r.NoMemory? ==> |old(free)| <= 1) && !r.Remap?
    {
      hide Wf, OnlyMap, SameMaps, Maps, NodesOk, Grew;
      ghost var h1 := H();
      WfNodes(h1);
      OnlyMapAt(h, h1, root, m);
      r := Mappages(root, vpn, e);
      WfNodes(H());
      GrewTrans(h.own, h1.own, own, root, false);
      if r.Ok? {
        OnlyMapOnly(h, h1, H(), root, m, m[vpn := e]);
      } else {
        OnlyMapSame(h, h1, H(), root, m);
      }
    }

    /** Give up a page table built since `h`. */
    method BuildDrop(ghost h: Heap, root: nat)
      requires Wf(h) && Wf(H()) && Building(h, H(), root, map[])
      modifies this`free, this`table, this`own, this`at
      ensures Wf(H()) && own == h.own && NodesOk(h) && SameMaps(h, H())
    {
      hide Wf, OnlyMap, SameMaps, Maps, NodesOk, Grew, FreeAll;
      ghost var h1 := H();
      WfNodes(h);
      OnlyMapAt(h, h1, root, map[]);
      Uvmfree(root, 0);
      WfNodes(H());
      GrewWider(h.own, h1.own, root);
      RootGone(h, h1, H(), root);
    }

    /** Free a process's page table and the memory it maps. */
    method ProcFreepagetable(root: nat, sz: nat)
      requires Wf(H()) && IsRoot(H(), root) && PagesOf(sz) <= TRAPFRAME
      requires forall v | v in Maps(H(), root) && v < TRAPFRAME :: v < PagesOf(sz)
      modifies this`free, this`table, this`own, this`at
      ensures Wf(H())
      ensures own == FreeAll(old(own), root)
      ensures forall r | r != root :: Maps(H(), r) == Maps(old(H()), r)
      ensures forall r | r != root && IsRoot(old(H()), r) :: IsRoot(H(), r)
    {
      hide Wf, OnlyMap, SameMaps, Maps, NodesOk, FreeAll;
      ghost var h := H();
      WfNodes(h);
      Uvmunmap(root, TRAMPOLINE, 1, false);
      ghost var h1 := H();
      WfNodes(h1);
      NoHighLeaves(h, root, TRAMPOLINE, TRAMPOLINE + 1);
      OnlyMapAt(h, h1, root, Without(Maps(h, root), TRAMPOLINE, TRAMPOLINE + 1));
      Uvmunmap(root, TRAPFRAME, 1, false);
      ghost var h2 := H();
      WfNodes(h2);
      NoHighLeaves(h1, root, TRAPFRAME, TRAPFRAME + 1);
      OnlyMapAt(h1, h2, root, Without(Maps(h1, root), TRAPFRAME, TRAPFRAME + 1));
      MapsBelow(h, root);
      Uvmfree(root, sz);
    }

    /** The part of walk that makes a page-table page below an empty entry. */
    method NewTable(t: nat, i: nat, ghost n: Node) returns (p: nat, ok: bool)
      requires Wf(H()) && n in at && at[n] == t && 0 < n.level && i < ENTRIES && !Entry(H(), n, i).v
      requires InSpace(Child(n, i))
      modifies this`free, this`table, this`own, this`at
      ensures Wf(H()) && SameMaps(old(H()), H())
      ensures Grew(old(own), own, n.root, false) && Extends(old(at), at)
      ensures ok ==> Child(n, i) in at && at[Child(n, i)] == p && |old(free)| == |free| + 1
      ensures !ok ==> free == [] && H() == old(H())
    {
      hide SameMaps, FreeOk, NodesOk, DownOk, UpOk, LeavesOk, Entry, EmptyTable;
      ghost var h := H();
      NodeAt(h, n);
      NoChild(h, n, i);
      p, ok := Kalloc();
      if ok {
        ghost var h1 := H();
        NodeAt(h1, n);
        EntryAt(h, n, i);
        EntryAt(h1, n, i);
        HangKeepsWf(h1, n, i, p);
        WfNodes(Hung(h1, n, i, p));
        SameMapsTrans(h, h1, Hung(h1, n, i, p));
        FirstIsFree(h);
        table := table[p := EmptyTable()];
        table := table[t := table[t][i := Pte(p, true, false, false, false, false)]];
        own := own[p := Table(Child(n, i))];
        at := at[Child(n, i) := p];
        assert H() == Hung(h1, n, i, p);
      }
    }
  }

  lemma KeptUnused(own: map<nat, Owner>, page: map<nat, Page>, p: nat, content: Page)
    ensures KeptPages(own, page, page) && (p in own && own[p].Free? ==> KeptPages(own, page, page[p := content]))
  {
  }

  lemma NothingYet(h: Heap)
    requires h.free == [] && h.table == map[] && h.at == map[] && forall p | p in h.own :: h.own[p].Kernel?
    ensures Wf(h)
  {
  }

  lemma FirstIsFree(h: Heap)
    requires Wf(h) && h.free != []
    ensures h.free[0] in h.own && h.own[h.free[0]].Free? && h.free[0] !in h.table
  {
  }

  lemma NoChild(h: Heap, n: Node, i: nat)
    requires Wf(h) && n in h.at && n.level > 0 && i < ENTRIES && NodeOk(h, n) && !Entry(h, n, i).v
    ensures Child(n, i) !in h.at
  {
    ChildParent(n, i);
  }

  lemma UnmapNothing(h: Heap, root: nat, vpn: nat)
    requires NodesOk(h)
    ensures OnlyMap(h, h, root, Without(Maps(h, root), vpn, vpn))
    ensures h.own == FreeLeaves(h.own, root, vpn, vpn)
  {
  }

  lemma UnmapNext(h: Heap, h1: Heap, h2: Heap, root: nat, lo: nat, a: nat)
    requires NodesOk(h) && NodesOk(h1) && NodesOk(h2) && lo <= a
    requires OnlyMap(h, h1, root, Without(Maps(h, root), lo, a)) && h1.own == FreeLeaves(h.own, root, lo, a)
    requires OnlyMap(h1, h2, root, Maps(h1, root) - {a}) && h2.own == FreeLeaves(h1.own, root, a, a + 1)
    ensures OnlyMap(h, h2, root, Without(Maps(h, root), lo, a + 1))
    ensures h2.own == FreeLeaves(h.own, root, lo, a + 1)
  {
    hide Maps;
    assert Without(Maps(h, root), lo, a) - {a} == Without(Maps(h, root), lo, a + 1);
  }

  lemma NothingMapped(h: Heap, root: nat, vpn: nat)
    requires Wf(h) && !Lookup(h, root, vpn).v
    ensures OnlyMap(h, h, root, Maps(h, root) - {vpn})
    ensures h.own == FreeLeaves(h.own, root, vpn, vpn + 1)
  {
    assert vpn !in Maps(h, root);
    assert Maps(h, root) - {vpn} == Maps(h, root);
    forall p | p in h.own && h.own[p].Leaf? ensures h.own[p] != Leaf(root, vpn) {
    }
  }

  lemma OnlyMapSame(h: Heap, h1: Heap, h2: Heap, root: nat, m: map<nat, Pte>)
    requires NodesOk(h) && NodesOk(h1) && NodesOk(h2) && SameMaps(h1, h2)
    requires OnlyMap(h, h1, root, m)
    ensures OnlyMap(h, h2, root, m)
  {
  }

  lemma LeafUnique(h: Heap, p: nat)
    requires Wf(h) && p in h.own && h.own[p].Leaf?
    ensures h.own[p].vpn < TRAPFRAME && Lookup(h, h.own[p].root, h.own[p].vpn).ppn == p
  {
  }

  lemma OneLeafFreed(h: Heap, root: nat, vpn: nat)
    requires Wf(h) && vpn < PAGES && PathNode(root, 0, vpn) in h.at && Lookup(h, root, vpn).v
    ensures FreeLeaves(h.own, root, vpn, vpn + 1)
         == if vpn < TRAPFRAME then h.own[Lookup(h, root, vpn).ppn := Free] else h.own
  {
    hide FreeOk, NodesOk, DownOk, UpOk, LeavesOk, Lookup;
    if vpn < TRAPFRAME {
      LeafOwned(h, root, vpn);
    }
    forall p | p in h.own && h.own[p] == Leaf(root, vpn) ensures vpn < TRAPFRAME && p == Lookup(h, root, vpn).ppn {
      LeafUnique(h, p);
    }
  }

  lemma BareTop(h: Heap, top: Node)
    requires Bare(h, top)
    ensures top in h.at && h.at[top] in h.table && |h.table[h.at[top]]| == ENTRIES
  {
    assert NodeOk(h, top);
  }

  /** PGROUNDUP(sz) / PGSIZE. */
  function PagesOf(sz: nat): nat {
    (sz + PGSIZE - 1) / PGSIZE
  }

  lemma SameThenOnly(h: Heap, h1: Heap, h2: Heap, root: nat, m: map<nat, Pte>)
    requires NodesOk(h) && NodesOk(h1) && NodesOk(h2) && SameMaps(h, h1) && OnlyMap(h1, h2, root, m)
    ensures OnlyMap(h, h2, root, m)
  {
  }

  lemma AllUnmapped(h: Heap, h1: Heap, root: nat, hi: nat, some: bool)
    requires NodesOk(h) && NodesOk(h1) && (!some ==> hi == 0)
    requires forall v | v in Maps(h, root) :: v < hi
    requires if some then OnlyMap(h, h1, root, Without(Maps(h, root), 0, hi)) else h1 == h
    ensures Maps(h1, root) == map[]
    ensures forall r | r != root :: Maps(h1, r) == Maps(h, r)
  {
    hide Maps;
    assert Without(Maps(h, root), 0, hi) == map[];
    if !some {
      assert Maps(h, root) == map[];
    }
  }

  lemma AllFreed(h: Heap, root: nat, hi: nat, some: bool)
    requires Wf(h) && (!some ==> hi == 0)
    requires forall v | v in Maps(h, root) :: v < hi
    ensures FreeRoot(if some then FreeLeaves(h.own, root, 0, hi) else h.own, root) == FreeAll(h.own, root)
  {
    hide FreeOk, DownOk, UpOk, LeavesOk, NodesOk, Maps;
    forall p | p in h.own && h.own[p].Leaf? && h.own[p].root == root ensures h.own[p].vpn < hi {
      LeafIsMapped(h, p);
    }
  }

  lemma PagesOfMonotone(a: nat, b: nat)
    ensures a <= b ==> PagesOf(a) <= PagesOf(b)
    ensures PagesOf(b) * PGSIZE < b + PGSIZE && b <= PagesOf(b) * PGSIZE
  {
  }

  lemma PagesOfPages(n: nat)
    ensures PagesOf(n * PGSIZE) == n
  {
  }

  lemma SameMapsAt(h: Heap, h1: Heap, root: nat)
    requires NodesOk(h) && NodesOk(h1) && SameMaps(h, h1)
    ensures Maps(h1, root) == Maps(h, root)
  {
  }

  lemma UnmapNone(h: Heap, root: nat, lo: nat, hi: nat)
    requires NodesOk(h) && lo >= hi
    ensures OnlyMap(h, h, root, Without(Maps(h, root), lo, hi)) && FreeLeaves(h.own, root, lo, hi) == h.own
  {
    hide Maps;
    assert Without(Maps(h, root), lo, hi) == Maps(h, root);
  }

  /** A page table that did not exist in `h`, with the mappings `m`; nothing else has changed. */
  ghost predicate Building(h: Heap, h': Heap, root: nat, m: map<nat, Pte>) {
    && NodesOk(h) && NodesOk(h') && IsRoot(h', root) && !IsRoot(h, root)
    && OnlyMap(h, h', root, m) && Grew(h.own, h'.own, root, false) && Extends(h.at, h'.at)
  }

  function KernelMaps(trampoline: nat, tf: nat): map<nat, Pte> {
    map[TRAMPOLINE := Pte(trampoline, true, true, false, true, false), TRAPFRAME := Pte(tf, true, true, true, false, false)]
  }

  /** What the hardware finds at the two top pages: the trampoline to execute and the trapframe to read
      and write, neither of them open to user mode. */
  predicate TopPages(table: map<nat, seq<Pte>>, root: nat, trampoline: nat, tf: nat) {
    var t, f := Translate(table, root, TRAMPOLINE), Translate(table, root, TRAPFRAME);
    && t.ppn == trampoline && t.v && t.r && t.x && !t.w && !t.u
    && f.ppn == tf && f.v && f.r && f.w && !f.x && !f.u
  }

  /** A page table that maps what proc_pagetable put there has its two top pages in place. */
  lemma TopPagesFound(h: Heap, root: nat, trampoline: nat, tf: nat)
    requires Wf(h) && NodesOk(h) && IsRoot(h, root)
    requires forall v | v in KernelMaps(trampoline, tf) :: v in Maps(h, root) && Maps(h, root)[v] == KernelMaps(trampoline, tf)[v]
    ensures TopPages(h.table, root, trampoline, tf)
  {
    hide Wf, NodesOk, Maps, IsRoot, Translate;
    WalkRefinesMap(h, root, TRAMPOLINE);
    WalkRefinesMap(h, root, TRAPFRAME);
    assert TRAMPOLINE in KernelMaps(trampoline, tf) && TRAPFRAME in KernelMaps(trampoline, tf);
  }

  lemma OnlyMapAt(h: Heap, h1: Heap, root: nat, m: map<nat, Pte>)
    requires NodesOk(h) && NodesOk(h1) && OnlyMap(h, h1, root, m)
    ensures Maps(h1, root) == m && forall r | r != root :: Maps(h1, r) == Maps(h, r)
  {
  }

  lemma OnlyMapOnly(h: Heap, h1: Heap, h2: Heap, root: nat, m1: map<nat, Pte>, m2: map<nat, Pte>)
    requires NodesOk(h) && NodesOk(h1) && NodesOk(h2) && OnlyMap(h, h1, root, m1) && OnlyMap(h1, h2, root, m2)
    ensures Maps(h1, root) == m1 && OnlyMap(h, h2, root, m2)
  {
  }

  lemma MapsBelow(h: Heap, root: nat)
    requires NodesOk(h)
    ensures forall v | v in Maps(h, root) :: v < PAGES
  {
  }

  lemma LeafHasPerm(h: Heap, root: nat, vpn: nat)
    requires Wf(h) && vpn in Maps(h, root)
    ensures HasPerm(Maps(h, root)[vpn]) && Maps(h, root)[vpn].v
  {
  }

  lemma NoHighLeaves(h: Heap, root: nat, lo: nat, hi: nat)
    requires Wf(h) && TRAPFRAME <= lo
    ensures FreeLeaves(h.own, root, lo, hi) == h.own
  {
    forall p | p in h.own && h.own[p].Leaf? ensures h.own[p].vpn < lo {
      LeafUnique(h, p);
    }
  }

  lemma NewRootGrew(h: Heap, h1: Heap, root: nat)
    requires root in h.own && h.own[root].Free? && h1.own == h.own[root := Table(Node(root, 2, 0))]
    ensures Grew(h.own, h1.own, root, false)
  {
  }

  /** No page belongs to a page table that does not exist. */
  lemma NotRootNoPages(h: Heap, root: nat)
    requires Wf(h) && !IsRoot(h, root)
    ensures forall p | p in h.own :: !OwnedBy(h.own[p], root, true)
    ensures Maps(h, root) == map[]
  {
    hide FreeOk, DownOk;
    forall n | n in h.at ensures n.root != root {
      hide LeavesOk;
      NoRootNoNodes(h, n);
    }
    forall v: nat ensures !Lookup(h, root, v).v {
    }
  }

  /** Freeing a page table that was built since `h` gives back exactly what it took. */
  lemma RootGone(h: Heap, h1: Heap, h2: Heap, root: nat)
    requires Wf(h) && Wf(h1) && Wf(h2) && NodesOk(h) && NodesOk(h1) && NodesOk(h2)
    requires !IsRoot(h, root) && Grew(h.own, h1.own, root, true) && h2.own == FreeAll(h1.own, root)
    requires forall r | r != root :: Maps(h1, r) == Maps(h, r) && Maps(h2, r) == Maps(h1, r)
    ensures h2.own == h.own && SameMaps(h, h2)
  {
    hide Wf, Maps, NodesOk;
    NotRootNoPages(h, root);
    assert h2.own == h.own;
    RootOwned(h, root);
    RootOwned(h2, root);
    NotRootNoPages(h2, root);
  }

  lemma RootOwned(h: Heap, root: nat)
    requires NodesOk(h)
    ensures IsRoot(h, root) <==> root in h.own && h.own[root] == Table(Node(root, 2, 0))
  {
    if Node(root, 2, 0) in h.at {
      assert NodeOk(h, Node(root, 2, 0));
    }
  }

  lemma AfterKid(h: Heap, h': Heap, top: Node, i: nat)
    requires NodesOk(h) && top in h.at && NodeOk(h, top) && top.level > 0 && i < ENTRIES
    requires Pruned(h, h', NodesUnder(h, Child(top, i)))
    ensures NodesOk(h') && top in h'.at && h'.at[top] == h.at[top]
    ensures h'.at[top] in h'.table && h'.table[h'.at[top]] == h.table[h.at[top]]
  {
    PrunedNodes(h, h', NodesUnder(h, Child(top, i)));
    KidChild(top, top, i);
  }

  lemma WfNodes(h: Heap)
    requires Wf(h)
    ensures NodesOk(h)
  {
  }

  lemma NodeAt(h: Heap, n: Node)
    requires Wf(h) && n in h.at
    ensures NodesOk(h) && NodeOk(h, n)
  {
  }

  lemma EntryAt(h: Heap, n: Node, i: nat)
    requires Wf(h) && n in h.at && i < ENTRIES && NodeOk(h, n)
    ensures h.table[h.at[n]][i] == Entry(h, n, i)
    ensures n.level > 0 && Entry(h, n, i).v ==> Child(n, i) in h.at && h.at[Child(n, i)] == Entry(h, n, i).ppn
  {
  }

  lemma PathParts(root: nat, level: nat, vpn: nat)
    ensures PathNode(root, level, vpn).root == root && PathNode(root, level, vpn).level == level
  {
  }

  lemma PathTop(root: nat, vpn: nat)
    requires vpn < PAGES
    ensures PathNode(root, 2, vpn) == Node(root, 2, 0)
  {
  }

  lemma SameMapsRefl(h: Heap)
    requires NodesOk(h)
    ensures SameMaps(h, h)
  {
  }

  lemma SameMapsTrans(h: Heap, h1: Heap, h2: Heap)
    requires NodesOk(h) && NodesOk(h1) && NodesOk(h2) && SameMaps(h, h1) && SameMaps(h1, h2)
    ensures SameMaps(h, h2)
  {
  }

  /** Where an entry on the way is empty, there is no last-level page. */
  lemma WalkStops(h: Heap, root: nat, level: nat, vpn: nat)
    requires Wf(h) && 0 < level <= 2 && PathNode(root, level, vpn) in h.at
    requires !Entry(h, PathNode(root, level, vpn), PX(level, vpn)).v
    ensures PathNode(root, 0, vpn) !in h.at
  {
    PathStep(root, level, vpn);
    ChildParent(PathNode(root, level, vpn), PX(level, vpn));
    assert PathNode(root, level - 1, vpn) !in h.at;
    if level == 2 {
      PathStep(root, 1, vpn);
      ChildParent(PathNode(root, 1, vpn), PX(1, vpn));
    }
  }
}
