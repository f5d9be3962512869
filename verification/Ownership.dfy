/** Changes of ownership: pages going to one page table and coming back from it. */
module Ownership {
  import opened Collections
  import opened PageTable

  type Page = seq<nat>

  /** Pages change hands only by leaving the free list for page table `root`: as one of its tables
      or, if `leaves`, as a leaf. */
  ghost predicate Grew(own: map<nat, Owner>, own': map<nat, Owner>, root: nat, leaves: bool) {
    && own'.Keys == own.Keys
    && forall p | p in own :: own'[p] == own[p] || (own[p].Free? && OwnedBy(own'[p], root, leaves))
  }

  ghost predicate OwnedBy(o: Owner, root: nat, leaves: bool) {
    match o
    case Table(n) => n.root == root
    case Leaf(r, _) => leaves && r == root
    case _ => false
  }

  ghost predicate Extends(at: map<Node, nat>, at': map<Node, nat>) {
    forall n | n in at :: n in at' && at'[n] == at[n]
  }

  ghost function Without(m: map<nat, Pte>, lo: nat, hi: nat): map<nat, Pte> {
    map v | v in m && !(lo <= v < hi) :: m[v]
  }

  /** The owners once the leaves of a range of a page table are free. */
  ghost function FreeLeaves(own: map<nat, Owner>, root: nat, lo: nat, hi: nat): map<nat, Owner> {
    map p | p in own ::
      if own[p].Leaf? && own[p].root == root && lo <= own[p].vpn < hi then Free else own[p]
  }

  /** Every page of a page table, tables and leaves, freed. */
  ghost function FreeAll(own: map<nat, Owner>, root: nat): map<nat, Owner> {
    map p | p in own :: if OwnedBy(own[p], root, true) then Free else own[p]
  }

  ghost function Range(lo: nat, hi: nat): set<nat> {
    set v | v in Upto(hi) && lo <= v
  }

  /** Pages in use keep their contents. */
  ghost predicate KeptPages(own: map<nat, Owner>, page: map<nat, Page>, page': map<nat, Page>) {
    forall p | p in own && !own[p].Free? && p in page :: p in page' && page'[p] == page[p]
  }

  /** A page to be mapped: its flags (the page number in the entry does not matter) and contents. */
  datatype Want = Want(e: Pte, content: Page)

  /** A zeroed page. */
  function ZeroPage(): (r: Page)
    ensures |r| == PGSIZE && forall i | 0 <= i < PGSIZE :: r[i] == 0
  {
    seq(PGSIZE, (i: int) => 0)
  }

  ghost function ZeroPages(lo: nat, hi: nat, w: bool, x: bool): map<nat, Want> {
    map v | v in Range(lo, hi) :: Want(Pte(0, true, true, w, x, true), ZeroPage())
  }

  lemma ZeroPagesNext(lo: nat, hi: nat, w: bool, x: bool)
    requires lo <= hi
    ensures ZeroPages(lo, lo, w, x) == map[]
    ensures hi !in ZeroPages(lo, hi, w, x)
    ensures forall v | v in ZeroPages(lo, hi, w, x) :: lo <= v < hi
    ensures ZeroPages(lo, hi + 1, w, x) == ZeroPages(lo, hi, w, x)[hi := Want(Pte(0, true, true, w, x, true), ZeroPage())]
  {
    hide ZeroPage, Upto;
    assert Range(lo, hi + 1) == Range(lo, hi) + {hi};
  }

  /** The mappings of a page table below a page, with the contents they map to. */
  ghost function Copies(m: map<nat, Pte>, page: map<nat, Page>, hi: nat): map<nat, Want>
    requires forall v | v in m && v < TRAPFRAME :: m[v].ppn in page
    requires hi <= TRAPFRAME
  {
    map v | v in m && v < hi :: Want(m[v], page[m[v].ppn])
  }

  /** Every leaf page has contents. */
  ghost predicate LeavesHeld(own: map<nat, Owner>, page: map<nat, Page>) {
    forall p | p in own && own[p].Leaf? :: p in page && |page[p]| == PGSIZE
  }

  ghost predicate WholePages(want: map<nat, Want>) {
    forall v | v in want :: |want[v].content| == PGSIZE
  }

  lemma MappedHeld(h: Heap, page: map<nat, Page>, root: nat)
    requires Wf(h) && NodesOk(h) && LeavesHeld(h.own, page)
    ensures forall v | v in Maps(h, root) && v < TRAPFRAME ::
      var p := Maps(h, root)[v].ppn; p in page && |page[p]| == PGSIZE && p in h.own && h.own[p] == Leaf(root, v)
  {
    hide Wf, Maps;
    forall v | v in Maps(h, root) && v < TRAPFRAME
      ensures var p := Maps(h, root)[v].ppn; p in page && |page[p]| == PGSIZE && p in h.own && h.own[p] == Leaf(root, v)
    {
      MappedIsLeaf(h, root, v);
    }
  }

  lemma CopiesNext(m: map<nat, Pte>, page: map<nat, Page>, hi: nat)
    requires forall v | v in m && v < TRAPFRAME :: m[v].ppn in page
    requires hi < TRAPFRAME
    ensures Copies(m, page, 0) == map[]
    ensures hi !in Copies(m, page, hi)
    ensures forall v | v in Copies(m, page, hi) :: v < hi
    ensures Copies(m, page, hi + 1)
         == if hi in m then Copies(m, page, hi)[hi := Want(m[hi], page[m[hi].ppn])] else Copies(m, page, hi)
  {
  }

  /** While another page table fills up, this one's mappings and their contents stay. */
  lemma FilledOther(h: Heap, page: map<nat, Page>, h': Heap, page': map<nat, Page>, root: nat, want: map<nat, Want>,
                    r: nat, v: nat)
    requires Wf(h) && NodesOk(h) && NodesOk(h') && Filled(h, page, h', page', root, want) && r != root
    requires LeavesHeld(h.own, page) && v < TRAPFRAME
    ensures Maps(h', r) == Maps(h, r)
    ensures v in Maps(h, r) ==>
      && Maps(h, r)[v].ppn in page && Maps(h, r)[v].ppn in page'
      && page'[Maps(h, r)[v].ppn] == page[Maps(h, r)[v].ppn]
  {
    hide Wf, Maps, NodesOk, Added, Grew;
    if v in Maps(h, r) {
      MappedIsLeaf(h, r, v);
    }
  }

  /** A map gained bindings to leaf pages with the wanted flags and contents. */
  ghost predicate Added(m: map<nat, Pte>, m': map<nat, Pte>, own: map<nat, Owner>, page: map<nat, Page>, root: nat,
                        want: map<nat, Want>)
  {
    && m.Keys !! want.Keys && m'.Keys == m.Keys + want.Keys
    && (forall v | v in m :: m'[v] == m[v])
    && (forall v | v in want ::
          && m'[v] == want[v].e.(ppn := m'[v].ppn)
          && m'[v].ppn in own && own[m'[v].ppn] == Leaf(root, v)
          && m'[v].ppn in page && page[m'[v].ppn] == want[v].content)
  }

  /** One page table gained mappings to new pages and nothing else changed. */
  ghost predicate Filled(h: Heap, page: map<nat, Page>, h': Heap, page': map<nat, Page>, root: nat, want: map<nat, Want>)
    requires NodesOk(h) && NodesOk(h')
  {
    && OnlyMap(h, h', root, Maps(h', root))
    && Added(Maps(h, root), Maps(h', root), h'.own, page', root, want)
    && Grew(h.own, h'.own, root, true) && KeptPages(h.own, page, page')
  }

  lemma FilledNothing(h: Heap, page: map<nat, Page>, root: nat, want: map<nat, Want>)
    requires NodesOk(h) && want == map[]
    ensures Filled(h, page, h, page, root, want)
  {
  }

  lemma FilledFree(h: Heap, page: map<nat, Page>, h': Heap, page': map<nat, Page>, root: nat, want: map<nat, Want>, v: nat)
    requires NodesOk(h) && NodesOk(h') && Filled(h, page, h', page', root, want)
    requires v !in Maps(h, root) && v !in want
    ensures v !in Maps(h', root)
  {
    hide Maps, NodesOk;
  }

  lemma AddedNext(m: map<nat, Pte>, m1: map<nat, Pte>, own1: map<nat, Owner>, page1: map<nat, Page>,
                  own2: map<nat, Owner>, page2: map<nat, Page>, root: nat, want: map<nat, Want>, v: nat, w: Want, p: nat)
    requires Added(m, m1, own1, page1, root, want) && v !in m1
    requires Grew(own1, own2, root, true) && KeptPages(own1, page1, page2)
    requires p in page2 && page2[p] == w.content && p in own2 && own2[p] == Leaf(root, v)
    ensures Added(m, m1[v := w.e.(ppn := p)], own2, page2, root, want[v := w])
  {
  }

  lemma FilledNext(h: Heap, page: map<nat, Page>, h1: Heap, page1: map<nat, Page>, h2: Heap, page2: map<nat, Page>,
                   root: nat, want: map<nat, Want>, v: nat, w: Want, p: nat)
    requires NodesOk(h) && NodesOk(h1) && NodesOk(h2) && Filled(h, page, h1, page1, root, want)
    requires v !in Maps(h1, root)
    requires Grew(h1.own, h2.own, root, true) && KeptPages(h1.own, page1, page2)
    requires OnlyMap(h1, h2, root, Maps(h1, root)[v := w.e.(ppn := p)])
    requires p in page2 && page2[p] == w.content && p in h2.own && h2.own[p] == Leaf(root, v)
    ensures Filled(h, page, h2, page2, root, want[v := w])
  {
    hide Maps, NodesOk, Added, Grew, KeptPages;
    GrewTrans(h.own, h1.own, h2.own, root, true);
    KeptTrans(h.own, h1.own, page, page1, page2, root);
    AddedNext(Maps(h, root), Maps(h1, root), h1.own, page1, h2.own, page2, root, want, v, w, p);
  }

  /** One free page goes to the kernel or a leaf before the rest changes hands. */
  lemma GrewPast(own: map<nat, Owner>, own2: map<nat, Owner>, root: nat, p: nat, o: Owner)
    requires p in own && own[p].Free? && !o.Free? && Grew(own[p := o], own2, root, false)
    ensures p in own2 && own2[p] == o
    ensures o.Kernel? ==> Grew(own, own2[p := Free], root, false)
    ensures OwnedBy(o, root, true) ==> Grew(own, own2, root, true)
  {
  }

  lemma KeptTrans(own: map<nat, Owner>, own1: map<nat, Owner>, page: map<nat, Page>, page1: map<nat, Page>,
                  page2: map<nat, Page>, root: nat)
    requires Grew(own, own1, root, true) && KeptPages(own, page, page1) && KeptPages(own1, page1, page2)
    ensures KeptPages(own, page, page2)
  {
  }

  lemma FilledSame(h: Heap, page: map<nat, Page>, h1: Heap, page1: map<nat, Page>, h2: Heap, page2: map<nat, Page>,
                   root: nat, want: map<nat, Want>)
    requires NodesOk(h) && NodesOk(h1) && NodesOk(h2) && Filled(h, page, h1, page1, root, want)
    requires SameMaps(h1, h2) && Grew(h1.own, h2.own, root, false) && KeptPages(h1.own, page1, page2)
    ensures Filled(h, page, h2, page2, root, want)
  {
    hide Maps, NodesOk, Added, Grew, KeptPages;
    GrewWider(h1.own, h2.own, root);
    GrewTrans(h.own, h1.own, h2.own, root, true);
    KeptTrans(h.own, h1.own, page, page1, page2, root);
    AddedSame(Maps(h, root), Maps(h1, root), h1.own, page1, h2.own, page2, root, want);
  }

  lemma GrewWider(own: map<nat, Owner>, own': map<nat, Owner>, root: nat)
    requires Grew(own, own', root, false)
    ensures Grew(own, own', root, true)
  {
  }

  lemma AddedSame(m: map<nat, Pte>, m1: map<nat, Pte>, own1: map<nat, Owner>, page1: map<nat, Page>,
                  own2: map<nat, Owner>, page2: map<nat, Page>, root: nat, want: map<nat, Want>)
    requires Added(m, m1, own1, page1, root, want)
    requires Grew(own1, own2, root, true) && KeptPages(own1, page1, page2)
    ensures Added(m, m1, own2, page2, root, want)
  {
  }

  /** Unmapping the new pages restores the maps; only page-table pages stay behind. */
  lemma FilledUndone(h: Heap, page: map<nat, Page>, h1: Heap, page1: map<nat, Page>, h2: Heap,
                     root: nat, want: map<nat, Want>, lo: nat, hi: nat)
    requires Wf(h) && Wf(h1) && NodesOk(h) && NodesOk(h1) && NodesOk(h2) && Filled(h, page, h1, page1, root, want)
    requires forall v | v in want :: lo <= v < hi
    requires forall v | v in Maps(h, root) :: !(lo <= v < hi)
    requires OnlyMap(h1, h2, root, Without(Maps(h1, root), lo, hi)) && h2.own == FreeLeaves(h1.own, root, lo, hi)
    ensures SameMaps(h, h2) && Grew(h.own, h2.own, root, false) && KeptPages(h.own, page, page1)
  {
    hide Wf, Maps, NodesOk;
    var m, m1 := Maps(h, root), Maps(h1, root);
    assert Without(m1, lo, hi) == m;
    NoOldLeaf(h, page, h1, page1, root, want);
    forall p | p in h.own ensures h2.own[p] == h.own[p] || (h.own[p].Free? && OwnedBy(h2.own[p], root, false)) {
      if h1.own[p].Leaf? && h1.own[p].root == root && h.own[p] == h1.own[p] {
        LeafIsMapped(h1, p);
        assert h1.own[p].vpn in m;
      }
    }
  }

  /** The leaves a page table gained are the pages wanted. */
  lemma NoOldLeaf(h: Heap, page: map<nat, Page>, h1: Heap, page1: map<nat, Page>, root: nat, want: map<nat, Want>)
    requires Wf(h) && Wf(h1) && NodesOk(h) && NodesOk(h1) && Filled(h, page, h1, page1, root, want)
    ensures forall p | p in h.own && h1.own[p].Leaf? && h1.own[p].root == root :: h1.own[p].vpn in want <==> h.own[p].Free?
  {
    hide Wf, Maps, NodesOk;
    forall p | p in h.own && h1.own[p].Leaf? && h1.own[p].root == root
      ensures h1.own[p].vpn in want <==> h.own[p].Free?
    {
      LeafIsMapped(h1, p);
      if h.own[p].Leaf? {
        LeafIsMapped(h, p);
      } else if h1.own[p].vpn in Maps(h, root) {
        MappedIsLeaf(h, root, h1.own[p].vpn);
      }
    }
  }

  lemma MappedIsLeaf(h: Heap, root: nat, vpn: nat)
    requires Wf(h) && vpn in Maps(h, root) && vpn < TRAPFRAME
    ensures Maps(h, root)[vpn].ppn in h.own && h.own[Maps(h, root)[vpn].ppn] == Leaf(root, vpn)
  {
    hide FreeOk, DownOk, UpOk;
    LeafOwned(h, root, vpn);
  }

  lemma GrewRefl(own: map<nat, Owner>, root: nat, leaves: bool)
    ensures Grew(own, own, root, leaves)
  {
  }

  lemma GrewTrans(own: map<nat, Owner>, own1: map<nat, Owner>, own2: map<nat, Owner>, root: nat, leaves: bool)
    requires Grew(own, own1, root, leaves) && Grew(own1, own2, root, leaves)
    ensures Grew(own, own2, root, leaves)
  {
  }

  lemma LeafIsMapped(h: Heap, p: nat)
    requires Wf(h) && p in h.own && h.own[p].Leaf?
    ensures h.own[p].vpn < TRAPFRAME && h.own[p].vpn in Maps(h, h.own[p].root) && Maps(h, h.own[p].root)[h.own[p].vpn].ppn == p
  {
  }
}
