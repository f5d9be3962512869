/** The memory of a process as system calls see it, byte by byte: the kernel's copies to and from it.

    copyin and copyout fault at the start of a page, so a page that begins below the size and is not
    mapped yet is seen as zeroes, all of it. What the process's own loads and stores find is the subject
    of module UserAccess.
 */
module UserMemory {
  import opened Params
  import opened Collections
  import opened PageTable
  import opened Ownership
  import opened AddressSpace
  import opened ProcessMemory

  const MAXVA := PAGES * PGSIZE

  /** The byte that copyin finds at an address of a page table with a size; None where it fails. */
  ghost function Seen(m: map<nat, Pte>, page: map<nat, Page>, sz: nat, va: nat): Option<nat> {
    var v, o := va / PGSIZE, va % PGSIZE;
    if v !in m then
      if v < PagesOf(sz) then Some(0) else None
    else if m[v].u && m[v].ppn in page && o < |page[m[v].ppn]| then Some(page[m[v].ppn][o])
    else None
  }

  ghost predicate Writable(m: map<nat, Pte>, sz: nat, va: nat) {
    var v := va / PGSIZE;
    if v in m then m[v].u && m[v].w else v < PagesOf(sz)
  }

  /** The same for a process. */
  ghost function SeenBy(h: Heap, page: map<nat, Page>, q: Proc, va: nat): Option<nat>
    requires NodesOk(h)
  {
    if q.root.Some? then Seen(Maps(h, q.root.value), page, q.sz, va) else None
  }

  ghost predicate WritableBy(h: Heap, q: Proc, va: nat)
    requires NodesOk(h)
  {
    q.root.Some? && Writable(Maps(h, q.root.value), q.sz, va)
  }

  /** System calls of a process can tell no difference between two states. */
  ghost predicate SameFor(h: Heap, page: map<nat, Page>, h': Heap, page': map<nat, Page>, q: Proc)
    requires NodesOk(h) && NodesOk(h')
  {
    && (forall va :: SeenBy(h', page', q, va) == SeenBy(h, page, q, va))
    && (forall va :: WritableBy(h', q, va) <==> WritableBy(h, q, va))
  }

  ghost predicate SameForAll(h: Heap, page: map<nat, Page>, h': Heap, page': map<nat, Page>, proc: seq<Proc>)
    requires NodesOk(h) && NodesOk(h')
  {
    forall j | 0 <= j < |proc| :: SameFor(h, page, h', page', proc[j])
  }

  /** The mappings of a live process: user pages are leaves with contents, the others are not for users. */
  lemma UserPages(h: Heap, page: map<nat, Page>, q: Proc, trampoline: nat, v: nat)
    requires Wf(h) && NodesOk(h) && LeavesHeld(h.own, page) && Live(h, q, trampoline) && v in Maps(h, q.root.value)
    ensures v < PAGES && (v < PagesOf(q.sz) || v >= TRAPFRAME)
    ensures v >= TRAPFRAME ==> !Maps(h, q.root.value)[v].u
    ensures v < TRAPFRAME ==>
      var p := Maps(h, q.root.value)[v].ppn;
      p in page && |page[p]| == PGSIZE && p in h.own && h.own[p] == Leaf(q.root.value, v)
  {
    hide Wf, NodesOk, Maps, LeavesHeld, IsRoot;
    MapsBelow(h, q.root.value);
    MappedHeld(h, page, q.root.value);
    assert v >= TRAPFRAME ==> v in KernelMaps(trampoline, q.tf.value);
  }

  /** A mapping that stays, to a page that keeps its contents, looks the same. */
  lemma KeptSeen(h: Heap, page: map<nat, Page>, m': map<nat, Pte>, page': map<nat, Page>, q: Proc, trampoline: nat, sz: nat, va: nat)
    requires Wf(h) && NodesOk(h) && LeavesHeld(h.own, page) && Live(h, q, trampoline) && KeptPages(h.own, page, page')
    requires var v, m := va / PGSIZE, Maps(h, q.root.value); v in m && v in m' && m'[v] == m[v]
    ensures Seen(m', page', sz, va) == Seen(Maps(h, q.root.value), page, sz, va)
  {
    hide Wf, NodesOk, Maps, LeavesHeld, Live;
    UserPages(h, page, q, trampoline, va / PGSIZE);
  }

  /** Zeroed pages for users, all below a size. */
  ghost predicate Zeroes(want: map<nat, Want>, sz: nat) {
    forall v | v in want :: v < PagesOf(sz) && want[v].e.u && want[v].e.w && want[v].content == ZeroPage()
  }

  /** A page table that fills up below the size with zeroes looks the same to the system calls of its own
      process and of every other one. */
  lemma FilledSeen(h: Heap, page: map<nat, Page>, h': Heap, page': map<nat, Page>, root: nat, want: map<nat, Want>,
                   q: Proc, trampoline: nat, sz: nat, va: nat)
    requires Wf(h) && NodesOk(h) && NodesOk(h') && LeavesHeld(h.own, page) && Live(h, q, trampoline)
    requires Filled(h, page, h', page', root, want) && (q.root.value == root ==> Zeroes(want, sz))
    ensures Seen(Maps(h', q.root.value), page', sz, va) == Seen(Maps(h, q.root.value), page, sz, va)
    ensures Writable(Maps(h', q.root.value), sz, va) <==> Writable(Maps(h, q.root.value), sz, va)
  {
    hide Wf, NodesOk, Maps, LeavesHeld, Live, Grew, KeptPages, PagesOf;
    LiveParts(h, q, trampoline);
    var v := va / PGSIZE;
    if v in Maps(h, q.root.value) {
      KeptSeen(h, page, Maps(h', q.root.value), page', q, trampoline, sz, va);
    }
  }

  /** After growing by n bytes eagerly, system calls see what they would see had only the size moved. */
  lemma EagerCopiesAsLazy(h: Heap, page: map<nat, Page>, h': Heap, page': map<nat, Page>, q: Proc, trampoline: nat, n: int)
    requires Wf(h) && LeavesHeld(h.own, page) && NodesOk(h) && Live(h, q, trampoline) && n > 0
    requires Grown(h, page, h', page', q, n, true)
    ensures NodesOk(h') && SameFor(h, page, h', page', q.(sz := q.sz + n))
  {
    hide Wf, NodesOk, Maps, LeavesHeld, Live, Filled, PagesOf, ZeroPage;
    var want, big := ZeroPages(PagesOf(q.sz), PagesOf(q.sz + n), true, false), q.(sz := q.sz + n);
    assert Zeroes(want, q.sz + n);
    forall va: nat
      ensures SeenBy(h', page', big, va) == SeenBy(h, page, big, va) && (WritableBy(h', big, va) <==> WritableBy(h, big, va))
    {
      FilledSeen(h, page, h', page', q.root.value, want, q, trampoline, q.sz + n, va);
    }
  }

  /** Shrinking takes away exactly the pages above the new size. */
  lemma ShrunkSeen(h: Heap, page: map<nat, Page>, h': Heap, page': map<nat, Page>, q: Proc, trampoline: nat, n: int, va: nat)
    requires Wf(h) && LeavesHeld(h.own, page) && NodesOk(h) && Live(h, q, trampoline) && n <= 0
    requires Grown(h, page, h', page', q, n, true)
    ensures SeenBy(h', page', q.(sz := NewSize(q.sz, n)), va)
         == if va / PGSIZE < PagesOf(NewSize(q.sz, n)) then SeenBy(h, page, q, va) else None
  {
    hide Wf, NodesOk, Maps, LeavesHeld, Live, PagesOf;
    var m, v := Maps(h, q.root.value), va / PGSIZE;
    PagesOfMonotone(NewSize(q.sz, n), q.sz);
    if v in m {
      UserPages(h, page, q, trampoline, v);
    }
  }

  /** After a fork the child's system calls see what the parent's see. */
  lemma ForkSeen(h: Heap, page: map<nat, Page>, q: Proc, c: Proc, trampoline: nat, va: nat)
    requires Wf(h) && LeavesHeld(h.own, page) && NodesOk(h) && Live(h, q, trampoline) && Live(h, c, trampoline)
    requires c.sz == q.sz && SameMemory(h, page, q.root.value, c.root.value)
    ensures SeenBy(h, page, c, va) == SeenBy(h, page, q, va) && (WritableBy(h, c, va) <==> WritableBy(h, q, va))
  {
    hide Wf, NodesOk, Maps, LeavesHeld, Live, PagesOf;
    LiveParts(h, q, trampoline);
    LiveParts(h, c, trampoline);
    var v := va / PGSIZE;
    if v in Maps(h, q.root.value) {
      UserPages(h, page, q, trampoline, v);
    }
    if v in Maps(h, c.root.value) {
      UserPages(h, page, c, trampoline, v);
    }
    KernelThere(h, q, trampoline, v);
    KernelThere(h, c, trampoline, v);
  }

  lemma KernelThere(h: Heap, q: Proc, trampoline: nat, v: nat)
    requires NodesOk(h) && Live(h, q, trampoline)
    ensures TRAPFRAME <= v < PAGES <==> v in Maps(h, q.root.value) && v >= TRAPFRAME
  {
    hide NodesOk, Maps;
    MapsBelow(h, q.root.value);
    assert TRAPFRAME in KernelMaps(trampoline, q.tf.value) && TRAMPOLINE in KernelMaps(trampoline, q.tf.value);
  }

  lemma FaultCopiedBy(h: Heap, page: map<nat, Page>, h': Heap, page': map<nat, Page>, q: Proc, trampoline: nat,
                      root: nat, sz: nat, va: nat, ok: bool, a: nat)
    requires Wf(h) && LeavesHeld(h.own, page) && NodesOk(h) && NodesOk(h') && Live(h, q, trampoline)
    requires q.root == Some(root) ==> q.sz == sz
    requires ok ==> va < sz && Filled(h, page, h', page', root, FaultPage(va))
    requires !ok ==> SameMaps(h, h') && KeptPages(h.own, page, page')
    ensures SeenBy(h', page', q, a) == SeenBy(h, page, q, a) && (WritableBy(h', q, a) <==> WritableBy(h, q, a))
  {
    hide Wf, NodesOk, Maps, LeavesHeld, Live, Filled, KeptPages, ZeroPage;
    LiveParts(h, q, trampoline);
    if ok {
      assert va / PGSIZE < PagesOf(sz);
      FilledSeen(h, page, h', page', root, FaultPage(va), q, trampoline, q.sz, a);
    } else if a / PGSIZE in Maps(h, q.root.value) {
      KeptSeen(h, page, Maps(h', q.root.value), page', q, trampoline, q.sz, a);
    }
  }

  /** A page fault, served or not, is not seen by any system call. */
  lemma FaultCopied(h: Heap, page: map<nat, Page>, h': Heap, page': map<nat, Page>, proc: seq<Proc>, other: set<nat>,
                    trampoline: nat, i: nat, va: nat, ok: bool)
    requires Sound(h, page, proc, other, trampoline) && NodesOk(h) && NodesOk(h') && i < NPROC && proc[i].used && proc[i].root.Some?
    requires ok ==> va < proc[i].sz && Filled(h, page, h', page', proc[i].root.value, FaultPage(va))
    requires !ok ==> SameMaps(h, h') && KeptPages(h.own, page, page')
    ensures SameForAll(h, page, h', page', proc)
  {
    hide Wf, NodesOk, Maps, LeavesHeld, Live, Accounted, Filled, KeptPages;
    forall j, a: nat | 0 <= j < NPROC
      ensures SeenBy(h', page', proc[j], a) == SeenBy(h, page, proc[j], a)
      ensures WritableBy(h', proc[j], a) <==> WritableBy(h, proc[j], a)
    {
      if proc[j] != UNUSED {
        LiveParts(h, proc[j], trampoline);
        FaultCopiedBy(h, page, h', page', proc[j], trampoline, proc[i].root.value, proc[i].sz, va, ok, a);
      }
    }
  }

  lemma FaultMapped(h: Heap, page: map<nat, Page>, h': Heap, page': map<nat, Page>, root: nat, va: nat)
    requires NodesOk(h) && NodesOk(h') && Filled(h, page, h', page', root, FaultPage(va))
    ensures va / PGSIZE in Maps(h', root) && Maps(h', root)[va / PGSIZE].u
  {
    hide NodesOk, Maps, ZeroPage, Grew, KeptPages;
    assert va / PGSIZE in FaultPage(va);
  }

  /** How many pages a stretch of addresses touches. */
  function Span(va: nat, len: nat): nat {
    if len == 0 then 0 else (va + len - 1) / PGSIZE - va / PGSIZE + 1
  }

  /** walkaddr: the physical page behind a user address. */
  method Walkaddr(ps: Procs, root: nat, va: nat) returns (pa: nat, ok: bool)
    requires Wf(ps.vm.H()) && IsRoot(ps.vm.H(), root)
    modifies ps.vm`free, ps.vm`table, ps.vm`own, ps.vm`at
    ensures ps.vm.H() == old(ps.vm.H()) && NodesOk(ps.vm.H())
    ensures var m, v := Maps(ps.vm.H(), root), va / PGSIZE;
      (ok <==> v in m && m[v].u) && (ok ==> pa == m[v].ppn)
  {
    hide Wf, Maps, NodesOk;
    WfNodes(ps.vm.H());
    MapsBelow(ps.vm.H(), root);
    if va >= MAXVA {
      return 0, false;
    }
    var e := ps.vm.FindPte(root, va / PGSIZE);
    if !e.v {
      return 0, false;
    }
    if !e.u {
      return 0, false;
    }
    return e.ppn, true;
  }

  /** The page behind a user address, faulted in if it has to be, as copyin and copyout get it. */
  method UserPage(ps: Procs, i: nat, va0: nat) returns (pa: nat, ok: bool)
    requires ps.Good() && i < NPROC && ps.proc[i].used && va0 < WORD64 && va0 % PGSIZE == 0
    modifies ps.vm
    ensures ps.Good() && NodesOk(old(ps.vm.H())) && NodesOk(ps.vm.H())
    ensures SameForAll(old(ps.vm.H()), old(ps.vm.page), ps.vm.H(), ps.vm.page, ps.proc)
    ensures ok ==>
      && ps.proc[i].root.Some? && va0 < MAXVA && |old(ps.vm.free)| <= |ps.vm.free| + 3
      && var m, v := Maps(ps.vm.H(), ps.proc[i].root.value), va0 / PGSIZE;
         v in m && m[v].u && m[v].ppn == pa && pa in ps.vm.page && |ps.vm.page[pa]| == PGSIZE
    ensures !ok ==>
      || |old(ps.vm.free)| <= 2
      || (forall va | va / PGSIZE == va0 / PGSIZE ::
            SeenBy(old(ps.vm.H()), old(ps.vm.page), ps.proc[i], va).None? && !WritableBy(old(ps.vm.H()), ps.proc[i], va))
  {
    hide Wf, NodesOk, Maps, LeavesHeld, Live, Accounted, Filled, KeptPages, SameMaps, Grew, IsRoot, SameForAll;
    ghost var h, page := ps.vm.H(), ps.vm.page;
    WfNodes(h);
    SlotsParts(h, ps.proc, ps.trampoline);
    LiveParts(h, ps.proc[i], ps.trampoline);
    pa, ok := Walkaddr(ps, ps.proc[i].root.value, va0);
    if !ok {
      pa, ok := ps.Vmfault(i, va0);
      WfNodes(ps.vm.H());
      FaultCopied(h, page, ps.vm.H(), ps.vm.page, ps.proc, ps.other, ps.trampoline, i, va0, ok);
      if ok {
        FaultMapped(h, page, ps.vm.H(), ps.vm.page, ps.proc[i].root.value, va0);
      }
    } else {
      SameMapsRefl(h);
      KeptAll(h.own, page);
      FaultCopied(h, page, h, page, ps.proc, ps.other, ps.trampoline, i, va0, false);
    }
    if ok {
      SlotsParts(ps.vm.H(), ps.proc, ps.trampoline);
      UserPages(ps.vm.H(), ps.vm.page, ps.proc[i], ps.trampoline, va0 / PGSIZE);
    }
  }

  lemma SameForAllTrans(h: Heap, page: map<nat, Page>, h1: Heap, page1: map<nat, Page>, h2: Heap, page2: map<nat, Page>, proc: seq<Proc>)
    requires NodesOk(h) && NodesOk(h1) && NodesOk(h2)
    requires SameForAll(h, page, h1, page1, proc) && SameForAll(h1, page1, h2, page2, proc)
    ensures SameForAll(h, page, h2, page2, proc)
  {
    hide NodesOk, SeenBy, WritableBy;
    forall j | 0 <= j < |proc| ensures SameFor(h, page, h2, page2, proc[j]) {
      assert SameFor(h, page, h1, page1, proc[j]);
    }
  }

  /** What system calls of a process see from an address on. */
  ghost predicate Holds(h: Heap, page: map<nat, Page>, q: Proc, va: nat, bytes: seq<nat>)
    requires NodesOk(h)
  {
    forall k | 0 <= k < |bytes| :: SeenBy(h, page, q, va + k) == Some(bytes[k])
  }

  lemma HoldsMore(h: Heap, page: map<nat, Page>, q: Proc, va: nat, bytes: seq<nat>, more: seq<nat>)
    requires NodesOk(h) && Holds(h, page, q, va, bytes) && Holds(h, page, q, va + |bytes|, more)
    ensures Holds(h, page, q, va, bytes + more)
  {
    hide NodesOk, SeenBy;
    forall k | 0 <= k < |bytes + more| ensures SeenBy(h, page, q, va + k) == Some((bytes + more)[k]) {
      if k >= |bytes| {
        assert va + k == va + |bytes| + (k - |bytes|) && more[k - |bytes|] == (bytes + more)[k];
      }
    }
  }

  /** The bytes of a mapped page are what is seen at its addresses. */
  lemma PageHolds(h: Heap, page: map<nat, Page>, q: Proc, pa: nat, va: nat, n: nat)
    requires NodesOk(h) && q.root.Some? && pa in page && |page[pa]| == PGSIZE && va % PGSIZE + n <= PGSIZE
    requires var m, v := Maps(h, q.root.value), va / PGSIZE; v in m && m[v].u && m[v].ppn == pa
    ensures Holds(h, page, q, va, page[pa][va % PGSIZE..va % PGSIZE + n])
  {
    hide NodesOk, Maps;
    var bytes := page[pa][va % PGSIZE..va % PGSIZE + n];
    forall k | 0 <= k < n ensures SeenBy(h, page, q, va + k) == Some(bytes[k]) {
      assert (va + k) / PGSIZE == va / PGSIZE && (va + k) % PGSIZE == va % PGSIZE + k;
    }
  }

  /** Copy from user memory. */
  method Copyin(ps: Procs, i: nat, srcva: nat, len: nat) returns (dst: seq<nat>, r: int)
    requires ps.Good() && i < |ps.proc| && ps.proc[i].used && srcva < WORD64
    modifies ps.vm
    ensures ps.Good() && NodesOk(old(ps.vm.H())) && NodesOk(ps.vm.H())
    ensures SameForAll(old(ps.vm.H()), old(ps.vm.page), ps.vm.H(), ps.vm.page, ps.proc)
    ensures |dst| <= len && Holds(old(ps.vm.H()), old(ps.vm.page), ps.proc[i], srcva, dst)
    ensures r == if |dst| == len then 0 else -1
    ensures r == -1 ==>
      || |old(ps.vm.free)| < 3 * Span(srcva, len)
      || SeenBy(old(ps.vm.H()), old(ps.vm.page), ps.proc[i], srcva + |dst|).None?
  {
    hide Sound, NodesOk, Maps, SameForAll, SeenBy, Holds;
    ghost var h, page, q := ps.vm.H(), ps.vm.page, ps.proc[i];
    dst := [];
    var va := srcva;
    NothingSeen(ps, q, va);
    while |dst| < len
      invariant ps.Good() && NodesOk(h) && NodesOk(ps.vm.H()) && |dst| <= len && va < WORD64
      invariant SameForAll(h, page, ps.vm.H(), ps.vm.page, ps.proc) && Holds(h, page, q, srcva, dst)
      invariant |dst| < len ==> va == srcva + |dst| && |old(ps.vm.free)| <= |ps.vm.free| + 3 * (va / PGSIZE - srcva / PGSIZE)
    {
      var va0 := va / PGSIZE * PGSIZE;
      ghost var h1, page1 := ps.vm.H(), ps.vm.page;
      var pa, ok := UserPage(ps, i, va0);
      SameForAllTrans(h, page, h1, page1, ps.vm.H(), ps.vm.page, ps.proc);
      if !ok {
        SameAt(h, page, h1, page1, ps.proc, i, va);
        return dst, -1;
      }
      var n := PGSIZE - (va - va0);
      if n > len - |dst| {
        n := len - |dst|;
      }
      PageHolds(ps.vm.H(), ps.vm.page, q, pa, va, n);
      SameHolds(h, page, ps.vm.H(), ps.vm.page, ps.proc, i, va, ps.vm.page[pa][va - va0..va - va0 + n]);
      HoldsMore(h, page, q, srcva, dst, ps.vm.page[pa][va - va0..va - va0 + n]);
      dst := dst + ps.vm.page[pa][va - va0..va - va0 + n];
      va := va0 + PGSIZE;
    }
    return dst, 0;
  }

  lemma SameHolds(h: Heap, page: map<nat, Page>, h': Heap, page': map<nat, Page>, proc: seq<Proc>, i: nat, va: nat, bytes: seq<nat>)
    requires NodesOk(h) && NodesOk(h') && SameForAll(h, page, h', page', proc) && i < |proc| && Holds(h', page', proc[i], va, bytes)
    ensures Holds(h, page, proc[i], va, bytes)
  {
    hide NodesOk, SeenBy, WritableBy;
    assert SameFor(h, page, h', page', proc[i]);
  }

  lemma SameAt(h: Heap, page: map<nat, Page>, h': Heap, page': map<nat, Page>, proc: seq<Proc>, i: nat, va: nat)
    requires NodesOk(h) && NodesOk(h') && SameForAll(h, page, h', page', proc) && i < |proc|
    ensures SeenBy(h', page', proc[i], va) == SeenBy(h, page, proc[i], va)
    ensures WritableBy(h', proc[i], va) <==> WritableBy(h, proc[i], va)
  {
    hide NodesOk, SeenBy, WritableBy;
    assert SameFor(h, page, h', page', proc[i]);
  }

  lemma NothingSeen(ps: Procs, q: Proc, va: nat)
    requires ps.Good()
    ensures |ps.proc| == NPROC && NodesOk(ps.vm.H()) && Holds(ps.vm.H(), ps.vm.page, q, va, [])
    ensures SameForAll(ps.vm.H(), ps.vm.page, ps.vm.H(), ps.vm.page, ps.proc)
  {
  }

  /** One process's memory holds new bytes from an address on, and nothing else changed for anyone. */
  ghost predicate Written(h: Heap, page: map<nat, Page>, h': Heap, page': map<nat, Page>, proc: seq<Proc>, i: nat,
                          va: nat, bytes: seq<nat>)
    requires NodesOk(h) && NodesOk(h') && i < |proc|
  {
    && (forall j | 0 <= j < |proc| && j != i :: SameFor(h, page, h', page', proc[j]))
    && (forall a: nat :: SeenBy(h', page', proc[i], a)
          == if va <= a < va + |bytes| then Some(bytes[a - va]) else SeenBy(h, page, proc[i], a))
    && (forall a: nat :: WritableBy(h', proc[i], a) <==> WritableBy(h, proc[i], a))
  }

  lemma SameIsWritten(h: Heap, page: map<nat, Page>, h': Heap, page': map<nat, Page>, proc: seq<Proc>, i: nat, va: nat)
    requires NodesOk(h) && NodesOk(h') && i < |proc| && SameForAll(h, page, h', page', proc)
    ensures Written(h, page, h', page', proc, i, va, [])
  {
    hide NodesOk, SeenBy, WritableBy;
    assert SameFor(h, page, h', page', proc[i]);
  }

  lemma WrittenMore(h: Heap, page: map<nat, Page>, h1: Heap, page1: map<nat, Page>, h2: Heap, page2: map<nat, Page>,
                    proc: seq<Proc>, i: nat, va: nat, bytes: seq<nat>, more: seq<nat>)
    requires NodesOk(h) && NodesOk(h1) && NodesOk(h2) && i < |proc|
    requires Written(h, page, h1, page1, proc, i, va, bytes) && Written(h1, page1, h2, page2, proc, i, va + |bytes|, more)
    ensures Written(h, page, h2, page2, proc, i, va, bytes + more)
  {
    hide NodesOk, SeenBy, WritableBy;
    forall j | 0 <= j < |proc| && j != i ensures SameFor(h, page, h2, page2, proc[j]) {
      assert SameFor(h, page, h1, page1, proc[j]) && SameFor(h1, page1, h2, page2, proc[j]);
    }
  }

  /** A page with part of it overwritten. */
  function Patched(p: Page, o: nat, bytes: seq<nat>): (r: Page)
    requires o + |bytes| <= |p|
    ensures |r| == |p| && forall k | 0 <= k < |p| :: r[k] == if o <= k < o + |bytes| then bytes[k - o] else p[k]
  {
    p[..o] + bytes + p[o + |bytes|..]
  }

  /** Overwriting part of a page that a process has mapped is seen by it alone, at those addresses. */
  lemma PutSeen(h: Heap, page: map<nat, Page>, proc: seq<Proc>, other: set<nat>, trampoline: nat, i: nat, pa: nat,
                va: nat, bytes: seq<nat>)
    requires Sound(h, page, proc, other, trampoline) && NodesOk(h) && i < |proc| && proc[i].used && proc[i].root.Some?
    requires pa in page && |page[pa]| == PGSIZE && va % PGSIZE + |bytes| <= PGSIZE
    requires var m, v := Maps(h, proc[i].root.value), va / PGSIZE; v in m && m[v].u && m[v].ppn == pa
    ensures var page' := page[pa := Patched(page[pa], va % PGSIZE, bytes)];
      Sound(h, page', proc, other, trampoline) && Written(h, page, h, page', proc, i, va, bytes)
  {
    hide Wf, NodesOk, Maps, Live, Accounted, Patched;
    var page' := page[pa := Patched(page[pa], va % PGSIZE, bytes)];
    SlotsParts(h, proc, trampoline);
    forall j, a: nat | 0 <= j < |proc|
      ensures SeenBy(h, page', proc[j], a)
           == if j == i && va <= a < va + |bytes| then Some(bytes[a - va]) else SeenBy(h, page, proc[j], a)
    {
      if proc[j] != UNUSED {
        LiveParts(h, proc[j], trampoline);
        PutSeenBy(h, page, proc[i], proc[j], trampoline, pa, va, bytes, a);
      }
    }
  }

  lemma PutSeenBy(h: Heap, page: map<nat, Page>, q: Proc, q': Proc, trampoline: nat, pa: nat, va: nat, bytes: seq<nat>, a: nat)
    requires Wf(h) && NodesOk(h) && LeavesHeld(h.own, page) && Live(h, q, trampoline) && Live(h, q', trampoline)
    requires q'.root == q.root ==> q' == q
    requires pa in page && |page[pa]| == PGSIZE && va % PGSIZE + |bytes| <= PGSIZE
    requires var m, v := Maps(h, q.root.value), va / PGSIZE; v in m && m[v].u && m[v].ppn == pa
    ensures SeenBy(h, page[pa := Patched(page[pa], va % PGSIZE, bytes)], q', a)
         == if q' == q && va <= a < va + |bytes| then Some(bytes[a - va]) else SeenBy(h, page, q', a)
  {
    hide Wf, NodesOk, Maps, LeavesHeld, Live;
    LiveParts(h, q, trampoline);
    LiveParts(h, q', trampoline);
    UserPages(h, page, q, trampoline, va / PGSIZE);
    var v' := a / PGSIZE;
    if v' in Maps(h, q'.root.value) {
      UserPages(h, page, q', trampoline, v');
    }
  }

  lemma WrittenWritable(h: Heap, page: map<nat, Page>, h': Heap, page': map<nat, Page>, proc: seq<Proc>, i: nat, va: nat,
                        bytes: seq<nat>, a: nat)
    requires NodesOk(h) && NodesOk(h') && i < |proc| && Written(h, page, h', page', proc, i, va, bytes)
    ensures WritableBy(h', proc[i], a) <==> WritableBy(h, proc[i], a)
  {
    hide NodesOk, SeenBy, WritableBy;
  }

  /** One round of copyout, within a page. */
  method PutChunk(ps: Procs, i: nat, va: nat, bytes: seq<nat>) returns (ok: bool)
    requires ps.Good() && i < |ps.proc| && ps.proc[i].used && va < MAXVA && va % PGSIZE + |bytes| <= PGSIZE
    modifies ps.vm
    ensures ps.Good() && NodesOk(old(ps.vm.H())) && NodesOk(ps.vm.H())
    ensures ok ==>
      && Written(old(ps.vm.H()), old(ps.vm.page), ps.vm.H(), ps.vm.page, ps.proc, i, va, bytes)
      && WritableBy(old(ps.vm.H()), ps.proc[i], va) && |old(ps.vm.free)| <= |ps.vm.free| + 3
    ensures !ok ==>
      && SameForAll(old(ps.vm.H()), old(ps.vm.page), ps.vm.H(), ps.vm.page, ps.proc)
      && (|old(ps.vm.free)| <= 2 || !WritableBy(old(ps.vm.H()), ps.proc[i], va))
  {
    hide Sound, Wf, IsRoot, NodesOk, Maps, SameForAll, SeenBy, WritableBy, Written, Patched;
    ghost var h, page, q := ps.vm.H(), ps.vm.page, ps.proc[i];
    NothingSeen(ps, q, va);
    var pa;
    pa, ok := UserPage(ps, i, va / PGSIZE * PGSIZE);
    SameIsWritten(h, page, ps.vm.H(), ps.vm.page, ps.proc, i, va);
    if !ok {
      return;
    }
    ghost var h1, page1 := ps.vm.H(), ps.vm.page;
    RootThere(ps, i);
    var e := ps.vm.FindPte(ps.proc[i].root.value, va / PGSIZE);
    WrittenWritable(h, page, h1, page1, ps.proc, i, va, [], va);
    MappedWritable(h1, ps.proc[i], va);
    if !e.w {
      return false;
    }
    PutSeen(h1, page1, ps.proc, ps.other, ps.trampoline, i, pa, va, bytes);
    ps.vm.page := ps.vm.page[pa := Patched(ps.vm.page[pa], va % PGSIZE, bytes)];
    WrittenMore(h, page, h1, page1, h1, ps.vm.page, ps.proc, i, va, [], bytes);
    assert [] + bytes == bytes;
  }

  lemma NotWritable(ps: Procs, i: nat, va: nat)
    requires ps.Good() && i < |ps.proc| && ps.proc[i].used && va >= MAXVA && NodesOk(ps.vm.H())
    ensures !WritableBy(ps.vm.H(), ps.proc[i], va)
  {
    hide Wf, Maps, LeavesHeld, Accounted, NodesOk;
    SlotsParts(ps.vm.H(), ps.proc, ps.trampoline);
    LiveSized(ps.vm.H(), ps.proc[i], ps.trampoline);
    MapsBelow(ps.vm.H(), ps.proc[i].root.value);
  }

  lemma MappedWritable(h: Heap, q: Proc, va: nat)
    requires NodesOk(h) && q.root.Some?
    requires var m, v := Maps(h, q.root.value), va / PGSIZE; v in m && m[v].u
    ensures WritableBy(h, q, va) <==> Maps(h, q.root.value)[va / PGSIZE].w
  {
  }

  lemma SamePage(h: Heap, q: Proc, va: nat, a: nat)
    requires NodesOk(h) && va / PGSIZE == a / PGSIZE
    ensures WritableBy(h, q, a) <==> WritableBy(h, q, va)
  {
  }

  lemma RootThere(ps: Procs, i: nat)
    requires ps.Good() && i < |ps.proc| && ps.proc[i].used
    ensures ps.proc[i].root.Some? && Wf(ps.vm.H()) && IsRoot(ps.vm.H(), ps.proc[i].root.value)
  {
    hide Wf, Maps, LeavesHeld, Accounted, IsRoot;
    WfNodes(ps.vm.H());
    SlotsParts(ps.vm.H(), ps.proc, ps.trampoline);
  }

  /** Copy to user memory: the bytes are there as far as the copy got, and nothing else changes for the
      system calls of anyone. */
  method Copyout(ps: Procs, i: nat, dstva: nat, src: seq<nat>) returns (r: int, ghost done: nat)
    requires ps.Good() && i < |ps.proc| && ps.proc[i].used && dstva < WORD64
    modifies ps.vm
    ensures ps.Good() && NodesOk(old(ps.vm.H())) && NodesOk(ps.vm.H()) && done <= |src|
    ensures Written(old(ps.vm.H()), old(ps.vm.page), ps.vm.H(), ps.vm.page, ps.proc, i, dstva, src[..done])
    ensures r == if done == |src| then 0 else -1
    ensures forall a | dstva <= a < dstva + done :: WritableBy(old(ps.vm.H()), ps.proc[i], a)
    ensures r == -1 ==>
      || |old(ps.vm.free)| < 3 * Span(dstva, |src|)
      || !WritableBy(old(ps.vm.H()), ps.proc[i], dstva + done)
  {
    hide Sound, NodesOk, Maps, SameForAll, SeenBy, WritableBy, Written;
    ghost var h, page, q := ps.vm.H(), ps.vm.page, ps.proc[i];
    done := 0;
    var va, at := dstva, 0;
    NothingSeen(ps, q, va);
    SameIsWritten(h, page, h, page, ps.proc, i, va);
    while at < |src|
      invariant ps.Good() && NodesOk(h) && NodesOk(ps.vm.H()) && done == at <= |src| && va < WORD64
      invariant Written(h, page, ps.vm.H(), ps.vm.page, ps.proc, i, dstva, src[..at])
      invariant forall a | dstva <= a < dstva + done :: WritableBy(h, ps.proc[i], a)
      invariant at < |src| ==> va == dstva + at && |old(ps.vm.free)| <= |ps.vm.free| + 3 * (va / PGSIZE - dstva / PGSIZE)
    {
      var va0 := va / PGSIZE * PGSIZE;
      if va0 >= MAXVA {
        NotWritable(ps, i, va);
        WrittenWritable(h, page, ps.vm.H(), ps.vm.page, ps.proc, i, dstva, src[..at], va);
        return -1, done;
      }
      var n := PGSIZE - (va - va0);
      if n > |src| - at {
        n := |src| - at;
      }
      ghost var h1, page1 := ps.vm.H(), ps.vm.page;
      var ok := PutChunk(ps, i, va, src[at..at + n]);
      if !ok {
        SameIsWritten(h1, page1, ps.vm.H(), ps.vm.page, ps.proc, i, va);
        WrittenMore(h, page, h1, page1, ps.vm.H(), ps.vm.page, ps.proc, i, dstva, src[..at], []);
        assert src[..at] + [] == src[..at];
        WrittenWritable(h, page, h1, page1, ps.proc, i, dstva, src[..at], va);
        return -1, done;
      }
      forall a | va <= a < va + n ensures WritableBy(h, ps.proc[i], a) {
        SamePage(h, ps.proc[i], va, a);
        WrittenWritable(h, page, h1, page1, ps.proc, i, dstva, src[..at], va);
      }
      WrittenMore(h, page, h1, page1, ps.vm.H(), ps.vm.page, ps.proc, i, dstva, src[..at], src[at..at + n]);
      assert src[..at] + src[at..at + n] == src[..at + n];
      at := at + n;
      done := at;
      va := va0 + PGSIZE;
    }
    return 0, done;
  }
}
