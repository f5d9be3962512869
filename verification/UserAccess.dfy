/** The memory of a process as its own loads and stores find it.

    A page fault passes the address itself to vmfault, which serves it only below the size, byte for
    byte. So an unmapped page that the size cuts through is there up to the size; once mapped, it is
    there to its end. That is the one way for a process to tell growing lazily, growing eagerly and
    served page faults apart.
 */
module UserAccess {
  import opened Params
  import opened Collections
  import opened PageTable
  import opened Ownership
  import opened AddressSpace
  import opened ProcessMemory
  import opened UserMemory

  /** The byte a load finds, possibly after a page fault; None where the process is killed. */
  ghost function Loaded(m: map<nat, Pte>, page: map<nat, Page>, sz: nat, va: nat): Option<nat> {
    var v, o := va / PGSIZE, va % PGSIZE;
    if v !in m then
      if va < sz then Some(0) else None
    else if m[v].u && m[v].r && m[v].ppn in page && o < |page[m[v].ppn]| then Some(page[m[v].ppn][o])
    else None
  }

  /** A store succeeds, possibly after a page fault. */
  ghost predicate Storable(m: map<nat, Pte>, sz: nat, va: nat) {
    var v := va / PGSIZE;
    if v in m then m[v].u && m[v].w else va < sz
  }

  ghost function LoadedBy(h: Heap, page: map<nat, Page>, q: Proc, va: nat): Option<nat>
    requires NodesOk(h)
  {
    if q.root.Some? then Loaded(Maps(h, q.root.value), page, q.sz, va) else None
  }

  ghost predicate StorableBy(h: Heap, q: Proc, va: nat)
    requires NodesOk(h)
  {
    q.root.Some? && Storable(Maps(h, q.root.value), q.sz, va)
  }

  /** The page of an address is mapped for a process. */
  ghost predicate MappedBy(h: Heap, q: Proc, va: nat)
    requires NodesOk(h)
  {
    q.root.Some? && va / PGSIZE in Maps(h, q.root.value)
  }

  /** System calls find every byte that the process can load, and below the size, on pages that are
      readable or not yet mapped, exactly those. */
  lemma LoadsAreCopied(h: Heap, page: map<nat, Page>, q: Proc, va: nat)
    requires NodesOk(h)
    ensures LoadedBy(h, page, q, va).Some? ==> SeenBy(h, page, q, va) == LoadedBy(h, page, q, va)
    ensures va < q.sz && (MappedBy(h, q, va) ==> Maps(h, q.root.value)[va / PGSIZE].r) ==>
      SeenBy(h, page, q, va) == LoadedBy(h, page, q, va)
    ensures !MappedBy(h, q, va) && SeenBy(h, page, q, va) != LoadedBy(h, page, q, va) <==>
      q.root.Some? && !MappedBy(h, q, va) && q.sz <= va < PagesOf(q.sz) * PGSIZE
  {
    hide NodesOk, Maps;
    BelowPage(q.sz, va);
  }

  lemma BelowPage(sz: nat, va: nat)
    ensures va / PGSIZE < PagesOf(sz) <==> va < PagesOf(sz) * PGSIZE
    ensures va < sz ==> va / PGSIZE < PagesOf(sz)
  {
  }

  /** Zeroed pages that a user may read and write. */
  ghost predicate ZeroPagesOnly(want: map<nat, Want>) {
    forall v | v in want :: want[v].e.u && want[v].e.r && want[v].e.w && want[v].content == ZeroPage()
  }

  /** A mapping that stays, to a page that keeps its contents, loads the same. */
  lemma KeptLoaded(h: Heap, page: map<nat, Page>, m': map<nat, Pte>, page': map<nat, Page>, q: Proc, trampoline: nat, sz: nat, va: nat)
    requires Wf(h) && NodesOk(h) && LeavesHeld(h.own, page) && Live(h, q, trampoline) && KeptPages(h.own, page, page')
    requires var v, m := va / PGSIZE, Maps(h, q.root.value); v in m && v in m' && m'[v] == m[v]
    ensures Loaded(m', page', sz, va) == Loaded(Maps(h, q.root.value), page, sz, va)
  {
    hide Wf, NodesOk, Maps, LeavesHeld, Live;
    UserPages(h, page, q, trampoline, va / PGSIZE);
  }

  /** After a page table has filled up with zeroed pages, its process loads zeroes from all of them, and
      everything else is as it was, for this process and every other one. */
  lemma FilledLoaded(h: Heap, page: map<nat, Page>, h': Heap, page': map<nat, Page>, root: nat, want: map<nat, Want>,
                     q: Proc, trampoline: nat, sz: nat, va: nat)
    requires Wf(h) && NodesOk(h) && NodesOk(h') && LeavesHeld(h.own, page) && Live(h, q, trampoline)
    requires Filled(h, page, h', page', root, want) && ZeroPagesOnly(want)
    ensures Loaded(Maps(h', q.root.value), page', sz, va)
         == if q.root.value == root && va / PGSIZE in want then Some(0) else Loaded(Maps(h, q.root.value), page, sz, va)
    ensures Storable(Maps(h', q.root.value), sz, va)
       <==> (q.root.value == root && va / PGSIZE in want) || Storable(Maps(h, q.root.value), sz, va)
    ensures q.root.value == root && va / PGSIZE in want ==> va / PGSIZE !in Maps(h, root)
  {
    hide Wf, NodesOk, Maps, LeavesHeld, Live, Grew, KeptPages;
    LiveParts(h, q, trampoline);
    var v := va / PGSIZE;
    if v in Maps(h, q.root.value) {
      KeptLoaded(h, page, Maps(h', q.root.value), page', q, trampoline, sz, va);
    }
  }

  /** Between eager and lazy growth from sz to newsz: a page that only eager growth maps, past the new
      size. */
  predicate OnlyEager(sz: nat, newsz: nat, va: nat) {
    PagesOf(sz) <= va / PGSIZE && newsz <= va < PagesOf(newsz) * PGSIZE
  }

  /** Eager and lazy growth by the same amount differ, for loads and for stores, exactly at the addresses
      past the new size on the last page, if eager growth mapped that page. */
  lemma EagerVersusLazy(h: Heap, page: map<nat, Page>, h': Heap, page': map<nat, Page>, q: Proc, trampoline: nat, n: int, va: nat)
    requires Wf(h) && LeavesHeld(h.own, page) && NodesOk(h) && Live(h, q, trampoline) && n > 0
    requires Grown(h, page, h', page', q, n, true)
    ensures NodesOk(h') && var lazy := q.(sz := q.sz + n);
      && (LoadedBy(h', page', lazy, va) != LoadedBy(h, page, lazy, va) <==> OnlyEager(q.sz, q.sz + n, va))
      && ((StorableBy(h', lazy, va) <==> StorableBy(h, lazy, va)) <==> !OnlyEager(q.sz, q.sz + n, va))
      && (OnlyEager(q.sz, q.sz + n, va) ==> LoadedBy(h', page', lazy, va) == Some(0) && LoadedBy(h, page, lazy, va).None?)
  {
    hide Wf, NodesOk, Maps, LeavesHeld, Live, Filled, ZeroPage;
    var want := ZeroPages(PagesOf(q.sz), PagesOf(q.sz + n), true, false);
    FilledLoaded(h, page, h', page', q.root.value, want, q, trampoline, q.sz + n, va);
    BelowPage(q.sz + n, va);
    WantedPages(q.sz, q.sz + n, va / PGSIZE);
  }

  lemma WantedPages(sz: nat, newsz: nat, v: nat)
    ensures v in ZeroPages(PagesOf(sz), PagesOf(newsz), true, false) <==> PagesOf(sz) <= v < PagesOf(newsz)
  {
    hide PagesOf, ZeroPage;
  }

  /** Shrinking keeps exactly the mapped pages that begin below the new size, and of the others what lies
      below it. */
  lemma ShrunkLoaded(h: Heap, page: map<nat, Page>, h': Heap, page': map<nat, Page>, q: Proc, trampoline: nat, n: int, va: nat)
    requires Wf(h) && LeavesHeld(h.own, page) && NodesOk(h) && Live(h, q, trampoline) && n <= 0
    requires Grown(h, page, h', page', q, n, true)
    ensures NodesOk(h') && var newsz := NewSize(q.sz, n);
      LoadedBy(h', page', q.(sz := newsz), va)
      == if va < newsz || (MappedBy(h, q, va) && va < PagesOf(newsz) * PGSIZE) then LoadedBy(h, page, q, va) else None
  {
    hide Wf, NodesOk, Maps, LeavesHeld, Live, PagesOf;
    var newsz := NewSize(q.sz, n);
    BelowPage(newsz, va);
    PagesOfMonotone(newsz, q.sz);
    if va / PGSIZE in Maps(h, q.root.value) {
      UserPages(h, page, q, trampoline, va / PGSIZE);
    }
  }

  /** After a fork the child loads and stores what the parent does. */
  lemma ForkLoaded(h: Heap, page: map<nat, Page>, q: Proc, c: Proc, trampoline: nat, va: nat)
    requires Wf(h) && LeavesHeld(h.own, page) && NodesOk(h) && Live(h, q, trampoline) && Live(h, c, trampoline)
    requires c.sz == q.sz && SameMemory(h, page, q.root.value, c.root.value)
    ensures LoadedBy(h, page, c, va) == LoadedBy(h, page, q, va) && (StorableBy(h, c, va) <==> StorableBy(h, q, va))
  {
    hide Wf, NodesOk, Maps, LeavesHeld, Live;
    LiveParts(h, q, trampoline);
    LiveParts(h, c, trampoline);
    LiveSized(h, q, trampoline);
    var v := va / PGSIZE;
    if v in Maps(h, q.root.value) {
      UserPages(h, page, q, trampoline, v);
    }
    if v in Maps(h, c.root.value) {
      UserPages(h, page, c, trampoline, v);
    }
    KernelThere(h, q, trampoline, v);
    KernelThere(h, c, trampoline, v);
  }

  /** They never differ for a size that is a whole number of pages. */
  lemma EagerIsLazyForPages(sz: nat, newsz: nat, va: nat)
    requires newsz % PGSIZE == 0
    ensures !OnlyEager(sz, newsz, va)
  {
  }

  /** From size 0 to 100: at address 200 eager growth loads a zero, lazy growth kills. */
  lemma EagerDiffersAt200()
    ensures OnlyEager(0, 100, 200)
    ensures Loaded(map[], map[], 100, 200).None? && !Storable(map[], 100, 200)
    ensures forall p: nat :: Loaded(map[0 := FaultPte().(ppn := p)], map[p := ZeroPage()], 100, 200) == Some(0)
  {
  }

  /** Of all processes and addresses, loads and stores change exactly for process i past its size on the
      page of va, if a fault there was served. */
  ghost predicate ChangesPastSize(h: Heap, page: map<nat, Page>, h': Heap, page': map<nat, Page>, proc: seq<Proc>,
                                  i: nat, va: nat, served: bool)
    requires NodesOk(h) && NodesOk(h') && i < |proc|
  {
    forall j, a: nat | 0 <= j < |proc| :: ChangesAt(h, page, h', page', proc, i, va, served, j, a)
  }

  ghost predicate ChangesAt(h: Heap, page: map<nat, Page>, h': Heap, page': map<nat, Page>, proc: seq<Proc>,
                            i: nat, va: nat, served: bool, j: nat, a: nat)
    requires NodesOk(h) && NodesOk(h') && i < |proc| && j < |proc|
  {
    var past := served && j == i && a / PGSIZE == va / PGSIZE && proc[i].sz <= a;
    && (LoadedBy(h', page', proc[j], a) != LoadedBy(h, page, proc[j], a) <==> past)
    && ((StorableBy(h', proc[j], a) <==> StorableBy(h, proc[j], a)) <==> !past)
    && (past ==> LoadedBy(h', page', proc[j], a) == Some(0))
  }

  /** For a size that is a whole number of pages no address is past the size on a page that can fault. */
  lemma FaultUnseenForPages(sz: nat, va: nat, a: nat)
    requires sz % PGSIZE == 0 && va < sz && a / PGSIZE == va / PGSIZE
    ensures a < sz
  {
  }

  lemma FaultChangesAt(h: Heap, page: map<nat, Page>, h': Heap, page': map<nat, Page>, proc: seq<Proc>, trampoline: nat,
                       i: nat, va: nat, served: bool, j: nat, a: nat)
    requires Wf(h) && NodesOk(h) && NodesOk(h') && LeavesHeld(h.own, page) && i < |proc| && j < |proc|
    requires Live(h, proc[i], trampoline) && Live(h, proc[j], trampoline) && (i != j ==> proc[i].root != proc[j].root)
    requires served ==> va < proc[i].sz && Filled(h, page, h', page', proc[i].root.value, FaultPage(va))
    requires !served ==> SameMaps(h, h') && KeptPages(h.own, page, page')
    ensures ChangesAt(h, page, h', page', proc, i, va, served, j, a)
  {
    hide Wf, NodesOk, Maps, LeavesHeld, Live, Filled, KeptPages, ZeroPage;
    LiveParts(h, proc[i], trampoline);
    LiveParts(h, proc[j], trampoline);
    if served {
      FilledLoaded(h, page, h', page', proc[i].root.value, FaultPage(va), proc[j], trampoline, proc[j].sz, a);
    } else if a / PGSIZE in Maps(h, proc[j].root.value) {
      KeptLoaded(h, page, Maps(h', proc[j].root.value), page', proc[j], trampoline, proc[j].sz, a);
    }
  }

  /** What a page fault changes: served, exactly the addresses past the size on its page; else nothing. */
  lemma FaultChanges(h: Heap, page: map<nat, Page>, h': Heap, page': map<nat, Page>, proc: seq<Proc>, other: set<nat>,
                     trampoline: nat, i: nat, va: nat, served: bool)
    requires Sound(h, page, proc, other, trampoline) && NodesOk(h) && NodesOk(h') && i < NPROC && proc[i].used && proc[i].root.Some?
    requires served ==> va < proc[i].sz && Filled(h, page, h', page', proc[i].root.value, FaultPage(va))
    requires !served ==> SameMaps(h, h') && KeptPages(h.own, page, page')
    ensures ChangesPastSize(h, page, h', page', proc, i, va, served)
  {
    hide Wf, NodesOk, Maps, LeavesHeld, Live, Accounted, Filled, KeptPages;
    forall j, a: nat | 0 <= j < NPROC ensures ChangesAt(h, page, h', page', proc, i, va, served, j, a) {
      if proc[j] != UNUSED {
        LiveParts(h, proc[j], trampoline);
        FaultChangesAt(h, page, h', page', proc, trampoline, i, va, served, j, a);
      }
    }
  }

  /** The hardware's translation of an access, with a page fault and a second try where it fails. Not ok:
      the process is killed. */
  method Access(ps: Procs, i: nat, va: nat, store: bool) returns (pa: nat, ok: bool)
    requires ps.Good() && i < NPROC && ps.proc[i].used && va < WORD64
    modifies ps.vm
    ensures ps.Good() && NodesOk(old(ps.vm.H())) && NodesOk(ps.vm.H())
    ensures ChangesPastSize(old(ps.vm.H()), old(ps.vm.page), ps.vm.H(), ps.vm.page, ps.proc, i, va,
                            ok && !MappedBy(old(ps.vm.H()), ps.proc[i], va))
    ensures !ok ==>
      || (|old(ps.vm.free)| <= 2 && !MappedBy(old(ps.vm.H()), ps.proc[i], va))
      || if store then !StorableBy(old(ps.vm.H()), ps.proc[i], va) else LoadedBy(old(ps.vm.H()), old(ps.vm.page), ps.proc[i], va).None?
    ensures ok ==> ps.proc[i].root.Some? && Reaches(Maps(ps.vm.H(), ps.proc[i].root.value), ps.vm.page, va, pa, store)
    ensures ok && !store ==> LoadedBy(old(ps.vm.H()), old(ps.vm.page), ps.proc[i], va) == Some(ps.vm.page[pa][va % PGSIZE])
    ensures ok && store ==> StorableBy(old(ps.vm.H()), ps.proc[i], va)
  {
    hide Wf, NodesOk, Maps, LeavesHeld, Live, Accounted, Filled, KeptPages, SameMaps, Grew, IsRoot, ChangesPastSize;
    ghost var h, page := ps.vm.H(), ps.vm.page;
    WfNodes(h);
    SlotsParts(h, ps.proc, ps.trampoline);
    LiveParts(h, ps.proc[i], ps.trampoline);
    MapsBelow(h, ps.proc[i].root.value);
    SameMapsRefl(h);
    KeptAll(h.own, page);
    FaultChanges(h, page, h, page, ps.proc, ps.other, ps.trampoline, i, va, false);
    if va < MAXVA {
      var e := ps.vm.FindPte(ps.proc[i].root.value, va / PGSIZE);
      if e.v && e.u && (if store then e.w else e.r) {
        UserPages(h, page, ps.proc[i], ps.trampoline, va / PGSIZE);
        return e.ppn, true;
      }
    }
    pa, ok := ps.Vmfault(i, va);
    WfNodes(ps.vm.H());
    if ok {
      FaultChanges(h, page, ps.vm.H(), ps.vm.page, ps.proc, ps.other, ps.trampoline, i, va, true);
      FaultReaches(h, page, ps.vm.H(), ps.vm.page, ps.proc[i].root.value, va, store);
    } else {
      FaultChanges(h, page, ps.vm.H(), ps.vm.page, ps.proc, ps.other, ps.trampoline, i, va, false);
    }
  }

  /** The page of an address is mapped to pa for this kind of access. */
  ghost predicate Reaches(m: map<nat, Pte>, page: map<nat, Page>, va: nat, pa: nat, store: bool) {
    var v := va / PGSIZE;
    v in m && m[v].u && (if store then m[v].w else m[v].r) && m[v].ppn == pa && pa in page && |page[pa]| == PGSIZE
  }

  lemma FaultReaches(h: Heap, page: map<nat, Page>, h': Heap, page': map<nat, Page>, root: nat, va: nat, store: bool)
    requires NodesOk(h) && NodesOk(h') && Filled(h, page, h', page', root, FaultPage(va))
    ensures va / PGSIZE in Maps(h', root) && va / PGSIZE !in Maps(h, root)
    ensures var p := Maps(h', root)[va / PGSIZE].ppn; Reaches(Maps(h', root), page', va, p, store) && page'[p] == ZeroPage()
  {
    hide NodesOk, Maps, Grew, KeptPages;
    assert va / PGSIZE in FaultPage(va);
  }

  /** A load: the byte it finds, or the end of the process. */
  method Load(ps: Procs, i: nat, va: nat) returns (b: nat, alive: bool)
    requires ps.Good() && i < NPROC && ps.proc[i].used && va < WORD64
    modifies ps.vm
    ensures ps.Good() && NodesOk(old(ps.vm.H())) && NodesOk(ps.vm.H())
    ensures ChangesPastSize(old(ps.vm.H()), old(ps.vm.page), ps.vm.H(), ps.vm.page, ps.proc, i, va,
                            alive && !MappedBy(old(ps.vm.H()), ps.proc[i], va))
    ensures alive ==> LoadedBy(old(ps.vm.H()), old(ps.vm.page), ps.proc[i], va) == Some(b)
    ensures !alive ==>
      || (|old(ps.vm.free)| <= 2 && !MappedBy(old(ps.vm.H()), ps.proc[i], va))
      || LoadedBy(old(ps.vm.H()), old(ps.vm.page), ps.proc[i], va).None?
  {
    hide Sound, NodesOk, Maps, ChangesPastSize, LoadedBy, MappedBy;
    b := 0;
    var pa;
    pa, alive := Access(ps, i, va, false);
    if alive {
      b := ps.vm.page[pa][va % PGSIZE];
    }
  }

  /** After a store: its address holds the byte, addresses past the size on a page just served are zero,
      and everything else is as it was, for every process. */
  ghost predicate StoreChanges(h: Heap, page: map<nat, Page>, h': Heap, page': map<nat, Page>, proc: seq<Proc>,
                               i: nat, va: nat, b: nat, served: bool)
    requires NodesOk(h) && NodesOk(h') && i < |proc|
  {
    forall j, a: nat | 0 <= j < |proc| ::
      LoadedBy(h', page', proc[j], a)
      == if j == i && a == va && LoadedBy(h, page, proc[i], va).Some? then Some(b)
         else if served && j == i && a / PGSIZE == va / PGSIZE && proc[i].sz <= a then Some(0)
         else LoadedBy(h, page, proc[j], a)
  }

  method Store(ps: Procs, i: nat, va: nat, b: nat) returns (alive: bool)
    requires ps.Good() && i < NPROC && ps.proc[i].used && va < WORD64
    modifies ps.vm
    ensures ps.Good() && NodesOk(old(ps.vm.H())) && NodesOk(ps.vm.H())
    ensures alive ==>
      && StorableBy(old(ps.vm.H()), ps.proc[i], va)
      && StoreChanges(old(ps.vm.H()), old(ps.vm.page), ps.vm.H(), ps.vm.page, ps.proc, i, va, b,
                      !MappedBy(old(ps.vm.H()), ps.proc[i], va))
    ensures !alive ==>
      && ChangesPastSize(old(ps.vm.H()), old(ps.vm.page), ps.vm.H(), ps.vm.page, ps.proc, i, va, false)
      && ((|old(ps.vm.free)| <= 2 && !MappedBy(old(ps.vm.H()), ps.proc[i], va)) || !StorableBy(old(ps.vm.H()), ps.proc[i], va))
  {
    hide Sound, NodesOk, Maps, ChangesPastSize, LoadedBy, StorableBy, MappedBy, Patched, StoreChanges, Reaches;
    ghost var h, page := ps.vm.H(), ps.vm.page;
    NothingSeen(ps, UNUSED, va);
    var pa;
    pa, alive := Access(ps, i, va, true);
    if alive {
      StoredBelow(h, ps.proc[i], va);
      ghost var page1 := ps.vm.page;
      ReachedPage(Maps(ps.vm.H(), ps.proc[i].root.value), page1, va, pa, true);
      PutLoaded(h, page, ps.vm.H(), page1, ps.proc, ps.other, ps.trampoline, i, pa, va, b, !MappedBy(h, ps.proc[i], va));
      ps.vm.page := ps.vm.page[pa := Patched(ps.vm.page[pa], va % PGSIZE, [b])];
    }
  }

  lemma StoredBelow(h: Heap, q: Proc, va: nat)
    requires NodesOk(h) && StorableBy(h, q, va)
    ensures MappedBy(h, q, va) || va < q.sz
  {
  }

  lemma ReachedPage(m: map<nat, Pte>, page: map<nat, Page>, va: nat, pa: nat, store: bool)
    requires Reaches(m, page, va, pa, store)
    ensures pa in page && |page[pa]| == PGSIZE && va / PGSIZE in m && m[va / PGSIZE].u && m[va / PGSIZE].ppn == pa
  {
  }

  lemma PutLoaded(h: Heap, page: map<nat, Page>, h1: Heap, page1: map<nat, Page>, proc: seq<Proc>, other: set<nat>, trampoline: nat,
                  i: nat, pa: nat, va: nat, b: nat, served: bool)
    requires NodesOk(h) && NodesOk(h1) && Sound(h1, page1, proc, other, trampoline) && i < |proc| && proc[i].used && proc[i].root.Some?
    requires ChangesPastSize(h, page, h1, page1, proc, i, va, served) && (served ==> va < proc[i].sz)
    requires Reaches(Maps(h1, proc[i].root.value), page1, va, pa, true)
    ensures pa in page1 && |page1[pa]| == PGSIZE
    ensures var page2 := page1[pa := Patched(page1[pa], va % PGSIZE, [b])];
      Sound(h1, page2, proc, other, trampoline) && StoreChanges(h, page, h1, page2, proc, i, va, b, served)
  {
    hide Wf, NodesOk, Maps, Live, Accounted, Patched, LeavesHeld, Slots, Apart, LoadedBy, StorableBy;
    PutSeen(h1, page1, proc, other, trampoline, i, pa, va, [b]);
    var page2 := page1[pa := Patched(page1[pa], va % PGSIZE, [b])];
    forall j, a: nat | 0 <= j < |proc|
      ensures LoadedBy(h1, page2, proc[j], a)
           == if j == i && a == va && LoadedBy(h, page, proc[i], va).Some? then Some(b)
              else if served && j == i && a / PGSIZE == va / PGSIZE && proc[i].sz <= a then Some(0)
              else LoadedBy(h, page, proc[j], a)
    {
      assert ChangesAt(h, page, h1, page1, proc, i, va, served, j, a) && ChangesAt(h, page, h1, page1, proc, i, va, served, i, va);
      PutLoadedAt(h1, page1, proc, other, trampoline, i, pa, va, b, j, a);
    }
  }

  lemma PutLoadedAt(h: Heap, page: map<nat, Page>, proc: seq<Proc>, other: set<nat>, trampoline: nat, i: nat, pa: nat,
                    va: nat, b: nat, j: nat, a: nat)
    requires Sound(h, page, proc, other, trampoline) && NodesOk(h) && i < |proc| && j < |proc| && proc[i].used && proc[i].root.Some?
    requires Reaches(Maps(h, proc[i].root.value), page, va, pa, true)
    ensures LoadedBy(h, page[pa := Patched(page[pa], va % PGSIZE, [b])], proc[j], a)
         == if j == i && a == va && LoadedBy(h, page, proc[i], va).Some? then Some(b) else LoadedBy(h, page, proc[j], a)
  {
    hide Wf, NodesOk, Maps, Live, Accounted;
    SlotsParts(h, proc, trampoline);
    UserPages(h, page, proc[i], trampoline, va / PGSIZE);
    if proc[j] != UNUSED {
      LiveParts(h, proc[j], trampoline);
      if a / PGSIZE in Maps(h, proc[j].root.value) {
        UserPages(h, page, proc[j], trampoline, a / PGSIZE);
      }
    }
  }

  lemma NewProcess(h: Heap, h1: Heap, page: map<nat, Page>, was: seq<Proc>, proc: seq<Proc>, trampoline: nat, i: nat, sz: nat, va: nat)
    requires Allocated(h, h1, was, proc, trampoline, i) && sz <= va < TRAPFRAME * PGSIZE
    ensures NodesOk(h1) && LoadedBy(h1, page, proc[i].(sz := sz), va).None?
  {
    hide NodesOk, Maps, IsRoot, Grew;
    OnlyMapAt(h, h1, proc[i].root.value, KernelMaps(trampoline, proc[i].tf.value));
  }

  lemma PastIsMapped(h: Heap, page: map<nat, Page>, q: Proc, va: nat)
    requires NodesOk(h) && LoadedBy(h, page, q, va).Some? && va >= q.sz
    ensures MappedBy(h, q, va)
  {
    hide NodesOk, Maps;
  }

  /** The difference as the code shows it: a new process grows to 100 bytes and loads from address 200. */
  method GrowAndLoad(trampoline: nat, eager: bool) returns (alive: bool)
    ensures alive <==> eager
  {
    hide NodesOk, Maps, ChangesPastSize, LoadedBy, MappedBy, Wf, Live, LeavesHeld, Accounted, Apart, Allocated, Grown;
    var ps := new Procs(0, 100, trampoline);
    assert !ps.proc[0].used;
    ghost var h0, proc0 := ps.vm.H(), ps.proc;
    var i, made := ps.Allocproc();
    ghost var h, page := ps.vm.H(), ps.vm.page;
    WfNodes(h);
    NewProcess(h0, h, page, proc0, ps.proc, trampoline, i, 100, 200);
    NewSlot(h0, h, page, proc0, ps.proc, ps.other, trampoline, i);
    ghost var q := ps.proc[i];
    var r := ps.Sbrk(i, 100, eager);
    assert r != -1 && ps.proc[i] == q.(sz := 100);
    if eager {
      EagerVersusLazy(h, page, ps.vm.H(), ps.vm.page, q, trampoline, 100, 200);
      PastIsMapped(ps.vm.H(), ps.vm.page, ps.proc[i], 200);
    }
    var b;
    b, alive := Load(ps, i, 200);
  }

  lemma NewSlot(h: Heap, h1: Heap, page: map<nat, Page>, was: seq<Proc>, proc: seq<Proc>, other: set<nat>, trampoline: nat, i: nat)
    requires Allocated(h, h1, was, proc, trampoline, i) && NodesOk(h1) && Sound(h1, page, proc, other, trampoline)
    ensures i < |proc| && proc[i].used && proc[i].sz == 0 && Live(h1, proc[i], trampoline) && |proc| == NPROC
  {
    hide NodesOk, Maps, IsRoot, Grew, Wf, LeavesHeld, Accounted, Live, OnlyMap;
  }
}
