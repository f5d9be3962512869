/** The memory of processes: which page belongs to whom while processes fork, grow, shrink, fault
    and go away.
 */
module ProcessMemory {
  import opened Params
  import opened Collections
  import opened PageTable
  import opened Ownership
  import opened AddressSpace

  const MAXSZ := TRAPFRAME * PGSIZE

  /** The part of a process table slot that is about memory. Sizes are in bytes. */
  datatype Proc = Proc(used: bool, tf: Option<nat>, root: Option<nat>, sz: nat)

  const UNUSED := Proc(false, None, None, 0)

  /** A live process: its user mappings lie below its size, and its page table maps the trampoline
      and its trapframe at the top. */
  ghost predicate Live(h: Heap, q: Proc, trampoline: nat)
    requires NodesOk(h)
  {
    && q.used && q.tf.Some? && q.root.Some? && q.sz <= MAXSZ
    && q.tf.value in h.own && h.own[q.tf.value].Kernel? && IsRoot(h, q.root.value)
    && UserBelow(Maps(h, q.root.value), q.sz)
    && KernelPart(Maps(h, q.root.value), trampoline, q.tf.value)
  }

  ghost predicate UserBelow(m: map<nat, Pte>, sz: nat) {
    forall v | v in m && v < TRAPFRAME :: v < PagesOf(sz)
  }

  ghost predicate KernelPart(m: map<nat, Pte>, trampoline: nat, tf: nat) {
    forall v | v in KernelMaps(trampoline, tf) :: v in m && m[v] == KernelMaps(trampoline, tf)[v]
  }

  ghost predicate Slots(h: Heap, proc: seq<Proc>, trampoline: nat)
    requires NodesOk(h)
  {
    && |proc| == NPROC
    && (forall i | 0 <= i < NPROC :: proc[i] == UNUSED || Live(h, proc[i], trampoline))
  }

  ghost predicate Apart(proc: seq<Proc>) {
    forall i, j | 0 <= i < j < |proc| && proc[i].used && proc[j].used ::
      proc[i].root != proc[j].root && proc[i].tf != proc[j].tf
  }

  ghost predicate HasRoot(proc: seq<Proc>, r: nat) {
    exists i :: 0 <= i < |proc| && proc[i].used && proc[i].root == Some(r)
  }

  ghost predicate HasTf(proc: seq<Proc>, p: nat) {
    exists i :: 0 <= i < |proc| && proc[i].used && proc[i].tf == Some(p)
  }

  /** Every page table belongs to a process, and the kernel's pages are the trapframes and `other`. */
  ghost predicate Accounted(h: Heap, proc: seq<Proc>, other: set<nat>) {
    && (forall r | IsRoot(h, r) :: HasRoot(proc, r))
    && (forall p | p in h.own && h.own[p].Kernel? :: p in other || HasTf(proc, p))
    && (forall p | p in other :: p in h.own && h.own[p].Kernel? && !HasTf(proc, p))
  }

  ghost predicate Sound(h: Heap, page: map<nat, Page>, proc: seq<Proc>, other: set<nat>, trampoline: nat) {
    && Wf(h) && LeavesHeld(h.own, page)
    && Slots(h, proc, trampoline) && Apart(proc) && Accounted(h, proc, other)
  }

  datatype Use = OnFreeList | TableOf(slot: nat) | LeafOf(slot: nat, vpn: nat) | TrapframeOf(slot: nat) | Other

  /** The page-table page that the walk for a virtual page reaches at a level. */
  function WalkPage(table: map<nat, seq<Pte>>, root: nat, level: nat, vpn: nat): (r: Option<nat>)
    requires level <= 2
    decreases 2 - level
  {
    if level == 2 then Some(root) else
    var up := WalkPage(table, root, level + 1, vpn);
    if up.None? || up.value !in table || |table[up.value]| != ENTRIES then None else
    var e := table[up.value][PX(level + 1, vpn)];
    if e.v then Some(e.ppn) else None
  }

  ghost predicate TableIn(table: map<nat, seq<Pte>>, root: nat, p: nat) {
    exists level: nat, vpn: nat :: level <= 2 && vpn < PAGES && WalkPage(table, root, level, vpn) == Some(p)
  }

  /** What a page is used for, read off the free list, the page tables and the process table. */
  ghost predicate UsedAs(h: Heap, proc: seq<Proc>, other: set<nat>, p: nat, u: Use)
    requires NodesOk(h)
  {
    match u
    case OnFreeList => p in h.free
    case TableOf(i) => i < |proc| && proc[i].used && proc[i].root.Some? && TableIn(h.table, proc[i].root.value, p)
    case LeafOf(i, v) =>
      && i < |proc| && proc[i].used && proc[i].root.Some? && v < TRAPFRAME
      && Translate(h.table, proc[i].root.value, v).v && Translate(h.table, proc[i].root.value, v).ppn == p
    case TrapframeOf(i) => i < |proc| && proc[i].used && proc[i].tf == Some(p)
    case Other => p in other
  }

  lemma {:induction false} WalkReaches(h: Heap, root: nat, level: nat, vpn: nat)
    requires Wf(h) && IsRoot(h, root) && vpn < PAGES && level <= 2
    ensures WalkPage(h.table, root, level, vpn)
         == if PathNode(root, level, vpn) in h.at then Some(h.at[PathNode(root, level, vpn)]) else None
    decreases 2 - level
  {
    var n := PathNode(root, level, vpn);
    if level == 2 {
      PathTop(root, vpn);
      NodeAt(h, n);
    } else {
      WalkReaches(h, root, level + 1, vpn);
      PathStep(root, level + 1, vpn);
      var up := PathNode(root, level + 1, vpn);
      ChildParent(up, PX(level + 1, vpn));
      if up in h.at {
        NodeAt(h, up);
        EntryAt(h, up, PX(level + 1, vpn));
      }
    }
  }

  lemma PathTo(n: Node) returns (vpn: nat)
    requires InSpace(n)
    ensures vpn < PAGES && PathNode(n.root, n.level, vpn) == n
  {
    vpn := if n.level == 0 then n.prefix * ENTRIES else if n.level == 1 then n.prefix * (ENTRIES * ENTRIES) else 0;
  }

  /** The pages reached by walks from a root are the page-table pages it owns. */
  lemma TableOwned(h: Heap, root: nat, p: nat)
    requires Wf(h) && IsRoot(h, root)
    ensures TableIn(h.table, root, p) <==> p in h.own && h.own[p].Table? && h.own[p].node.root == root
  {
    if TableIn(h.table, root, p) {
      var level: nat, vpn: nat :| level <= 2 && vpn < PAGES && WalkPage(h.table, root, level, vpn) == Some(p);
      WalkReaches(h, root, level, vpn);
      NodeAt(h, PathNode(root, level, vpn));
    }
    if p in h.own && h.own[p].Table? && h.own[p].node.root == root {
      var n := h.own[p].node;
      NodeAt(h, n);
      var vpn := PathTo(n);
      WalkReaches(h, root, n.level, vpn);
    }
  }

  /** The same, read off the owners. */
  ghost predicate OwnerSays(own: map<nat, Owner>, proc: seq<Proc>, other: set<nat>, p: nat, u: Use) {
    && p in own
    && match u
       case OnFreeList => own[p].Free?
       case TableOf(i) =>
         && i < |proc| && proc[i].used && proc[i].root.Some?
         && own[p].Table? && own[p].node.root == proc[i].root.value
       case LeafOf(i, v) => i < |proc| && proc[i].used && proc[i].root.Some? && own[p] == Leaf(proc[i].root.value, v)
       case TrapframeOf(i) => i < |proc| && proc[i].used && proc[i].tf == Some(p)
       case Other => p in other
  }

  lemma UseOwner(h: Heap, page: map<nat, Page>, proc: seq<Proc>, other: set<nat>, trampoline: nat, p: nat, u: Use)
    requires Sound(h, page, proc, other, trampoline) && NodesOk(h)
    ensures UsedAs(h, proc, other, p, u) <==> OwnerSays(h.own, proc, other, p, u)
  {
    hide NodesOk, DownOk, UpOk, LeavesOk, Maps;
    match u
    case OnFreeList =>
    case TableOf(i) =>
      if i < |proc| && proc[i].used {
        TableOwned(h, proc[i].root.value, p);
      }
    case LeafOf(i, v) =>
      if i < |proc| && proc[i].used {
        var r := proc[i].root.value;
        if v < TRAPFRAME {
          WalkRefinesMap(h, r, v);
          if v in Maps(h, r) {
            MappedIsLeaf(h, r, v);
          }
        }
        if p in h.own && h.own[p] == Leaf(r, v) {
          LeafIsMapped(h, p);
        }
      }
    case TrapframeOf(i) =>
    case Other =>
  }

  lemma SomeUse(h: Heap, page: map<nat, Page>, proc: seq<Proc>, other: set<nat>, trampoline: nat, p: nat) returns (u: Use)
    requires Sound(h, page, proc, other, trampoline) && p in h.own
    ensures OwnerSays(h.own, proc, other, p, u)
  {
    hide Wf, LeavesHeld, Slots, Apart;
    match h.own[p] {
      case Free =>
        u := OnFreeList;
      case Table(n) =>
        NodeHasRoot(h, n);
        var i :| 0 <= i < |proc| && proc[i].used && proc[i].root == Some(n.root);
        u := TableOf(i);
      case Leaf(r, v) =>
        LeafHasRoot(h, p);
        var i :| 0 <= i < |proc| && proc[i].used && proc[i].root == Some(r);
        u := LeafOf(i, v);
      case Kernel =>
        if HasTf(proc, p) {
          var i :| 0 <= i < |proc| && proc[i].used && proc[i].tf == Some(p);
          u := TrapframeOf(i);
        } else {
          u := Other;
        }
    }
  }

  lemma OneUse(h: Heap, page: map<nat, Page>, proc: seq<Proc>, other: set<nat>, trampoline: nat, p: nat, u: Use, v: Use)
    requires Sound(h, page, proc, other, trampoline) && NodesOk(h)
    requires OwnerSays(h.own, proc, other, p, u) && OwnerSays(h.own, proc, other, p, v)
    ensures u == v
  {
    hide Wf, LeavesHeld, UserBelow, KernelPart;
    if u.TrapframeOf? {
      assert Live(h, proc[u.slot], trampoline);
    }
    if v.TrapframeOf? {
      assert Live(h, proc[v.slot], trampoline);
    }
  }

  /** Whatever the kernel has done to a process's memory, its trampoline and trapframe stay in place. */
  lemma TopPagesKept(h: Heap, page: map<nat, Page>, proc: seq<Proc>, other: set<nat>, trampoline: nat, i: nat)
    requires Sound(h, page, proc, other, trampoline) && i < |proc| && proc[i].used
    ensures proc[i].root.Some? && proc[i].tf.Some? && TopPages(h.table, proc[i].root.value, trampoline, proc[i].tf.value)
  {
    hide Wf, NodesOk, Maps, LeavesHeld, IsRoot, Accounted, Apart, TopPages;
    WfNodes(h);
    assert Live(h, proc[i], trampoline);
    TopPagesFound(h, proc[i].root.value, trampoline, proc[i].tf.value);
  }

  /** Page conservation: every page of the allocator is in exactly one place. */
  lemma PageConservation(h: Heap, page: map<nat, Page>, proc: seq<Proc>, other: set<nat>, trampoline: nat, p: nat)
    requires Sound(h, page, proc, other, trampoline) && NodesOk(h) && p in h.own
    ensures exists u :: UsedAs(h, proc, other, p, u)
    ensures forall u, v | UsedAs(h, proc, other, p, u) && UsedAs(h, proc, other, p, v) :: u == v
  {
    hide *;
    var u := SomeUse(h, page, proc, other, trampoline, p);
    UseOwner(h, page, proc, other, trampoline, p, u);
    forall u, v | UsedAs(h, proc, other, p, u) && UsedAs(h, proc, other, p, v) ensures u == v {
      UseOwner(h, page, proc, other, trampoline, p, u);
      UseOwner(h, page, proc, other, trampoline, p, v);
      OneUse(h, page, proc, other, trampoline, p, u, v);
    }
  }

  lemma NodeHasRoot(h: Heap, n: Node)
    requires Wf(h) && exists p :: p in h.own && h.own[p] == Table(n)
    ensures IsRoot(h, n.root)
  {
    NoRootNoNodes(h, n);
  }

  lemma LeafHasRoot(h: Heap, p: nat)
    requires Wf(h) && p in h.own && h.own[p].Leaf?
    ensures IsRoot(h, h.own[p].root)
  {
    NoRootNoNodes(h, PathNode(h.own[p].root, 0, h.own[p].vpn));
  }

  /** Between two states nothing changed but the mappings of one page table: no page table came or
      went, and the kernel kept its pages. */
  ghost predicate OnlyRoot(h: Heap, h': Heap, root: nat)
    requires NodesOk(h) && NodesOk(h')
  {
    && (forall r | r != root :: Maps(h', r) == Maps(h, r))
    && (forall r :: IsRoot(h', r) <==> IsRoot(h, r))
    && h'.own.Keys == h.own.Keys
    && (forall p | p in h.own :: h'.own[p].Kernel? <==> h.own[p].Kernel?)
  }

  /** A change to one page table keeps everything accounted for if its own process stays sound. */
  lemma OnlyRootKeepsSound(h: Heap, page: map<nat, Page>, h': Heap, page': map<nat, Page>, proc: seq<Proc>,
                           other: set<nat>, trampoline: nat, i: nat, sz: nat)
    requires Sound(h, page, proc, other, trampoline) && NodesOk(h) && NodesOk(h')
    requires i < |proc| && Live(h, proc[i], trampoline) && OnlyRoot(h, h', proc[i].root.value)
    requires Wf(h') && LeavesHeld(h'.own, page')
    requires sz <= MAXSZ && UserBelow(Maps(h', proc[i].root.value), sz)
    requires KernelPart(Maps(h', proc[i].root.value), trampoline, proc[i].tf.value)
    ensures Sound(h', page', proc[i := proc[i].(sz := sz)], other, trampoline)
  {
    hide Wf, LeavesHeld, NodesOk, Maps, UserBelow, KernelPart, IsRoot, Accounted, OnlyRoot, Live;
    var proc' := proc[i := proc[i].(sz := sz)];
    LiveParts(h, proc[i], trampoline);
    LiveGrown(h, h', proc[i], trampoline, sz);
    forall j | 0 <= j < NPROC ensures proc'[j] == UNUSED || Live(h', proc'[j], trampoline) {
      if j != i && proc[j] != UNUSED {
        LiveParts(h, proc[j], trampoline);
        LiveKept(h, h', proc[j], trampoline, proc[i].root.value);
      }
    }
    AccountedKept(h, h', proc, other, i, sz);
  }

  lemma LiveParts(h: Heap, q: Proc, trampoline: nat)
    requires NodesOk(h) && Live(h, q, trampoline)
    ensures q.used && q.root.Some? && q.tf.Some? && IsRoot(h, q.root.value)
    ensures q.tf.value in h.own && h.own[q.tf.value].Kernel?
  {
  }

  lemma LiveGrown(h: Heap, h': Heap, q: Proc, trampoline: nat, sz: nat)
    requires NodesOk(h) && NodesOk(h') && Live(h, q, trampoline) && OnlyRoot(h, h', q.root.value)
    requires sz <= MAXSZ && UserBelow(Maps(h', q.root.value), sz)
    requires KernelPart(Maps(h', q.root.value), trampoline, q.tf.value)
    ensures Live(h', q.(sz := sz), trampoline)
  {
    hide Maps, UserBelow, KernelPart, NodesOk, IsRoot;
  }

  lemma LiveKept(h: Heap, h': Heap, q: Proc, trampoline: nat, root: nat)
    requires NodesOk(h) && NodesOk(h') && Live(h, q, trampoline) && OnlyRoot(h, h', root) && q.root != Some(root)
    ensures Live(h', q, trampoline)
  {
    hide Maps, UserBelow, KernelPart, NodesOk, IsRoot;
  }

  lemma AccountedKept(h: Heap, h': Heap, proc: seq<Proc>, other: set<nat>, i: nat, sz: nat)
    requires NodesOk(h) && NodesOk(h') && i < |proc| && proc[i].root.Some? && OnlyRoot(h, h', proc[i].root.value)
    requires Accounted(h, proc, other)
    ensures Accounted(h', proc[i := proc[i].(sz := sz)], other)
  {
    hide Maps, NodesOk, IsRoot, HasRoot, HasTf;
    SameHolders(proc, i, sz);
  }

  lemma SameHolders(proc: seq<Proc>, i: nat, sz: nat)
    requires i < |proc|
    ensures forall p: nat :: HasTf(proc[i := proc[i].(sz := sz)], p) <==> HasTf(proc, p)
    ensures forall r: nat :: HasRoot(proc[i := proc[i].(sz := sz)], r) <==> HasRoot(proc, r)
  {
    var proc' := proc[i := proc[i].(sz := sz)];
    assert forall j | 0 <= j < |proc| ::
      proc'[j].used == proc[j].used && proc'[j].tf == proc[j].tf && proc'[j].root == proc[j].root;
  }

  lemma GrewOnlyRoot(h: Heap, h': Heap, root: nat)
    requires NodesOk(h) && NodesOk(h') && IsRoot(h, root) && Grew(h.own, h'.own, root, true)
    requires forall r | r != root :: Maps(h', r) == Maps(h, r)
    ensures OnlyRoot(h, h', root)
  {
    hide NodesOk, Maps, IsRoot;
    forall r: nat ensures IsRoot(h', r) <==> IsRoot(h, r) {
      RootOwned(h, r);
      RootOwned(h', r);
      RootOwned(h, root);
    }
  }

  lemma FreeLeavesOnlyRoot(h: Heap, h': Heap, root: nat, lo: nat, hi: nat)
    requires NodesOk(h) && NodesOk(h') && h'.own == FreeLeaves(h.own, root, lo, hi)
    requires forall r | r != root :: Maps(h', r) == Maps(h, r)
    ensures OnlyRoot(h, h', root)
  {
    hide NodesOk, Maps, IsRoot;
    forall r: nat ensures IsRoot(h', r) <==> IsRoot(h, r) {
      RootOwned(h, r);
      RootOwned(h', r);
    }
  }

  /** New leaves come with contents, and leaves in use keep theirs. */
  lemma FilledHeld(h: Heap, page: map<nat, Page>, h': Heap, page': map<nat, Page>, root: nat, want: map<nat, Want>)
    requires Wf(h) && Wf(h') && NodesOk(h) && NodesOk(h') && Filled(h, page, h', page', root, want)
    requires LeavesHeld(h.own, page) && WholePages(want)
    ensures LeavesHeld(h'.own, page')
  {
    hide Wf, NodesOk, Maps;
    NoOldLeaf(h, page, h', page', root, want);
    forall p | p in h'.own && h'.own[p].Leaf? ensures p in page' && |page'[p]| == PGSIZE {
      if h.own[p].Free? {
        LeafIsMapped(h', p);
      }
    }
  }

  lemma GrewHeld(own: map<nat, Owner>, page: map<nat, Page>, own': map<nat, Owner>, page': map<nat, Page>, root: nat)
    requires LeavesHeld(own, page) && Grew(own, own', root, false) && KeptPages(own, page, page')
    ensures LeavesHeld(own', page')
  {
  }

  /** A slot takes a trapframe and a new page table. */
  lemma AllocatedSound(h: Heap, page: map<nat, Page>, h': Heap, proc: seq<Proc>, other: set<nat>, trampoline: nat,
                       i: nat, tf: nat, root: nat)
    requires Sound(h, page, proc, other, trampoline) && NodesOk(h) && NodesOk(h') && Wf(h')
    requires i < |proc| && proc[i] == UNUSED && tf in h.own && h.own[tf].Free? && !IsRoot(h, root) && IsRoot(h', root)
    requires Grew(h.own[tf := Kernel], h'.own, root, false) && OnlyMap(h, h', root, KernelMaps(trampoline, tf))
    ensures Sound(h', page, proc[i := Proc(true, Some(tf), Some(root), 0)], other, trampoline)
  {
    hide Wf, NodesOk, Maps, Accounted, Live, UserBelow, KernelPart, IsRoot, Grew;
    var proc' := proc[i := Proc(true, Some(tf), Some(root), 0)];
    AllocatedLive(h, h', trampoline, tf, root);
    AllocatedAccounted(h, h', proc, other, i, tf, root);
    AllocatedHeld(h, h', page, tf, root);
    forall j | 0 <= j < NPROC && j != i && proc[j] != UNUSED
      ensures Live(h', proc[j], trampoline) && proc[j].root != Some(root) && proc[j].tf != Some(tf)
    {
      LiveAllocated(h, h', proc[j], trampoline, tf, root);
    }
  }

  lemma AllocatedHeld(h: Heap, h': Heap, page: map<nat, Page>, tf: nat, root: nat)
    requires LeavesHeld(h.own, page) && tf in h.own && Grew(h.own[tf := Kernel], h'.own, root, false)
    ensures LeavesHeld(h'.own, page)
  {
  }

  lemma AllocatedLive(h: Heap, h': Heap, trampoline: nat, tf: nat, root: nat)
    requires NodesOk(h) && NodesOk(h') && IsRoot(h', root) && OnlyMap(h, h', root, KernelMaps(trampoline, tf))
    requires tf in h.own && Grew(h.own[tf := Kernel], h'.own, root, false)
    ensures Live(h', Proc(true, Some(tf), Some(root), 0), trampoline)
  {
    hide NodesOk, Maps, IsRoot;
  }

  lemma LiveAllocated(h: Heap, h': Heap, q: Proc, trampoline: nat, tf: nat, root: nat)
    requires NodesOk(h) && NodesOk(h') && Live(h, q, trampoline) && !IsRoot(h, root)
    requires tf in h.own && h.own[tf].Free? && Grew(h.own[tf := Kernel], h'.own, root, false)
    requires OnlyMap(h, h', root, KernelMaps(trampoline, tf))
    ensures Live(h', q, trampoline) && q.root != Some(root) && q.tf != Some(tf)
  {
    hide NodesOk, Maps, IsRoot, UserBelow, KernelPart;
    RootOwned(h, q.root.value);
    RootOwned(h', q.root.value);
  }

  lemma AllocatedAccounted(h: Heap, h': Heap, proc: seq<Proc>, other: set<nat>, i: nat, tf: nat, root: nat)
    requires NodesOk(h) && NodesOk(h') && Accounted(h, proc, other) && i < |proc| && proc[i] == UNUSED
    requires tf in h.own && h.own[tf].Free? && Grew(h.own[tf := Kernel], h'.own, root, false)
    ensures Accounted(h', proc[i := Proc(true, Some(tf), Some(root), 0)], other)
  {
    hide NodesOk, IsRoot;
    var proc' := proc[i := Proc(true, Some(tf), Some(root), 0)];
    assert proc'[i].tf == Some(tf) && proc'[i].root == Some(root) && proc'[i].used;
    forall r: nat | IsRoot(h', r) ensures HasRoot(proc', r) {
      RootOwned(h, r);
      RootOwned(h', r);
      if r != root {
        var j :| 0 <= j < |proc| && proc[j].used && proc[j].root == Some(r);
        assert proc'[j] == proc[j];
      }
    }
    forall p | p in h'.own && h'.own[p].Kernel? ensures p in other || HasTf(proc', p) {
      if p != tf && p !in other {
        var j :| 0 <= j < |proc| && proc[j].used && proc[j].tf == Some(p);
        assert proc'[j] == proc[j];
      }
    }
  }

  /** The owners after freeproc on a slot, which may be only partly set up. */
  ghost function FreedOwn(own: map<nat, Owner>, q: Proc): map<nat, Owner> {
    var own1 := if q.tf.Some? then own[q.tf.value := Free] else own;
    if q.root.Some? then FreeAll(own1, q.root.value) else own1
  }

  /** A process goes away with all its pages. */
  lemma FreedSound(h: Heap, page: map<nat, Page>, h': Heap, proc: seq<Proc>, other: set<nat>, trampoline: nat, i: nat)
    requires Sound(h, page, proc, other, trampoline) && NodesOk(h) && NodesOk(h') && Wf(h')
    requires i < |proc| && Live(h, proc[i], trampoline) && h'.own == FreedOwn(h.own, proc[i])
    requires forall r | r != proc[i].root.value :: Maps(h', r) == Maps(h, r)
    ensures Sound(h', page, proc[i := UNUSED], other, trampoline)
  {
    hide Wf, NodesOk, Maps, Accounted, Live, UserBelow, KernelPart, IsRoot, FreedOwn;
    LiveParts(h, proc[i], trampoline);
    FreedAccounted(h, h', proc, other, i);
    FreedHeld(h, h', page, proc[i]);
    forall j | 0 <= j < NPROC && j != i && proc[j] != UNUSED ensures Live(h', proc[j], trampoline) {
      LiveParts(h, proc[j], trampoline);
      LiveFreed(h, h', proc[j], trampoline, proc[i]);
    }
  }

  lemma FreedHeld(h: Heap, h': Heap, page: map<nat, Page>, q: Proc)
    requires LeavesHeld(h.own, page) && h'.own == FreedOwn(h.own, q)
    ensures LeavesHeld(h'.own, page)
  {
  }

  lemma LiveFreed(h: Heap, h': Heap, q: Proc, trampoline: nat, gone: Proc)
    requires NodesOk(h) && NodesOk(h') && Live(h, q, trampoline) && gone.root.Some? && gone.tf.Some?
    requires q.root != gone.root && q.tf != gone.tf
    requires h'.own == FreedOwn(h.own, gone) && gone.tf.value in h.own && h.own[gone.tf.value].Kernel?
    requires forall r | r != gone.root.value :: Maps(h', r) == Maps(h, r)
    ensures Live(h', q, trampoline)
  {
    hide NodesOk, Maps, IsRoot, UserBelow, KernelPart;
    RootOwned(h, q.root.value);
    RootOwned(h', q.root.value);
  }

  lemma FreedAccounted(h: Heap, h': Heap, proc: seq<Proc>, other: set<nat>, i: nat)
    requires NodesOk(h) && NodesOk(h') && Accounted(h, proc, other)
    requires i < |proc| && proc[i].used && proc[i].root.Some? && proc[i].tf.Some? && Apart(proc)
    requires h'.own == FreedOwn(h.own, proc[i])
    ensures Accounted(h', proc[i := UNUSED], other)
  {
    hide NodesOk, IsRoot;
    var proc' := proc[i := UNUSED];
    forall r: nat | IsRoot(h', r) ensures HasRoot(proc', r) {
      RootOwned(h, r);
      RootOwned(h', r);
      var j :| 0 <= j < |proc| && proc[j].used && proc[j].root == Some(r);
      assert proc'[j] == proc[j];
    }
    forall p | p in h'.own && h'.own[p].Kernel? ensures p in other || HasTf(proc', p) {
      if p !in other {
        var j :| 0 <= j < |proc| && proc[j].used && proc[j].tf == Some(p);
        assert proc'[j] == proc[j];
      }
    }
    assert HasTf(proc, proc[i].tf.value);
  }

  const WORD64 := 0x1_0000_0000_0000_0000

  class Procs {
    const vm: Vm
    const trampoline: nat
    var proc: seq<Proc>
    ghost var other: set<nat>

    ghost predicate Good()
      reads this, vm
    {
      Sound(vm.H(), vm.page, proc, other, trampoline)
    }

    constructor (lo: nat, hi: nat, trampoline: nat)
      requires lo <= hi
      ensures Good() && proc == seq(NPROC, _ => UNUSED) && fresh(vm) && |vm.free| == hi - lo && this.trampoline == trampoline
    {
      vm := new Vm(lo, hi);
      this.trampoline := trampoline;
      proc := seq(NPROC, _ => UNUSED);
      other := {};
    }

    /** The memory part of freeproc; the slot may be only partly set up. */
    method Freeproc(i: nat)
      requires i < |proc| && Wf(vm.H()) && NodesOk(vm.H())
      requires proc[i].tf.Some? ==> proc[i].tf.value in vm.own && vm.own[proc[i].tf.value].Kernel?
      requires proc[i].root.Some? ==>
        && IsRoot(vm.H(), proc[i].root.value) && proc[i].sz <= MAXSZ && UserBelow(Maps(vm.H(), proc[i].root.value), proc[i].sz)
      modifies this`proc, vm`free, vm`table, vm`own, vm`at
      ensures proc == old(proc)[i := UNUSED]
      ensures Wf(vm.H()) && NodesOk(vm.H())
      ensures vm.own == FreedOwn(old(vm.own), old(proc[i]))
      ensures forall r: nat | old(proc[i]).root != Some(r) :: Maps(vm.H(), r) == Maps(old(vm.H()), r)
    {
      hide Wf, NodesOk, Maps, SameMaps, FreeAll;
      ghost var h := vm.H();
      if proc[i].tf.Some? {
        vm.Kfree(proc[i].tf.value);
        WfNodes(vm.H());
        if proc[i].root.Some? {
          SameMapsAt(h, vm.H(), proc[i].root.value);
        }
        SameMapsAll(h, vm.H());
      }
      ghost var h1 := vm.H();
      if proc[i].root.Some? {
        PagesOfMax(proc[i].sz);
        vm.ProcFreepagetable(proc[i].root.value, proc[i].sz);
        WfNodes(vm.H());
      }
      proc := proc[i := UNUSED];
    }

    /** The memory part of allocproc: a slot with a trapframe and an empty page table, or nothing at
        all. */
    method Allocproc() returns (i: nat, ok: bool)
      requires Good()
      modifies this`proc, vm`free, vm`table, vm`own, vm`at
      ensures Good()
      ensures !ok ==>
        && Unchanged(old(vm.H()), vm.H()) && proc == old(proc)
        && (|old(vm.free)| < 6 || forall j | 0 <= j < |proc| :: proc[j].used)
      ensures ok ==> |old(vm.free)| <= |vm.free| + 6
      ensures ok ==> i < NPROC && Allocated(old(vm.H()), vm.H(), old(proc), proc, trampoline, i)
      ensures ok ==> TopPages(vm.table, proc[i].root.value, trampoline, proc[i].tf.value)
    {
      hide Wf, NodesOk, Maps, SameMaps, Slots, Apart, Accounted, LeavesHeld, Grew, OnlyMap, TopPages;
      ghost var h := vm.H();
      WfNodes(h);
      SlotsParts(h, proc, trampoline);
      i, ok := FindUnused();
      if !ok {
        SameMapsRefl(h);
        return;
      }
      ghost var was := proc;
      proc := proc[i := UNUSED.(used := true)];
      var tf, got := vm.Kalloc();
      WfNodes(vm.H());
      if !got {
        SameMapsRefl(h);
        Abandon(i, h, was);
        return i, false;
      }
      FirstIsFree(h);
      ghost var h1 := vm.H();
      proc := proc[i := proc[i].(tf := Some(tf))];
      var root, built := vm.ProcPagetable(trampoline, tf);
      WfNodes(vm.H());
      if !built {
        SameMapsTrans(h, h1, vm.H());
        Abandon(i, h, was);
        return i, false;
      }
      proc := proc[i := proc[i].(root := Some(root))];
      SameThenOnly(h, h1, vm.H(), root, KernelMaps(trampoline, tf));
      RootOwned(h, root);
      RootOwned(h1, root);
      AllocatedSound(h, vm.page, vm.H(), was, other, trampoline, i, tf, root);
      assert proc == was[i := Proc(true, Some(tf), Some(root), 0)];
    }

    /** allocproc's way out: freeproc on a slot that has at most a trapframe. */
    method Abandon(i: nat, ghost h: Heap, ghost was: seq<Proc>)
      requires Sound(h, vm.page, was, other, trampoline) && NodesOk(h) && i < |was| && was[i] == UNUSED
      requires Wf(vm.H()) && NodesOk(vm.H()) && SameMaps(h, vm.H())
      requires i < |proc| && proc == was[i := proc[i]] && proc[i].root.None?
      requires match proc[i].tf
        case None => vm.own == h.own
        case Some(tf) => tf in h.own && h.own[tf].Free? && vm.own == h.own[tf := Kernel]
      modifies this`proc, vm`free, vm`table, vm`own, vm`at
      ensures Good() && proc == was && Unchanged(h, vm.H())
    {
      hide Wf, NodesOk, Maps, SameMaps, Sound, Accounted;
      ghost var h2 := vm.H();
      Freeproc(i);
      SameMapsAll(h, h2);
      SameMapsIf(h, vm.H());
      SameSound(h, vm.H(), vm.page, was, other, trampoline);
      assert proc == was;
    }

    /** The memory part of kfork: the child gets a copy of the parent's memory, or every page taken
        is given back. */
    method Kfork(i: nat) returns (c: nat, ok: bool)
      requires Good() && i < NPROC && proc[i].used
      modifies this`proc, vm
      ensures Good() && KeptPages(old(vm.own), old(vm.page), vm.page)
      ensures !ok ==>
        && Unchanged(old(vm.H()), vm.H()) && proc == old(proc)
        && (|old(vm.free)| < 6 + 3 * PagesOf(proc[i].sz) || forall j | 0 <= j < |proc| :: proc[j].used)
      ensures ok ==>
        && c < NPROC && old(proc)[c] == UNUSED && proc == old(proc)[c := proc[c]] && proc[c].sz == proc[i].sz
        && proc[i].root.Some? && proc[c].root.Some?
        && Maps(vm.H(), proc[i].root.value) == Maps(old(vm.H()), proc[i].root.value)
        && SameMemory(vm.H(), vm.page, proc[i].root.value, proc[c].root.value)
        && proc[c].tf.Some? && TopPages(vm.table, proc[c].root.value, trampoline, proc[c].tf.value)
    {
      hide Wf, NodesOk, Maps, SameMaps, Slots, Apart, Accounted, LeavesHeld, Grew, OnlyMap, Live, Filled, Copies, KeptPages, IsRoot,
           TopPages;
      ghost var h, pg, was := vm.H(), vm.page, proc;
      WfNodes(h);
      SlotsParts(h, proc, trampoline);
      KeptAll(h.own, pg);
      c, ok := Allocproc();
      if !ok {
        return;
      }
      ghost var h1, proc1 := vm.H(), proc;
      ForkReady(h, h1, vm.page, was, proc, other, trampoline, i, c);
      var root, child, sz := proc[i].root.value, proc[c].root.value, proc[i].sz;
      ok := vm.Uvmcopy(root, child, sz);
      WfNodes(vm.H());
      if !ok {
        ghost var h2 := vm.H();
        ForkFailed(h, h1, h2, pg, vm.page, was, proc1, trampoline, c);
        Freeproc(c);
        ForkUndone(h, h1, h2, vm.H(), was, proc1, trampoline, c);
        SameSound(h, vm.H(), pg, was, other, trampoline);
        KeptPagesSound(h, pg, vm.H(), vm.page, was, other, trampoline);
        assert proc == was;
        return;
      }
      ForkDone(h, pg, h1, vm.H(), vm.page, was, proc1, other, trampoline, i, c);
      proc := proc[c := proc[c].(sz := sz)];
      TopPagesKept(vm.H(), vm.page, proc, other, trampoline, c);
    }

    /** growproc: n is a C int, and the new size is computed in 64 bits, so shrinking below zero
        wraps around and leaves the process as it is. */
    method Growproc(i: nat, n: int) returns (r: int)
      requires Good() && i < NPROC && proc[i].used && -0x8000_0000 <= n < 0x8000_0000
      modifies this`proc, vm
      ensures Good() && old(proc[i]).root.Some?
      ensures r == 0 || r == -1
      ensures Grown(old(vm.H()), old(vm.page), vm.H(), vm.page, old(proc[i]), n, r == 0)
      ensures r == -1 ==> old(proc[i].sz) + n > MAXSZ || |old(vm.free)| < Needed(old(proc[i].sz), n)
      ensures proc == old(proc)[i := old(proc[i]).(sz := if r == 0 then NewSize(old(proc[i].sz), n) else old(proc[i].sz))]
    {
      hide Wf, NodesOk, Maps, SameMaps, Slots, Apart, Accounted, LeavesHeld, Grew, OnlyMap, Live, Filled, KeptPages, IsRoot,
           Without, FreeLeaves, PagesOf, UserBelow, KernelPart, ZeroPages;
      ghost var h, pg := vm.H(), vm.page;
      WfNodes(h);
      SlotsParts(h, proc, trampoline);
      LiveParts(h, proc[i], trampoline);
      LiveSized(h, proc[i], trampoline);
      KeptAll(h.own, pg);
      SameMapsRefl(h);
      assert proc == proc[i := proc[i].(sz := proc[i].sz)];
      var root, sz := proc[i].root.value, proc[i].sz;
      if n > 0 {
        if sz + n > MAXSZ {
          return -1;
        }
        PagesOfMax(sz + n);
        RoomAbove(h, root, sz, sz + n);
        var got := vm.Uvmalloc(root, sz, sz + n, true, false);
        WfNodes(vm.H());
        if got == 0 {
          RetriedSound(h, pg, vm.H(), vm.page, proc, other, trampoline, i);
          return -1;
        }
        GrownSound(h, pg, vm.H(), vm.page, proc, other, trampoline, i, sz + n);
        sz := got;
      } else if n < 0 {
        var newsz := (sz + n) % WORD64;
        sz := vm.Uvmdealloc(root, sz, newsz);
        WfNodes(vm.H());
        ShrunkSound(h, pg, vm.H(), proc, other, trampoline, i, newsz, n);
      } else {
        UnmapNone(h, root, PagesOf(sz), PagesOf(sz));
      }
      proc := proc[i := proc[i].(sz := sz)];
      return 0;
    }

    /** sys_sbrk: eager growth and shrinking through growproc; lazy growth only moves the size. */
    method Sbrk(i: nat, n: int, eager: bool) returns (r: int)
      requires Good() && i < NPROC && proc[i].used && -0x8000_0000 <= n < 0x8000_0000
      modifies this`proc, vm
      ensures Good() && old(proc[i]).root.Some?
      ensures r == -1 || r == old(proc[i].sz)
      ensures r == -1 ==> old(proc[i].sz) + n > MAXSZ || |old(vm.free)| < Needed(old(proc[i].sz), n)
      ensures eager || n < 0 ==> Grown(old(vm.H()), old(vm.page), vm.H(), vm.page, old(proc[i]), n, r != -1)
      ensures !eager && n >= 0 ==>
        vm.H() == old(vm.H()) && vm.page == old(vm.page) && (r == -1 <==> old(proc[i].sz) + n > MAXSZ)
      ensures proc == old(proc)[i := old(proc[i]).(sz := if r == -1 then old(proc[i].sz) else NewSize(old(proc[i].sz), n))]
    {
      hide Wf, NodesOk, Maps, Slots, Apart, Accounted, LeavesHeld, Live, Grown, IsRoot, Needed;
      ghost var h := vm.H();
      WfNodes(h);
      SlotsParts(h, proc, trampoline);
      LiveParts(h, proc[i], trampoline);
      LiveSized(h, proc[i], trampoline);
      var addr := proc[i].sz;
      if eager || n < 0 {
        var e := Growproc(i, n);
        if e < 0 {
          return -1;
        }
      } else {
        assert proc == proc[i := proc[i].(sz := addr)];
        if (addr + n) % WORD64 < addr {
          return -1;
        }
        if addr + n > MAXSZ {
          return -1;
        }
        LazySound(h, vm.page, proc, other, trampoline, i, addr + n);
        proc := proc[i := proc[i].(sz := addr + n)];
      }
      return addr;
    }

    /** vmfault for the process's own page table: a page below the size that is not mapped yet gets a
        zeroed page. */
    method Vmfault(i: nat, va: nat) returns (pa: nat, ok: bool)
      requires Good() && i < NPROC && proc[i].used && va < WORD64
      modifies vm
      ensures Good() && proc[i].root.Some?
      ensures va >= proc[i].sz || va / PGSIZE in Maps(old(vm.H()), proc[i].root.value) ==>
        !ok && vm.H() == old(vm.H()) && vm.page == old(vm.page)
      ensures ok ==>
        && Filled(old(vm.H()), old(vm.page), vm.H(), vm.page, proc[i].root.value, FaultPage(va))
        && va / PGSIZE in Maps(vm.H(), proc[i].root.value) && Maps(vm.H(), proc[i].root.value)[va / PGSIZE].ppn == pa
        && |old(vm.free)| <= |vm.free| + 3
      ensures !ok ==>
        && SameMaps(old(vm.H()), vm.H()) && KeptPages(old(vm.own), old(vm.page), vm.page)
        && Grew(old(vm.own), vm.own, proc[i].root.value, false)
        && (va >= proc[i].sz || va / PGSIZE in Maps(old(vm.H()), proc[i].root.value) || |old(vm.free)| <= 2)
    {
      hide Wf, NodesOk, Maps, SameMaps, Slots, Apart, Accounted, LeavesHeld, Grew, OnlyMap, Live, Filled, KeptPages, IsRoot;
      ghost var h, pg := vm.H(), vm.page;
      WfNodes(h);
      SlotsParts(h, proc, trampoline);
      LiveParts(h, proc[i], trampoline);
      LiveSized(h, proc[i], trampoline);
      KeptAll(h.own, pg);
      SameMapsRefl(h);
      var root := proc[i].root.value;
      GrewRefl(h.own, root, false);
      MapsBelow(h, root);
      if va >= proc[i].sz {
        return 0, false;
      }
      var e := vm.FindPte(root, va / PGSIZE);
      if e.v {
        return 0, false;
      }
      pa, ok := vm.MapFresh(root, va / PGSIZE, FaultPte(), ZeroPage());
      WfNodes(vm.H());
      if !ok {
        RetriedSound(h, pg, vm.H(), vm.page, proc, other, trampoline, i);
        return 0, false;
      }
      FilledNothing(h, pg, root, map[]);
      FilledNext(h, pg, h, pg, vm.H(), vm.page, root, map[], va / PGSIZE, Want(FaultPte(), ZeroPage()), pa);
      assert map[][va / PGSIZE := Want(FaultPte(), ZeroPage())] == FaultPage(va);
      OnlyMapAt(h, vm.H(), root, Maps(h, root)[va / PGSIZE := FaultPte().(ppn := pa)]);
      FilledSound(h, pg, vm.H(), vm.page, proc, other, trampoline, i, FaultPage(va), proc[i].sz);
      assert proc == proc[i := proc[i].(sz := proc[i].sz)];
    }

    /** kwait's use of freeproc: a dead child's memory is given back whole. */
    method Reap(i: nat)
      requires Good() && i < NPROC && proc[i].used
      modifies this`proc, vm`free, vm`table, vm`own, vm`at
      ensures Good() && proc == old(proc)[i := UNUSED]
      ensures vm.own == FreedOwn(old(vm.own), old(proc[i]))
    {
      hide Wf, NodesOk, Maps, Slots, Apart, Accounted, LeavesHeld, Live, IsRoot, FreedOwn;
      ghost var h, was := vm.H(), proc;
      WfNodes(h);
      SlotsParts(h, proc, trampoline);
      LiveParts(h, proc[i], trampoline);
      LiveSized(h, proc[i], trampoline);
      Freeproc(i);
      FreedSound(h, vm.page, vm.H(), was, other, trampoline, i);
    }

    /** A page for another part of the kernel, such as pipealloc. */
    method TakePage() returns (p: nat, ok: bool)
      requires Good()
      modifies this`other, vm`free, vm`own
      ensures Good()
      ensures ok <==> old(vm.free) != []
      ensures ok ==> p == old(vm.free)[0] && p !in old(other) && other == old(other) + {p} && vm.own == old(vm.own)[p := Kernel]
      ensures !ok ==> other == old(other) && vm.H() == old(vm.H())
    {
      hide Wf, NodesOk, Maps, SameMaps, Slots, Apart, Accounted, LeavesHeld, Live;
      ghost var h := vm.H();
      WfNodes(h);
      p, ok := vm.Kalloc();
      if ok {
        WfNodes(vm.H());
        FirstIsFree(h);
        OtherTaken(h, vm.H(), vm.page, proc, other, trampoline, p);
        other := other + {p};
      }
    }

    /** Such a page goes back, as in pipeclose. */
    method GivePage(p: nat)
      requires Good() && p in other
      modifies this`other, vm`free, vm`own
      ensures Good() && other == old(other) - {p} && p in vm.own && vm.own == old(vm.own)[p := Free]
    {
      hide Wf, NodesOk, Maps, SameMaps, Slots, Apart, LeavesHeld, Live;
      ghost var h := vm.H();
      WfNodes(h);
      vm.Kfree(p);
      WfNodes(vm.H());
      OtherGiven(h, vm.H(), vm.page, proc, other, trampoline, p);
      other := other - {p};
    }

    method FindUnused() returns (i: nat, ok: bool)
      requires |proc| == NPROC
      ensures ok ==> i < NPROC && !proc[i].used && forall j | 0 <= j < i :: proc[j].used
      ensures !ok ==> forall j | 0 <= j < NPROC :: proc[j].used
    {
      i := 0;
      while i < NPROC
        invariant 0 <= i <= NPROC
        invariant forall j | 0 <= j < i :: proc[j].used
      {
        if !proc[i].used {
          return i, true;
        }
        i := i + 1;
      }
      return 0, false;
    }
  }

  /** The owners of all pages and the mappings of all page tables are as they were. */
  ghost predicate Unchanged(h: Heap, h': Heap) {
    h'.own == h.own && NodesOk(h) && NodesOk(h') && SameMaps(h, h')
  }

  ghost predicate Allocated(h: Heap, h': Heap, proc: seq<Proc>, proc': seq<Proc>, trampoline: nat, i: nat) {
    && NodesOk(h) && NodesOk(h') && i < |proc| && |proc'| == |proc| && proc[i] == UNUSED
    && var q := proc'[i];
       && proc' == proc[i := q] && q == Proc(true, q.tf, q.root, 0) && q.tf.Some? && q.root.Some?
       && q.tf.value in h.own && h.own[q.tf.value].Free?
       && !IsRoot(h, q.root.value) && IsRoot(h', q.root.value)
       && Grew(h.own[q.tf.value := Kernel], h'.own, q.root.value, false)
       && OnlyMap(h, h', q.root.value, KernelMaps(trampoline, q.tf.value))
  }

  /** Two page tables with the same user memory: the same pages mapped with the same flags to
      different physical pages with the same contents. */
  ghost predicate SameMemory(h: Heap, page: map<nat, Page>, r: nat, r': nat)
    requires NodesOk(h)
  {
    && (forall v | 0 <= v < TRAPFRAME :: v in Maps(h, r) <==> v in Maps(h, r'))
    && (forall v | 0 <= v < TRAPFRAME && v in Maps(h, r) ::
          var e, e' := Maps(h, r)[v], Maps(h, r')[v];
          && e' == e.(ppn := e'.ppn) && e'.ppn != e.ppn
          && e.ppn in page && e'.ppn in page && page[e'.ppn] == page[e.ppn])
  }

  /** As many pages as growing by n can take: for every new page, the page and two page-table pages. */
  function Needed(sz: nat, n: int): int {
    if n <= 0 then 0 else 3 * (PagesOf(sz + n) - PagesOf(sz))
  }

  /** The size after growing or shrinking by n. */
  function NewSize(sz: nat, n: int): nat {
    if sz + n < 0 then sz else sz + n
  }

  /** Shrinking gives the size asked for exactly if the process is that large; a process of 100 bytes that
      shrinks by 101 keeps all of them. */
  lemma ShrinksAsAsked(sz: nat, n: int)
    requires n < 0
    ensures NewSize(sz, n) == sz + n <==> -n <= sz
    ensures NewSize(100, -101) == 100
  {
  }

  /** The memory after a process grew or shrank by n bytes, or failed to. */
  ghost predicate Grown(h: Heap, page: map<nat, Page>, h': Heap, page': map<nat, Page>, q: Proc, n: int, ok: bool)
  {
    && NodesOk(h) && NodesOk(h') && q.root.Some?
    && (n > 0 && ok ==>
          && q.sz + n <= MAXSZ
          && Filled(h, page, h', page', q.root.value, ZeroPages(PagesOf(q.sz), PagesOf(q.sz + n), true, false)))
    && (n > 0 && !ok ==> SameMaps(h, h') && KeptPages(h.own, page, page'))
    && (n <= 0 ==>
          && ok && page' == page
          && OnlyMap(h, h', q.root.value, Without(Maps(h, q.root.value), PagesOf(NewSize(q.sz, n)), PagesOf(q.sz))))
  }

  function FaultPte(): Pte {
    Pte(0, true, true, true, false, true)
  }

  ghost function FaultPage(va: nat): map<nat, Want> {
    map[va / PGSIZE := Want(FaultPte(), ZeroPage())]
  }

  /** The hardware finds a page of zeroes there that user mode may read and write but not execute. */
  ghost predicate ZeroedAt(table: map<nat, seq<Pte>>, page: map<nat, Page>, root: nat, v: nat) {
    var e := Translate(table, root, v);
    && e.v && e.r && e.w && e.u && !e.x
    && e.ppn in page && |page[e.ppn]| == 4096 && forall k | 0 <= k < 4096 :: page[e.ppn][k] == 0
  }

  lemma FilledZeroed(h: Heap, page: map<nat, Page>, h': Heap, page': map<nat, Page>, root: nat, want: map<nat, Want>, v: nat)
    requires NodesOk(h) && Wf(h') && NodesOk(h') && IsRoot(h', root) && Filled(h, page, h', page', root, want)
    requires v in want && want[v] == Want(Pte(0, true, true, true, false, true), ZeroPage()) && v < PAGES
    ensures ZeroedAt(h'.table, page', root, v)
  {
    hide Wf, NodesOk, Maps, IsRoot, Grew, OnlyMap, Translate;
    WalkRefinesMap(h', root, v);
  }

  /** After growing, every new page that starts inside the new size is there, zeroed. */
  lemma GrownZeroed(h: Heap, page: map<nat, Page>, h': Heap, page': map<nat, Page>, q: Proc, n: int, v: nat)
    requires Grown(h, page, h', page', q, n, true) && Wf(h') && q.root.Some? && IsRoot(h', q.root.value)
    requires q.sz <= v * 4096 < q.sz + n
    ensures ZeroedAt(h'.table, page', q.root.value, v)
  {
    hide Wf, NodesOk, Maps, IsRoot, Filled, OnlyMap, ZeroedAt, SameMaps, KeptPages, Without, Translate;
    FilledZeroed(h, page, h', page', q.root.value, ZeroPages(PagesOf(q.sz), PagesOf(q.sz + n), true, false), v);
  }

  /** A page brought in by a fault is zeroed too. */
  lemma FaultedZeroed(h: Heap, page: map<nat, Page>, h': Heap, page': map<nat, Page>, root: nat, va: nat)
    requires NodesOk(h) && Wf(h') && NodesOk(h') && IsRoot(h', root) && va / 4096 < PAGES
    requires Filled(h, page, h', page', root, FaultPage(va))
    ensures ZeroedAt(h'.table, page', root, va / 4096)
  {
    hide Wf, NodesOk, Maps, IsRoot, Filled, ZeroedAt, Translate;
    FilledZeroed(h, page, h', page', root, FaultPage(va), va / 4096);
  }

  /** User mode reaches nothing that starts at or beyond a process's size. */
  lemma NothingAbove(h: Heap, page: map<nat, Page>, proc: seq<Proc>, other: set<nat>, trampoline: nat, i: nat, v: nat)
    requires Sound(h, page, proc, other, trampoline) && i < |proc| && proc[i].used && v < PAGES && proc[i].sz <= v * 4096
    ensures proc[i].root.Some? && (Translate(h.table, proc[i].root.value, v).v ==> !Translate(h.table, proc[i].root.value, v).u)
  {
    hide Wf, NodesOk, Maps, LeavesHeld, IsRoot, Accounted, Apart, TopPages, Translate;
    WfNodes(h);
    assert Live(h, proc[i], trampoline);
    WalkRefinesMap(h, proc[i].root.value, v);
    if v >= TRAPFRAME {
      TopPagesKept(h, page, proc, other, trampoline, i);
      TopNotUser(h.table, proc[i].root.value, trampoline, proc[i].tf.value, v);
    }
  }

  lemma TopNotUser(table: map<nat, seq<Pte>>, root: nat, trampoline: nat, tf: nat, v: nat)
    requires TopPages(table, root, trampoline, tf) && TRAPFRAME <= v < PAGES
    ensures !Translate(table, root, v).u
  {
    hide Translate;
    assert v == TRAPFRAME || v == TRAMPOLINE;
  }

  lemma RoomAbove(h: Heap, root: nat, sz: nat, newsz: nat)
    requires NodesOk(h) && UserBelow(Maps(h, root), sz) && PagesOf(newsz) <= TRAPFRAME
    ensures forall v | v in Maps(h, root) :: !(PagesOf(sz) <= v < PagesOf(newsz))
  {
    hide Maps;
  }

  /** New pages below the new size keep everything accounted for. */
  lemma FilledSound(h: Heap, page: map<nat, Page>, h': Heap, page': map<nat, Page>, proc: seq<Proc>, other: set<nat>,
                    trampoline: nat, i: nat, want: map<nat, Want>, newsz: nat)
    requires Sound(h, page, proc, other, trampoline) && NodesOk(h) && NodesOk(h') && Wf(h')
    requires i < |proc| && Live(h, proc[i], trampoline)
    requires Filled(h, page, h', page', proc[i].root.value, want)
    requires proc[i].sz <= newsz <= MAXSZ && (forall v | v in want :: v < PagesOf(newsz)) && WholePages(want)
    ensures Sound(h', page', proc[i := proc[i].(sz := newsz)], other, trampoline)
  {
    hide Wf, NodesOk, Maps, LeavesHeld, Accounted, IsRoot, Filled, Live, UserBelow, KernelPart;
    LiveParts(h, proc[i], trampoline);
    LiveSized(h, proc[i], trampoline);
    var root := proc[i].root.value;
    FilledParts(h, page, h', page', root, want);
    FilledHeld(h, page, h', page', root, want);
    GrewOnlyRoot(h, h', root);
    FilledBelow(h, page, h', page', root, want, proc[i].sz, newsz, trampoline, proc[i].tf.value);
    OnlyRootKeepsSound(h, page, h', page', proc, other, trampoline, i, newsz);
  }

  lemma FilledBelow(h: Heap, page: map<nat, Page>, h': Heap, page': map<nat, Page>, root: nat, want: map<nat, Want>,
                    sz: nat, newsz: nat, trampoline: nat, tf: nat)
    requires NodesOk(h) && NodesOk(h') && Filled(h, page, h', page', root, want)
    requires sz <= newsz && (forall v | v in want :: v < PagesOf(newsz))
    requires UserBelow(Maps(h, root), sz) && KernelPart(Maps(h, root), trampoline, tf)
    ensures UserBelow(Maps(h', root), newsz) && KernelPart(Maps(h', root), trampoline, tf)
  {
    hide Maps, NodesOk, Grew;
    PagesOfMonotone(sz, newsz);
  }

  lemma GrownSound(h: Heap, page: map<nat, Page>, h': Heap, page': map<nat, Page>, proc: seq<Proc>, other: set<nat>,
                   trampoline: nat, i: nat, newsz: nat)
    requires Sound(h, page, proc, other, trampoline) && NodesOk(h) && NodesOk(h') && Wf(h')
    requires i < |proc| && Live(h, proc[i], trampoline) && proc[i].sz <= newsz <= MAXSZ
    requires Filled(h, page, h', page', proc[i].root.value, ZeroPages(PagesOf(proc[i].sz), PagesOf(newsz), true, false))
    ensures Sound(h', page', proc[i := proc[i].(sz := newsz)], other, trampoline)
  {
    hide Wf, NodesOk, Maps, LeavesHeld, Accounted, IsRoot, Filled, Slots, Apart;
    PagesOfMonotone(proc[i].sz, newsz);
    FilledSound(h, page, h', page', proc, other, trampoline, i,
                ZeroPages(PagesOf(proc[i].sz), PagesOf(newsz), true, false), newsz);
  }

  /** An operation that failed and left only page-table pages behind. */
  lemma RetriedSound(h: Heap, page: map<nat, Page>, h': Heap, page': map<nat, Page>, proc: seq<Proc>, other: set<nat>,
                     trampoline: nat, i: nat)
    requires Sound(h, page, proc, other, trampoline) && NodesOk(h) && NodesOk(h') && Wf(h')
    requires i < |proc| && Live(h, proc[i], trampoline)
    requires SameMaps(h, h') && Grew(h.own, h'.own, proc[i].root.value, false) && KeptPages(h.own, page, page')
    ensures Sound(h', page', proc, other, trampoline)
  {
    hide Wf, NodesOk, Maps, LeavesHeld, Accounted, IsRoot, Filled, SameMaps, Grew, KeptPages, UserBelow, KernelPart;
    var root := proc[i].root.value;
    LiveSized(h, proc[i], trampoline);
    SameMapsAll(h, h');
    GrewHeld(h.own, page, h'.own, page', root);
    GrewWider(h.own, h'.own, root);
    GrewOnlyRoot(h, h', root);
    assert proc[i := proc[i].(sz := proc[i].sz)] == proc;
    OnlyRootKeepsSound(h, page, h', page', proc, other, trampoline, i, proc[i].sz);
  }

  lemma LazySound(h: Heap, page: map<nat, Page>, proc: seq<Proc>, other: set<nat>, trampoline: nat, i: nat, newsz: nat)
    requires Sound(h, page, proc, other, trampoline) && NodesOk(h)
    requires i < |proc| && Live(h, proc[i], trampoline) && proc[i].sz <= newsz <= MAXSZ
    ensures Sound(h, page, proc[i := proc[i].(sz := newsz)], other, trampoline)
  {
    hide Wf, NodesOk, Maps, LeavesHeld, Accounted, IsRoot, Slots, Apart;
    PagesOfMonotone(proc[i].sz, newsz);
    OnlyRootKeepsSound(h, page, h, page, proc, other, trampoline, i, newsz);
  }

  lemma ShrunkSound(h: Heap, page: map<nat, Page>, h': Heap, proc: seq<Proc>, other: set<nat>, trampoline: nat, i: nat,
                    newsz: nat, n: int)
    requires Sound(h, page, proc, other, trampoline) && NodesOk(h) && NodesOk(h') && Wf(h')
    requires i < |proc| && Live(h, proc[i], trampoline) && -0x8000_0000 <= n < 0 && newsz == (proc[i].sz + n) % WORD64
    requires var root, sz := proc[i].root.value, proc[i].sz;
      && OnlyMap(h, h', root, Without(Maps(h, root), PagesOf(newsz), PagesOf(sz)))
      && h'.own == FreeLeaves(h.own, root, PagesOf(newsz), PagesOf(sz))
    ensures NewSize(proc[i].sz, n) == if newsz < proc[i].sz then newsz else proc[i].sz
    ensures var root, sz := proc[i].root.value, proc[i].sz;
      OnlyMap(h, h', root, Without(Maps(h, root), PagesOf(NewSize(sz, n)), PagesOf(sz)))
    ensures Sound(h', page, proc[i := proc[i].(sz := NewSize(proc[i].sz, n))], other, trampoline)
  {
    hide Wf, NodesOk, Maps, Accounted, IsRoot, Slots, Apart, Live, KernelPart;
    LiveParts(h, proc[i], trampoline);
    LiveSized(h, proc[i], trampoline);
    var root, sz := proc[i].root.value, proc[i].sz;
    assert NewSize(sz, n) == if newsz < sz then newsz else sz;
    PagesOfMonotone(sz, newsz);
    if newsz >= sz {
      assert Without(Maps(h, root), PagesOf(newsz), PagesOf(sz)) == Without(Maps(h, root), PagesOf(sz), PagesOf(sz));
    }
    FreeLeavesOnlyRoot(h, h', root, PagesOf(newsz), PagesOf(sz));
    WithoutBelow(Maps(h, root), sz, NewSize(sz, n), trampoline, proc[i].tf.value);
    OnlyRootKeepsSound(h, page, h', page, proc, other, trampoline, i, NewSize(sz, n));
  }

  lemma WithoutBelow(m: map<nat, Pte>, sz: nat, newsz: nat, trampoline: nat, tf: nat)
    requires UserBelow(m, sz) && KernelPart(m, trampoline, tf) && PagesOf(sz) <= TRAPFRAME
    ensures UserBelow(Without(m, PagesOf(newsz), PagesOf(sz)), newsz)
    ensures KernelPart(Without(m, PagesOf(newsz), PagesOf(sz)), trampoline, tf)
  {
  }

  lemma KeptAll(own: map<nat, Owner>, page: map<nat, Page>)
    ensures KeptPages(own, page, page)
  {
  }

  lemma KeptPagesSound(h: Heap, page: map<nat, Page>, h': Heap, page': map<nat, Page>, proc: seq<Proc>, other: set<nat>,
                       trampoline: nat)
    requires Sound(h', page, proc, other, trampoline) && h'.own == h.own && KeptPages(h.own, page, page')
    ensures Sound(h', page', proc, other, trampoline)
  {
    hide Wf, Slots, Apart, Accounted;
  }

  lemma LiveSized(h: Heap, q: Proc, trampoline: nat)
    requires NodesOk(h) && Live(h, q, trampoline)
    ensures q.sz <= MAXSZ && PagesOf(q.sz) <= TRAPFRAME && UserBelow(Maps(h, q.root.value), q.sz)
    ensures KernelPart(Maps(h, q.root.value), trampoline, q.tf.value)
  {
    hide Maps, NodesOk;
    PagesOfMax(q.sz);
  }

  /** What uvmcopy demands, after a successful allocproc. */
  lemma ForkReady(h: Heap, h1: Heap, page: map<nat, Page>, was: seq<Proc>, proc: seq<Proc>, other: set<nat>, trampoline: nat,
                  i: nat, c: nat)
    requires Sound(h1, page, proc, other, trampoline) && Allocated(h, h1, was, proc, trampoline, c)
    requires i < |was| && was[i].used
    ensures NodesOk(h1) && i < |proc| && i != c && proc[i] == was[i] && Live(h1, proc[i], trampoline)
    ensures proc[i].root.Some? && proc[c].root.Some? && proc[i].root != proc[c].root
    ensures IsRoot(h1, proc[i].root.value) && IsRoot(h1, proc[c].root.value)
    ensures PagesOf(proc[i].sz) <= TRAPFRAME
    ensures forall v | v in Maps(h1, proc[c].root.value) :: PagesOf(proc[i].sz) <= v
  {
    hide Wf, NodesOk, Maps, LeavesHeld, Grew, IsRoot, Accounted, UserBelow, KernelPart;
    assert Live(h1, proc[i], trampoline);
    LiveSized(h1, proc[i], trampoline);
  }

  lemma ForkFailed(h: Heap, h1: Heap, h2: Heap, page: map<nat, Page>, page2: map<nat, Page>, was: seq<Proc>, proc: seq<Proc>, trampoline: nat, c: nat)
    requires Allocated(h, h1, was, proc, trampoline, c) && NodesOk(h2)
    requires SameMaps(h1, h2) && Grew(h1.own, h2.own, proc[c].root.value, false) && Extends(h1.at, h2.at)
    requires KeptPages(h1.own, page, page2)
    ensures KeptPages(h.own, page, page2)
    ensures proc[c].tf.value in h2.own && h2.own[proc[c].tf.value].Kernel?
    ensures IsRoot(h2, proc[c].root.value) && UserBelow(Maps(h2, proc[c].root.value), 0)
  {
    hide NodesOk, Maps;
  }

  /** Freeing the child gives back exactly what the fork took. */
  lemma ForkUndone(h: Heap, h1: Heap, h2: Heap, h3: Heap, was: seq<Proc>, proc: seq<Proc>, trampoline: nat, c: nat)
    requires Wf(h) && Wf(h3) && Allocated(h, h1, was, proc, trampoline, c) && NodesOk(h2) && NodesOk(h3)
    requires SameMaps(h1, h2) && Grew(h1.own, h2.own, proc[c].root.value, false)
    requires h3.own == FreedOwn(h2.own, proc[c])
    requires forall r: nat | proc[c].root != Some(r) :: Maps(h3, r) == Maps(h2, r)
    ensures Unchanged(h, h3)
  {
    hide Wf, NodesOk, Maps, IsRoot;
    var root, tf := proc[c].root.value, proc[c].tf.value;
    NotRootNoPages(h, root);
    GrewTrans(h.own[tf := Kernel], h1.own, h2.own, root, false);
    FreshFreed(h.own, h2.own, tf, root);
    RootOwned(h, root);
    RootOwned(h3, root);
    NotRootNoPages(h3, root);
  }

  lemma FreshFreed(own: map<nat, Owner>, own2: map<nat, Owner>, tf: nat, root: nat)
    requires tf in own && own[tf].Free? && Grew(own[tf := Kernel], own2, root, false)
    requires forall p | p in own :: !OwnedBy(own[p], root, true)
    ensures FreeAll(own2[tf := Free], root) == own
  {
  }

  lemma ForkDone(h: Heap, page: map<nat, Page>, h1: Heap, h2: Heap, page2: map<nat, Page>, was: seq<Proc>, proc: seq<Proc>,
                 other: set<nat>, trampoline: nat, i: nat, c: nat)
    requires Allocated(h, h1, was, proc, trampoline, c) && Sound(h1, page, proc, other, trampoline)
    requires NodesOk(h2) && Wf(h2)
    requires i < |was| && i != c && was[i].used && Live(h1, proc[i], trampoline)
    requires forall v | v in Maps(h1, proc[i].root.value) && v < TRAPFRAME :: Maps(h1, proc[i].root.value)[v].ppn in page
    requires proc[i].root != proc[c].root && PagesOf(proc[i].sz) <= TRAPFRAME
    requires Filled(h1, page, h2, page2, proc[c].root.value, Copies(Maps(h1, proc[i].root.value), page, PagesOf(proc[i].sz)))
    ensures Sound(h2, page2, proc[c := proc[c].(sz := proc[i].sz)], other, trampoline)
    ensures SameMemory(h2, page2, proc[i].root.value, proc[c].root.value)
    ensures Maps(h2, proc[i].root.value) == Maps(h, proc[i].root.value)
    ensures KeptPages(h.own, page, page2)
  {
    hide Wf, NodesOk, Maps, LeavesHeld, Accounted, IsRoot, SameMemory, Filled, Copies;
    var root, child, sz := proc[i].root.value, proc[c].root.value, proc[i].sz;
    ForkCopied(h1, page, h2, page2, proc[i], trampoline, proc[c].tf.value, child);
    FilledParts(h1, page, h2, page2, child, Copies(Maps(h1, root), page, PagesOf(sz)));
    CopiesWhole(h1, page, root, PagesOf(sz));
    FilledHeld(h1, page, h2, page2, child, Copies(Maps(h1, root), page, PagesOf(sz)));
    GrewOnlyRoot(h1, h2, child);
    OnlyMapAt(h, h1, child, KernelMaps(trampoline, proc[c].tf.value));
    OnlyRootKeepsSound(h1, page, h2, page2, proc, other, trampoline, c, sz);
  }

  lemma CopiesWhole(h: Heap, page: map<nat, Page>, root: nat, hi: nat)
    requires Wf(h) && NodesOk(h) && LeavesHeld(h.own, page) && hi <= TRAPFRAME
    requires forall v | v in Maps(h, root) && v < TRAPFRAME :: Maps(h, root)[v].ppn in page
    ensures WholePages(Copies(Maps(h, root), page, hi))
  {
    hide Wf, NodesOk, Maps;
    MappedHeld(h, page, root);
  }

  lemma FilledParts(h: Heap, page: map<nat, Page>, h': Heap, page': map<nat, Page>, root: nat, want: map<nat, Want>)
    requires NodesOk(h) && NodesOk(h') && Filled(h, page, h', page', root, want)
    ensures Grew(h.own, h'.own, root, true) && KeptPages(h.own, page, page')
    ensures forall r | r != root :: Maps(h', r) == Maps(h, r)
  {
  }

  lemma ForkCopied(h1: Heap, page: map<nat, Page>, h2: Heap, page2: map<nat, Page>, q: Proc, trampoline: nat, tf: nat, child: nat)
    requires Wf(h1) && NodesOk(h1) && NodesOk(h2) && Live(h1, q, trampoline) && LeavesHeld(h1.own, page)
    requires Maps(h1, child) == KernelMaps(trampoline, tf) && q.root != Some(child) && PagesOf(q.sz) <= TRAPFRAME
    requires forall v | v in Maps(h1, q.root.value) && v < TRAPFRAME :: Maps(h1, q.root.value)[v].ppn in page
    requires Filled(h1, page, h2, page2, child, Copies(Maps(h1, q.root.value), page, PagesOf(q.sz)))
    ensures SameMemory(h2, page2, q.root.value, child)
    ensures UserBelow(Maps(h2, child), q.sz) && KernelPart(Maps(h2, child), trampoline, tf)
  {
    hide Wf, NodesOk, Maps, IsRoot, Grew, UserBelow, KernelPart, Added, KeptPages, Copies;
    var root := q.root.value;
    var m, m2 := Maps(h1, root), Maps(h2, child);
    forall v | v in m && v < TRAPFRAME ensures Untouched(m, h1.own, page, page2, root, v) {
      FilledOther(h1, page, h2, page2, child, Copies(m, page, PagesOf(q.sz)), root, v);
      MappedIsLeaf(h1, root, v);
    }
    LiveSized(h1, q, trampoline);
    CopiedUser(m, KernelMaps(trampoline, tf), m2, h1.own, h2.own, page, page2, root, child, q.sz);
    CopiedKeys(m, KernelMaps(trampoline, tf), m2, h2.own, page, page2, child, PagesOf(q.sz));
    CopiedBelow(m2, trampoline, tf, q.sz);
  }

  lemma CopiedBelow(m2: map<nat, Pte>, trampoline: nat, tf: nat, sz: nat)
    requires forall v | v in m2 :: v in KernelMaps(trampoline, tf) || v < PagesOf(sz)
    requires forall v | v in KernelMaps(trampoline, tf) :: v in m2 && m2[v] == KernelMaps(trampoline, tf)[v]
    ensures UserBelow(m2, sz) && KernelPart(m2, trampoline, tf)
  {
  }

  lemma CopiedUser(m: map<nat, Pte>, k: map<nat, Pte>, m2: map<nat, Pte>, own: map<nat, Owner>, own2: map<nat, Owner>,
                   page: map<nat, Page>, page2: map<nat, Page>, root: nat, child: nat, sz: nat)
    requires forall u | u in m && u < TRAPFRAME :: m[u].ppn in page && Untouched(m, own, page, page2, root, u)
    requires root != child && PagesOf(sz) <= TRAPFRAME && UserBelow(m, sz) && Grew(own, own2, child, true)
    requires Added(k, m2, own2, page2, child, Copies(m, page, PagesOf(sz)))
    ensures forall v | 0 <= v < TRAPFRAME && v in m ::
      && v in m2 && m2[v] == m[v].(ppn := m2[v].ppn) && m2[v].ppn != m[v].ppn
      && m[v].ppn in page2 && m2[v].ppn in page2 && page2[m2[v].ppn] == page2[m[v].ppn]
  {
    hide Added, Grew, Copies, Untouched;
    forall v | 0 <= v < TRAPFRAME && v in m
      ensures v in m2 && m2[v] == m[v].(ppn := m2[v].ppn) && m2[v].ppn != m[v].ppn
      ensures m[v].ppn in page2 && m2[v].ppn in page2 && page2[m2[v].ppn] == page2[m[v].ppn]
    {
      CopiedAt(m, k, m2, own, own2, page, page2, root, child, PagesOf(sz), v);
    }
  }

  ghost predicate Untouched(m: map<nat, Pte>, own: map<nat, Owner>, page: map<nat, Page>, page2: map<nat, Page>, root: nat, v: nat)
    requires v in m
  {
    && m[v].ppn in own && own[m[v].ppn] == Leaf(root, v)
    && m[v].ppn in page && m[v].ppn in page2 && page2[m[v].ppn] == page[m[v].ppn]
  }

  lemma CopiedAt(m: map<nat, Pte>, k: map<nat, Pte>, m2: map<nat, Pte>, own: map<nat, Owner>, own2: map<nat, Owner>,
                 page: map<nat, Page>, page2: map<nat, Page>, root: nat, child: nat, hi: nat, v: nat)
    requires forall u | u in m && u < TRAPFRAME :: m[u].ppn in page
    requires root != child && hi <= TRAPFRAME && v in m && v < hi && Untouched(m, own, page, page2, root, v)
    requires Grew(own, own2, child, true) && Added(k, m2, own2, page2, child, Copies(m, page, hi))
    ensures v in m2 && m2[v] == m[v].(ppn := m2[v].ppn) && m2[v].ppn != m[v].ppn
    ensures m[v].ppn in page2 && m2[v].ppn in page2 && page2[m2[v].ppn] == page2[m[v].ppn]
  {
    assert v in Copies(m, page, hi);
  }

  lemma CopiedKeys(m: map<nat, Pte>, k: map<nat, Pte>, m2: map<nat, Pte>, own2: map<nat, Owner>,
                   page: map<nat, Page>, page2: map<nat, Page>, child: nat, hi: nat)
    requires forall u | u in m && u < TRAPFRAME :: m[u].ppn in page
    requires hi <= TRAPFRAME && Added(k, m2, own2, page2, child, Copies(m, page, hi))
    ensures forall v | v in m2 :: v in k || (v in m && v < hi)
    ensures forall v | v in k :: v in m2 && m2[v] == k[v]
  {
  }

  lemma SlotsParts(h: Heap, proc: seq<Proc>, trampoline: nat)
    requires NodesOk(h) && Slots(h, proc, trampoline)
    ensures |proc| == NPROC
    ensures forall i | 0 <= i < NPROC :: proc[i] == UNUSED || Live(h, proc[i], trampoline)
  {
  }

  lemma SameMapsIf(h: Heap, h': Heap)
    requires NodesOk(h) && NodesOk(h') && forall r: nat :: Maps(h', r) == Maps(h, r)
    ensures SameMaps(h, h')
  {
  }

  lemma SameSound(h: Heap, h': Heap, page: map<nat, Page>, proc: seq<Proc>, other: set<nat>, trampoline: nat)
    requires Sound(h, page, proc, other, trampoline) && Wf(h') && Unchanged(h, h')
    ensures Sound(h', page, proc, other, trampoline)
  {
    hide Wf, NodesOk, Maps, LeavesHeld, IsRoot;
    forall r: nat ensures IsRoot(h', r) <==> IsRoot(h, r) {
      RootOwned(h, r);
      RootOwned(h', r);
    }
    forall i | 0 <= i < NPROC && proc[i] != UNUSED ensures Live(h', proc[i], trampoline) {
      assert Live(h, proc[i], trampoline);
    }
  }

  /** The processes stay as they are while the owner of a page that is neither table nor trapframe changes. */
  lemma PageChanged(h: Heap, h': Heap, page: map<nat, Page>, proc: seq<Proc>, other: set<nat>, trampoline: nat, p: nat, o: Owner)
    requires Sound(h, page, proc, other, trampoline) && NodesOk(h) && NodesOk(h') && Wf(h') && SameMaps(h, h')
    requires p in h.own && h'.own == h.own[p := o] && (o.Free? || o.Kernel?)
    requires (h.own[p].Free? || h.own[p].Kernel?) && !HasTf(proc, p)
    ensures Slots(h', proc, trampoline) && LeavesHeld(h'.own, page) && forall r: nat :: IsRoot(h', r) <==> IsRoot(h, r)
  {
    hide Wf, NodesOk, Maps, IsRoot;
    forall r: nat ensures IsRoot(h', r) <==> IsRoot(h, r) {
      RootOwned(h, r);
      RootOwned(h', r);
    }
    forall i | 0 <= i < NPROC && proc[i] != UNUSED ensures Live(h', proc[i], trampoline) {
      assert Live(h, proc[i], trampoline);
    }
  }

  lemma OtherTaken(h: Heap, h': Heap, page: map<nat, Page>, proc: seq<Proc>, other: set<nat>, trampoline: nat, p: nat)
    requires Sound(h, page, proc, other, trampoline) && NodesOk(h) && NodesOk(h') && Wf(h') && SameMaps(h, h')
    requires p in h.own && h.own[p].Free? && h'.own == h.own[p := Kernel]
    ensures p !in other && Sound(h', page, proc, other + {p}, trampoline)
  {
    hide Wf, NodesOk, Maps, IsRoot, SameMaps, UserBelow, KernelPart, HasRoot;
    assert !HasTf(proc, p) by {
      forall i | 0 <= i < |proc| && proc[i].used ensures proc[i].tf != Some(p) {
        assert Live(h, proc[i], trampoline);
      }
    }
    PageChanged(h, h', page, proc, other, trampoline, p, Kernel);
  }

  lemma OtherGiven(h: Heap, h': Heap, page: map<nat, Page>, proc: seq<Proc>, other: set<nat>, trampoline: nat, p: nat)
    requires Sound(h, page, proc, other, trampoline) && NodesOk(h) && NodesOk(h') && Wf(h') && SameMaps(h, h')
    requires p in other && p in h.own && h'.own == h.own[p := Free]
    ensures Sound(h', page, proc, other - {p}, trampoline)
  {
    hide Wf, NodesOk, Maps, IsRoot, SameMaps, Slots, HasRoot, HasTf;
    PageChanged(h, h', page, proc, other, trampoline, p, Free);
  }

  lemma PagesOfMax(sz: nat)
    requires sz <= MAXSZ
    ensures PagesOf(sz) <= TRAPFRAME
  {
  }

  lemma SameMapsAll(h: Heap, h': Heap)
    requires NodesOk(h) && NodesOk(h') && SameMaps(h, h')
    ensures forall r :: Maps(h', r) == Maps(h, r)
  {
  }
}
