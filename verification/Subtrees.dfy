/** Parts of a page table: the page-table pages below a given one, and what is left of the forest
    when they have been freed.
 */
module Subtrees {
  import opened Collections
  import opened PageTable

  ghost predicate Under(n: Node, top: Node)
    decreases if n.level < top.level then top.level - n.level else 0
  {
    n == top || (n.level < top.level && Under(Parent(n), top))
  }

  /** Which entry of `top` leads to a node below it. */
  ghost function KidOf(n: Node, top: Node): nat
    requires Under(n, top) && n != top
    decreases top.level - n.level
  {
    if Parent(n) == top then Index(n) else KidOf(Parent(n), top)
  }

  lemma {:induction false} KidChild(n: Node, top: Node, j: nat)
    requires top.level > 0 && j < ENTRIES
    ensures Under(n, Child(top, j)) <==> Under(n, top) && n != top && KidOf(n, top) == j
    decreases if n.level < top.level then top.level - n.level else 0
  {
    ChildParent(top, j);
    var c := Child(top, j);
    if n == c {
      assert Under(top, top);
    } else if n.level < top.level {
      if Parent(n) == top {
        assert Index(n) == j ==> n == c;
        assert !Under(n, c);
      } else {
        KidChild(Parent(n), top, j);
        assert Under(Parent(n), c) ==> n.level < c.level;
      }
    }
  }

  ghost function NodesUnder(h: Heap, top: Node): set<Node> {
    set n | n in h.at && Under(n, top)
  }

  /** The nodes below the first i entries of `top`. */
  ghost function Kids(h: Heap, top: Node, i: nat): set<Node> {
    set n | n in h.at && Under(n, top) && n != top && KidOf(n, top) < i
  }

  ghost function FreeTables(own: map<nat, Owner>, gone: set<Node>): map<nat, Owner> {
    map p | p in own :: if own[p].Table? && own[p].node in gone then Free else own[p]
  }

  /** `h'` is `h` with the page-table pages of some nodes on the free list. */
  ghost predicate Pruned(h: Heap, h': Heap, gone: set<Node>)
    requires NodesOk(h)
  {
    && FreeOk(h')
    && h'.at == h.at - gone
    && h'.own == FreeTables(h.own, gone)
    && h'.table == map p | p in h.table && h.own[p].node !in gone :: h.table[p]
  }

  lemma PrunedNodes(h: Heap, h': Heap, gone: set<Node>)
    requires NodesOk(h) && Pruned(h, h', gone)
    ensures NodesOk(h')
    ensures forall n, i | n in h'.at && 0 <= i < ENTRIES :: Entry(h', n, i) == Entry(h, n, i)
  {
    forall n | n in h'.at ensures NodeOk(h', n) {
      assert NodeOk(h, n);
    }
  }

  lemma PrunedCompose(h: Heap, h1: Heap, h2: Heap, a: set<Node>, b: set<Node>)
    requires NodesOk(h) && Pruned(h, h1, a) && NodesOk(h1) && Pruned(h1, h2, b)
    ensures Pruned(h, h2, a + b)
  {
    hide FreeOk, NodeOk;
    assert h2.at == h.at - (a + b);
    assert h2.own == FreeTables(h.own, a + b);
    assert forall p | p in h1.table :: p in h.table && h1.own[p] == h.own[p] && h1.table[p] == h.table[p];
  }

  /** The forest with other contents in one page-table page. */
  ghost function WithTable(h: Heap, top: Node, t: seq<Pte>): Heap
    requires top in h.at
  {
    Heap(h.free, h.table[h.at[top] := t], h.own, h.at)
  }

  lemma WithTableNodes(h: Heap, top: Node, t: seq<Pte>)
    requires NodesOk(h) && top in h.at && |t| == ENTRIES
    ensures NodesOk(WithTable(h, top, t))
    ensures forall n, j | n in h.at && 0 <= j < ENTRIES ::
      Entry(WithTable(h, top, t), n, j) == if n == top then t[j] else Entry(h, n, j)
  {
    var z := WithTable(h, top, t);
    assert NodeOk(h, top);
    forall n | n in z.at ensures NodeOk(z, n) {
      assert NodeOk(h, n);
    }
  }

  /** Below `top` the tree is sound and has no valid last-level entry. */
  ghost predicate Bare(h: Heap, top: Node) {
    && NodesOk(h) && FreeOk(h) && top in h.at
    && (forall n, i | n in h.at && Under(n, top) && 0 <= i < ENTRIES && Entry(h, n, i).v ::
          && n.level > 0 && !HasPerm(Entry(h, n, i))
          && Child(n, i) in h.at && h.at[Child(n, i)] == Entry(h, n, i).ppn)
    && (forall n | n in h.at && Under(n, top) && n != top ::
          Parent(n) in h.at && Entry(h, Parent(n), Index(n)).v)
  }

  /** The state of freewalk before its i-th entry: everything below the earlier entries is freed
      and no earlier entry is valid. */
  ghost predicate Walked(h: Heap, h': Heap, top: Node, i: nat, t: seq<Pte>)
    requires Bare(h, top)
  {
    && |t| == ENTRIES && i <= ENTRIES
    && (forall j | 0 <= j < i :: !t[j].v) && (forall j | i <= j < ENTRIES :: t[j] == Entry(h, top, j))
    && NodesOk(WithTable(h, top, t)) && Pruned(WithTable(h, top, t), h', Kids(h, top, i))
  }

  lemma WalkedNothing(h: Heap, top: Node)
    requires Bare(h, top)
    ensures Walked(h, h, top, 0, h.table[h.at[top]])
  {
    assert NodeOk(h, top);
    WithTableNodes(h, top, h.table[h.at[top]]);
    assert WithTable(h, top, h.table[h.at[top]]).table == h.table;
    assert Kids(h, top, 0) == {};
  }

  /** The subtree of the next entry is as it was. */
  lemma WalkedNextBare(h: Heap, h': Heap, top: Node, i: nat, t: seq<Pte>)
    requires Bare(h, top) && i < ENTRIES && Walked(h, h', top, i, t)
    ensures top in h'.at && h'.at[top] == h.at[top] && NodesOk(h') && NodeOk(h', top)
    ensures h'.table[h'.at[top]] == t
    ensures t[i].v ==>
      && top.level > 0 && !HasPerm(t[i]) && Bare(h', Child(top, i)) && h'.at[Child(top, i)] == t[i].ppn
      && NodesUnder(h', Child(top, i)) == set n | n in h.at && Under(n, Child(top, i))
  {
    WithTableNodes(h, top, t);
    PrunedNodes(WithTable(h, top, t), h', Kids(h, top, i));
    assert Under(top, top);
    assert NodeOk(h', top);
    if t[i].v {
      assert Entry(h, top, i).v && top.level > 0;
      forall n ensures Under(n, Child(top, i)) ==> Under(n, top) && n != top && n !in Kids(h, top, i) {
        KidChild(n, top, i);
      }
      NextBare(h, h', top, i, t);
    }
  }

  lemma NextBare(h: Heap, h': Heap, top: Node, i: nat, t: seq<Pte>)
    requires Bare(h, top) && i < ENTRIES && Walked(h, h', top, i, t) && NodesOk(h')
    requires t[i].v && top.level > 0 && Child(top, i) in h.at
    requires forall n, j | n in h'.at && 0 <= j < ENTRIES && n != top :: Entry(h', n, j) == Entry(h, n, j)
    requires forall n :: Under(n, Child(top, i)) ==> Under(n, top) && n != top && n !in Kids(h, top, i)
    ensures Bare(h', Child(top, i))
  {
    var c := Child(top, i);
    assert Under(c, c);
    forall n, j | n in h'.at && Under(n, c) && 0 <= j < ENTRIES && Entry(h', n, j).v
      ensures n.level > 0 && !HasPerm(Entry(h', n, j))
      ensures Child(n, j) in h'.at && h'.at[Child(n, j)] == Entry(h', n, j).ppn
    {
      assert Entry(h', n, j) == Entry(h, n, j);
      ChildParent(n, j);
      assert Under(Child(n, j), c);
    }
    forall n | n in h'.at && Under(n, c) && n != c
      ensures Parent(n) in h'.at && Entry(h', Parent(n), Index(n)).v
    {
      assert Under(Parent(n), c);
      assert Entry(h', Parent(n), Index(n)) == Entry(h, Parent(n), Index(n));
    }
  }

  /** Freeing what an entry leads to and zeroing the entry goes past it. */
  lemma WalkedFreed(h: Heap, h': Heap, h'': Heap, top: Node, i: nat, t: seq<Pte>)
    requires Bare(h, top) && i < ENTRIES && Walked(h, h', top, i, t) && t[i].v && top.level > 0
    requires NodesOk(h') && top in h'.at && NodesUnder(h', Child(top, i)) == set n | n in h.at && Under(n, Child(top, i))
    requires Pruned(h', h'', NodesUnder(h', Child(top, i))) && NodesOk(h'') && top in h''.at
    ensures Walked(h, WithTable(h'', top, t[i := NOPTE]), top, i + 1, t[i := NOPTE])
  {
    hide Pruned, NodesOk, Kids, NodesUnder, Under, KidOf;
    var kids := NodesUnder(h', Child(top, i));
    PrunedCompose(WithTable(h, top, t), h', h'', Kids(h, top, i), kids);
    KidsNext(h, top, i);
    WithTableNodes(h, top, t[i := NOPTE]);
    TopIsNoKid(h, top, i + 1);
    PrunedWithTable(h, h'', top, t, t[i := NOPTE], Kids(h, top, i + 1));
  }

  lemma TopIsNoKid(h: Heap, top: Node, i: nat)
    ensures top !in Kids(h, top, i)
  {
  }

  lemma KidsNext(h: Heap, top: Node, i: nat)
    requires top.level > 0 && i < ENTRIES
    ensures Kids(h, top, i + 1) == Kids(h, top, i) + set n | n in h.at && Under(n, Child(top, i))
  {
    forall n | n in h.at ensures n in Kids(h, top, i + 1) <==> n in Kids(h, top, i) || Under(n, Child(top, i)) {
      KidChild(n, top, i);
    }
  }

  lemma PrunedWithTable(h: Heap, h': Heap, top: Node, t: seq<Pte>, t': seq<Pte>, gone: set<Node>)
    requires NodesOk(h) && top in h.at && top !in gone && NodesOk(WithTable(h, top, t)) && NodesOk(WithTable(h, top, t'))
    requires Pruned(WithTable(h, top, t), h', gone)
    ensures Pruned(WithTable(h, top, t'), WithTable(h', top, t'), gone)
  {
    hide FreeOk, FreeTables;
    assert NodeOk(h, top);
    SameFree(h', WithTable(h', top, t'));
  }

  /** An entry that is not valid leads nowhere. */
  lemma WalkedSkipped(h: Heap, h': Heap, top: Node, i: nat, t: seq<Pte>)
    requires Bare(h, top) && i < ENTRIES && Walked(h, h', top, i, t) && !t[i].v
    ensures Walked(h, h', top, i + 1, t)
  {
    forall n | n in h.at && Under(n, top) && n != top ensures KidOf(n, top) != i {
      KidIsValid(h, top, n);
    }
    assert Kids(h, top, i + 1) == Kids(h, top, i);
  }

  lemma {:induction false} KidIsValid(h: Heap, top: Node, n: Node)
    requires Bare(h, top) && n in h.at && Under(n, top) && n != top
    ensures KidOf(n, top) < ENTRIES && Entry(h, top, KidOf(n, top)).v
    decreases top.level - n.level
  {
    if Parent(n) != top {
      KidIsValid(h, top, Parent(n));
    }
  }

  /** With all entries done, freeing the page itself completes the subtree. */
  lemma WalkedDone(h: Heap, h': Heap, top: Node, t: seq<Pte>, h'': Heap)
    requires Bare(h, top) && Walked(h, h', top, ENTRIES, t)
    requires h'' == Heap([h.at[top]] + h'.free, h'.table - {h.at[top]}, h'.own[h.at[top] := Free], h'.at - {top})
    ensures Pruned(h, h'', NodesUnder(h, top))
  {
    hide Pruned, FreeTables;
    forall n | n in h.at && Under(n, top) && n != top ensures KidOf(n, top) < ENTRIES {
      KidIsValid(h, top, n);
    }
    assert Under(top, top);
    assert NodesUnder(h, top) == Kids(h, top, ENTRIES) + {top};
    PruneLast(h, h', top, t, h'', Kids(h, top, ENTRIES));
  }

  lemma FreeOneMore(h: Heap, h': Heap, p: nat)
    requires FreeOk(h) && p in h.own && !h.own[p].Free?
    requires h'.free == [p] + h.free && h'.own == h.own[p := Free]
    ensures FreeOk(h')
  {
  }

  lemma PruneLast(h: Heap, h': Heap, top: Node, t: seq<Pte>, h'': Heap, gone: set<Node>)
    requires NodesOk(h) && top in h.at && NodesOk(WithTable(h, top, t)) && top !in gone
    requires Pruned(WithTable(h, top, t), h', gone)
    requires h'' == Heap([h.at[top]] + h'.free, h'.table - {h.at[top]}, h'.own[h.at[top] := Free], h'.at - {top})
    ensures Pruned(h, h'', gone + {top})
  {
    hide FreeOk, FreeTables, NodesOk;
    TopPage(h, top, gone);
    FreeOneMore(h', h'', h.at[top]);
    OneTableFreed(h, top, gone);
    LastTable(h, h', top, t, gone);
  }

  /** The page of a node that stays is still a table, and no other page is that node. */
  lemma TopPage(h: Heap, top: Node, gone: set<Node>)
    requires NodesOk(h) && top in h.at && top !in gone
    ensures h.at[top] in h.own && h.at[top] in FreeTables(h.own, gone) && !FreeTables(h.own, gone)[h.at[top]].Free?
    ensures forall q | q in h.table :: q in h.own && h.own[q].Table? && (h.own[q].node == top <==> q == h.at[top])
  {
    assert NodeOk(h, top);
  }

  lemma LastTable(h: Heap, h': Heap, top: Node, t: seq<Pte>, gone: set<Node>)
    requires NodesOk(h) && top in h.at && NodesOk(WithTable(h, top, t)) && top !in gone
    requires Pruned(WithTable(h, top, t), h', gone)
    ensures h'.table - {h.at[top]} == map p | p in h.table && h.own[p].node !in gone + {top} :: h.table[p]
  {
    hide FreeOk, FreeTables;
    TopPage(h, top, gone);
  }

  lemma OneTableFreed(h: Heap, top: Node, gone: set<Node>)
    requires NodesOk(h) && top in h.at && top !in gone
    ensures FreeTables(h.own, gone)[h.at[top] := Free] == FreeTables(h.own, gone + {top})
  {
    assert NodeOk(h, top);
  }

  /** A whole page table: the nodes under its root are all the nodes of that root. */
  lemma {:induction false} RootCovers(h: Heap, n: Node)
    requires NodesOk(h) && UpOk(h) && n in h.at
    ensures Under(n, Node(n.root, 2, 0))
    decreases 2 - n.level
  {
    assert NodeOk(h, n);
    if n.level < 2 {
      RootCovers(h, Parent(n));
    }
  }

  lemma {:induction false} UnderSameRoot(n: Node, top: Node)
    requires Under(n, top)
    ensures n.root == top.root
    decreases if n.level < top.level then top.level - n.level else 0
  {
    if n != top {
      UnderSameRoot(Parent(n), top);
    }
  }

  lemma LeafMaps(h: Heap, n: Node, i: nat)
    requires NodesOk(h) && n in h.at && n.level == 0 && i < ENTRIES && Entry(h, n, i).v
    ensures n.prefix * ENTRIES + i in Maps(h, n.root)
  {
    SlotOf(n, i);
    assert NodeOk(h, n);
    assert Lookup(h, n.root, n.prefix * ENTRIES + i).v;
  }

  /** A page table without mappings may be freed. */
  lemma RootBare(h: Heap, root: nat)
    requires Wf(h) && IsRoot(h, root) && Maps(h, root) == map[]
    ensures Bare(h, Node(root, 2, 0))
  {
    hide Maps, LeavesOk;
    var top := Node(root, 2, 0);
    forall n, i | n in h.at && Under(n, top) && 0 <= i < ENTRIES && Entry(h, n, i).v
      ensures n.level > 0
    {
      UnderSameRoot(n, top);
      if n.level == 0 {
        LeafMaps(h, n, i);
      }
    }
  }

  /** Every table page of a root, freed. */
  ghost function FreeRoot(own: map<nat, Owner>, root: nat): map<nat, Owner> {
    map p | p in own :: if own[p].Table? && own[p].node.root == root then Free else own[p]
  }

  /** Freeing all of a page table leaves the rest of the forest and its maps alone. */
  lemma RootPruned(h: Heap, h': Heap, root: nat)
    requires Wf(h) && IsRoot(h, root) && Maps(h, root) == map[]
    requires Pruned(h, h', NodesUnder(h, Node(root, 2, 0)))
    ensures Wf(h') && h'.own == FreeRoot(h.own, root)
    ensures forall r | r != root :: Maps(h', r) == Maps(h, r)
    ensures forall r | r != root && IsRoot(h, r) :: IsRoot(h', r)
  {
    hide FreeOk, LeavesOk, DownOk, UpOk, HasPerm, Under;
    var gone := NodesUnder(h, Node(root, 2, 0));
    PrunedNodes(h, h', gone);
    forall n | n in h.at ensures n in gone <==> n.root == root {
      NodesOfRoot(h, root, n);
    }
    PrunedRest(h, h', root);
    PrunedMaps(h, h', root);
  }

  lemma NodesOfRoot(h: Heap, root: nat, n: Node)
    requires NodesOk(h) && UpOk(h) && n in h.at
    ensures Under(n, Node(root, 2, 0)) <==> n.root == root
  {
    RootCovers(h, n);
    if Under(n, Node(root, 2, 0)) {
      UnderSameRoot(n, Node(root, 2, 0));
    }
  }

  /** Only the nodes of a root are gone, with their pages. */
  ghost predicate Apart(h: Heap, h': Heap, root: nat)
    requires NodesOk(h) && NodesOk(h')
  {
    && h'.at.Keys == (set n | n in h.at && n.root != root)
    && (forall n | n in h'.at :: h'.at[n] == h.at[n])
    && (forall n, i | n in h'.at && 0 <= i < ENTRIES :: Entry(h', n, i) == Entry(h, n, i))
    && h'.own == FreeRoot(h.own, root)
  }

  lemma PrunedRest(h: Heap, h': Heap, root: nat)
    requires NodesOk(h) && NodesOk(h') && DownOk(h, {}) && UpOk(h) && LeavesOk(h) && Apart(h, h', root)
    requires Maps(h, root) == map[]
    ensures DownOk(h', {}) && UpOk(h') && LeavesOk(h')
  {
    hide LeavesOk, DownOk, UpOk, Apart, Maps;
    PrunedLinks(h, h', root);
    PrunedLeaves(h, h', root);
  }

  lemma PrunedLinks(h: Heap, h': Heap, root: nat)
    requires NodesOk(h) && NodesOk(h') && DownOk(h, {}) && UpOk(h) && Apart(h, h', root)
    ensures DownOk(h', {}) && UpOk(h')
  {
    hide FreeRoot;
    forall n, i | n in h'.at && n.level > 0 && 0 <= i < ENTRIES && Entry(h', n, i).v
      ensures !HasPerm(Entry(h', n, i)) && Child(n, i) in h'.at && h'.at[Child(n, i)] == Entry(h', n, i).ppn
    {
      assert Entry(h', n, i) == Entry(h, n, i);
    }
    forall n | n in h'.at && n.level < 2
      ensures Parent(n) in h'.at
      ensures Entry(h', Parent(n), Index(n)).v && Entry(h', Parent(n), Index(n)).ppn == h'.at[n]
    {
      assert Entry(h', Parent(n), Index(n)) == Entry(h, Parent(n), Index(n));
    }
  }

  lemma PrunedLeaves(h: Heap, h': Heap, root: nat)
    requires NodesOk(h) && NodesOk(h') && LeavesOk(h) && Apart(h, h', root) && Maps(h, root) == map[]
    ensures LeavesOk(h')
  {
    forall p | p in h'.own && h'.own[p].Leaf?
      ensures var n := PathNode(h'.own[p].root, 0, h'.own[p].vpn);
        && h'.own[p].vpn < TRAPFRAME && n in h'.at
        && Entry(h', n, PX(0, h'.own[p].vpn)).v && Entry(h', n, PX(0, h'.own[p].vpn)).ppn == p
    {
      var n := PathNode(h'.own[p].root, 0, h'.own[p].vpn);
      assert h'.own[p].vpn in Maps(h, h'.own[p].root);
      assert Entry(h', n, PX(0, h'.own[p].vpn)) == Entry(h, n, PX(0, h'.own[p].vpn));
    }
  }

  lemma PrunedMaps(h: Heap, h': Heap, root: nat)
    requires NodesOk(h) && NodesOk(h') && Apart(h, h', root)
    ensures forall r | r != root :: Maps(h', r) == Maps(h, r)
    ensures forall r | r != root && IsRoot(h, r) :: IsRoot(h', r)
  {
    forall r | r != root ensures Maps(h', r) == Maps(h, r) {
      forall vpn: nat ensures Lookup(h', r, vpn) == Lookup(h, r, vpn) {
      }
    }
  }
}
