/** The heap of the K&R allocator: a ring of free blocks in address order, the blocks handed out, and
    which block every unit obtained from sbrk belongs to. Addresses and sizes are in units of one
    header (16 bytes).
 */
module FreeRing {
  /** The address of the degenerate block that starts the ring; the heap lies above it. */
  const BASE := 1

  /** Sizes and links as they stand in the headers; the ring in address order; the blocks handed out
      and their sizes; the block of every unit. */
  datatype Heap = Heap(size: map<nat, nat>, ptr: map<nat, nat>, ring: seq<nat>, live: map<nat, nat>, owner: map<nat, nat>)

  function Nx(i: nat, n: nat): nat {
    if i + 1 < n then i + 1 else 0
  }

  ghost predicate Sorted(ring: seq<nat>) {
    |ring| >= 1 && ring[0] == BASE && forall i, j | 0 <= i < j < |ring| :: ring[i] < ring[j]
  }

  ghost predicate LinkAt(h: Heap, k: nat)
    requires k < |h.ring|
  {
    && h.ring[k] in h.size && h.ring[k] in h.ptr && h.ptr[h.ring[k]] == h.ring[Nx(k, |h.ring|)]
    && (if k == 0 then h.size[h.ring[k]] == 0 else h.size[h.ring[k]] > 0)
  }

  /** The headers of the ring point around it; only the first block is empty. */
  ghost predicate Linked(h: Heap) {
    forall k | 0 <= k < |h.ring| :: LinkAt(h, k)
  }

  ghost predicate Block(h: Heap, b: nat) {
    b in h.live || (b in h.ring && b != BASE)
  }

  ghost predicate LiveOk(h: Heap) {
    forall a | a in h.live :: a in h.size && h.size[a] == h.live[a] > 0 && a !in h.ring && a > BASE
  }

  ghost predicate UnitOk(h: Heap, u: nat)
    requires u in h.owner
  {
    var b := h.owner[u];
    Block(h, b) && b in h.size && b <= u < b + h.size[b]
  }

  ghost predicate Covers(h: Heap, b: nat)
    requires b in h.size
  {
    forall u | b <= u < b + h.size[b] :: u in h.owner && h.owner[u] == b
  }

  /** The units are exactly those of the blocks, and every unit has one block. */
  ghost predicate OwnOk(h: Heap) {
    (forall u | u in h.owner :: UnitOk(h, u)) && (forall b | Block(h, b) && b in h.size :: Covers(h, b))
  }

  ghost predicate Sound(h: Heap) {
    Sorted(h.ring) && Linked(h) && LiveOk(h) && OwnOk(h)
  }

  /** The i-th and the next free block touch. */
  ghost predicate Touch(h: Heap, i: nat) {
    && i + 1 < |h.ring| && h.ring[i] in h.size && h.ring[i + 1] in h.size && h.ring[i + 1] in h.ptr
    && h.ring[i] + h.size[h.ring[i]] == h.ring[i + 1]
  }

  /** No two free blocks touch. */
  ghost predicate Apart(h: Heap) {
    forall i | 0 <= i < |h.ring| :: !Touch(h, i)
  }

  /** Where a block handed out belongs in the ring. */
  ghost predicate Between(h: Heap, i: nat, b: nat) {
    i < |h.ring| && h.ring[i] < b && (i + 1 < |h.ring| ==> b < h.ring[i + 1])
  }

  /** A block handed out goes into the ring behind the i-th. */
  ghost function Inserted(h: Heap, i: nat, b: nat): Heap
    requires i < |h.ring|
  {
    Heap(h.size, h.ptr[b := h.ring[Nx(i, |h.ring|)]][h.ring[i] := b],
         h.ring[..i + 1] + [b] + h.ring[i + 1..], h.live - {b}, h.owner)
  }

  lemma InsertedAt(h: Heap, i: nat, b: nat, k: nat)
    requires i < |h.ring| && k < |h.ring| + 1
    ensures |Inserted(h, i, b).ring| == |h.ring| + 1
    ensures Inserted(h, i, b).ring[k] == if k <= i then h.ring[k] else if k == i + 1 then b else h.ring[k - 1]
  {
  }

  lemma InsertedIn(h: Heap, i: nat, b: nat, x: nat)
    requires i < |h.ring|
    ensures x in Inserted(h, i, b).ring <==> x == b || x in h.ring
  {
    assert h.ring == h.ring[..i + 1] + h.ring[i + 1..];
  }

  lemma InsertKeeps(h: Heap, i: nat, b: nat)
    requires Sound(h) && b in h.live && Between(h, i, b)
    ensures Sound(Inserted(h, i, b))
  {
    var h' := Inserted(h, i, b);
    InsertSorted(h, i, b);
    assert b !in h.ring;
    forall k | 0 <= k < |h'.ring| ensures LinkAt(h', k) {
      InsertLinkAt(h, i, b, k);
    }
    forall x ensures x in h'.ring <==> x == b || x in h.ring {
      InsertedIn(h, i, b, x);
    }
    assert forall x :: Block(h', x) <==> Block(h, x);
    SameUnits(h, h');
  }

  lemma InsertSorted(h: Heap, i: nat, b: nat)
    requires Sorted(h.ring) && Between(h, i, b)
    ensures Sorted(Inserted(h, i, b).ring)
  {
    var r := Inserted(h, i, b).ring;
    forall k | 0 <= k < |r| ensures r[k] == if k <= i then h.ring[k] else if k == i + 1 then b else h.ring[k - 1] {
      InsertedAt(h, i, b, k);
    }
  }

  lemma InsertLinkAt(h: Heap, i: nat, b: nat, k: nat)
    requires Sorted(h.ring) && Linked(h) && Between(h, i, b) && b in h.size && h.size[b] > 0 && b !in h.ring
    requires k <= |h.ring|
    ensures |Inserted(h, i, b).ring| == |h.ring| + 1 && LinkAt(Inserted(h, i, b), k)
  {
    hide Inserted;
    InsertedAt(h, i, b, k);
    InsertedAt(h, i, b, Nx(k, |h.ring| + 1));
    InsertedPtr(h, i, b);
    if k <= i {
      assert LinkAt(h, k);
    } else if k > i + 1 {
      assert LinkAt(h, k - 1);
      assert h.ring[k - 1] != h.ring[i];
    }
  }

  lemma InsertedPtr(h: Heap, i: nat, b: nat)
    requires i < |h.ring|
    ensures Inserted(h, i, b).ptr == h.ptr[b := h.ring[Nx(i, |h.ring|)]][h.ring[i] := b] && Inserted(h, i, b).size == h.size
  {
  }

  /** The i-th free block takes over the next one, which it touches. */
  ghost function Merged(h: Heap, i: nat): Heap
    requires 1 <= i && i + 1 < |h.ring| && h.ring[i] in h.size && h.ring[i + 1] in h.size && h.ring[i + 1] in h.ptr
  {
    var a, b := h.ring[i], h.ring[i + 1];
    Heap(h.size[a := h.size[a] + h.size[b]], h.ptr[a := h.ptr[b]],
         h.ring[..i + 1] + h.ring[i + 2..], h.live,
         map u | u in h.owner :: if h.owner[u] == b then a else h.owner[u])
  }

  lemma MergeKeeps(h: Heap, i: nat)
    requires Sound(h) && 1 <= i && Touch(h, i)
    ensures Sound(Merged(h, i))
  {
    hide Linked, LiveOk, OwnOk, Touch;
    TouchParts(h, i);
    var h' := Merged(h, i);
    MergeSorted(h, i);
    forall k | 0 <= k < |h'.ring| ensures LinkAt(h', k) {
      MergeLinkAt(h, i, k);
    }
    assert Linked(h') by {
      LinkedIf(h');
    }
    forall x ensures x in h'.ring <==> x in h.ring && x != h.ring[i + 1] {
      MergedIn(h, i, x);
    }
    MergeOwned(h, i);
  }

  lemma TouchParts(h: Heap, i: nat)
    requires Sorted(h.ring) && Linked(h) && 1 <= i && Touch(h, i)
    ensures i + 1 < |h.ring| && h.ring[i] in h.size && h.ring[i + 1] in h.size && h.ring[i + 1] in h.ptr
    ensures h.ring[i] + h.size[h.ring[i]] == h.ring[i + 1] && h.ring[i] != BASE
  {
    assert LinkAt(h, i) && LinkAt(h, i + 1);
  }

  lemma LinkedIf(h: Heap)
    requires forall k | 0 <= k < |h.ring| :: LinkAt(h, k)
    ensures Linked(h)
  {
  }

  lemma MergedIn(h: Heap, i: nat, x: nat)
    requires Sorted(h.ring) && 1 <= i && i + 1 < |h.ring|
    ensures x in h.ring[..i + 1] + h.ring[i + 2..] <==> x in h.ring && x != h.ring[i + 1]
  {
    assert h.ring == h.ring[..i + 1] + [h.ring[i + 1]] + h.ring[i + 2..];
  }

  lemma MergeSorted(h: Heap, i: nat)
    requires Sorted(h.ring) && Linked(h) && 1 <= i && Touch(h, i)
    ensures Sorted(Merged(h, i).ring) && |Merged(h, i).ring| == |h.ring| - 1
    ensures forall k | 0 <= k < |h.ring| - 1 :: Merged(h, i).ring[k] == if k <= i then h.ring[k] else h.ring[k + 1]
  {
    hide Linked;
    TouchParts(h, i);
    var r := Merged(h, i).ring;
    assert forall k | 0 <= k < |h.ring| - 1 :: r[k] == if k <= i then h.ring[k] else h.ring[k + 1];
  }

  lemma MergeLinkAt(h: Heap, i: nat, k: nat)
    requires Sorted(h.ring) && Linked(h) && 1 <= i && Touch(h, i) && k < |h.ring| - 1
    ensures |Merged(h, i).ring| == |h.ring| - 1 && LinkAt(Merged(h, i), k)
  {
    MergeSorted(h, i);
    TouchParts(h, i);
    assert LinkAt(h, k) && LinkAt(h, k + 1) && LinkAt(h, i) && LinkAt(h, i + 1);
    if k != i {
      assert h.ring[if k < i then k else k + 1] != h.ring[i];
    }
  }

  lemma MergeOwned(h: Heap, i: nat)
    requires Sound(h) && 1 <= i && Touch(h, i)
    requires forall x :: x in Merged(h, i).ring <==> x in h.ring && x != h.ring[i + 1]
    ensures LiveOk(Merged(h, i)) && OwnOk(Merged(h, i))
  {
    hide Sorted, Linked, Merged, Touch;
    TouchParts(h, i);
    var h' := Merged(h, i);
    var a, b := h.ring[i], h.ring[i + 1];
    assert a in h.ring && b in h.ring;
    MergedParts(h, i);
    assert Block(h, a) && Block(h, b);
    assert forall x :: Block(h', x) <==> Block(h, x) && x != b;
    RelabelOwned(h, h', a, b);
  }

  /** Two blocks that touch become one. */
  lemma RelabelOwned(h: Heap, h': Heap, a: nat, b: nat)
    requires OwnOk(h) && Block(h, a) && Block(h, b) && a != b && a in h.size && b in h.size && b == a + h.size[a]
    requires forall x :: Block(h', x) <==> Block(h, x) && x != b
    requires h'.size == h.size[a := h.size[a] + h.size[b]] && h'.owner.Keys == h.owner.Keys
    requires forall u | u in h.owner :: h'.owner[u] == if h.owner[u] == b then a else h.owner[u]
    ensures OwnOk(h')
  {
    hide Block, Covers, UnitOk;
    assert Covers(h, a) && Covers(h, b);
    forall u | u in h'.owner ensures UnitOk(h', u) {
      assert UnitOk(h, u);
      RelabelUnit(h, h', a, b, u);
    }
    forall c | Block(h', c) && c in h'.size ensures Covers(h', c) {
      assert Covers(h, c);
      RelabelCovers(h, h', a, b, c);
    }
  }

  lemma RelabelUnit(h: Heap, h': Heap, a: nat, b: nat, u: nat)
    requires u in h.owner && UnitOk(h, u) && Block(h, a) && a != b && a in h.size && b in h.size && b == a + h.size[a]
    requires forall x :: Block(h', x) <==> Block(h, x) && x != b
    requires h'.size == h.size[a := h.size[a] + h.size[b]] && u in h'.owner
    requires h'.owner[u] == if h.owner[u] == b then a else h.owner[u]
    ensures UnitOk(h', u)
  {
    hide Block;
  }

  lemma RelabelCovers(h: Heap, h': Heap, a: nat, b: nat, c: nat)
    requires a in h.size && b in h.size && b == a + h.size[a] && Covers(h, a) && Covers(h, b)
    requires c in h.size && Covers(h, c) && c != b
    requires h'.size == h.size[a := h.size[a] + h.size[b]] && h'.owner.Keys == h.owner.Keys
    requires forall u | u in h.owner :: h'.owner[u] == if h.owner[u] == b then a else h.owner[u]
    ensures Covers(h', c)
  {
  }

  lemma MergedParts(h: Heap, i: nat)
    requires Sorted(h.ring) && Linked(h) && LiveOk(h) && 1 <= i && Touch(h, i)
    ensures var a, b, h' := h.ring[i], h.ring[i + 1], Merged(h, i);
      && a < b && b != BASE && a !in h.live && b !in h.live && h'.live == h.live
      && h'.size == h.size[a := h.size[a] + h.size[b]]
      && h'.owner == map u | u in h.owner :: if h.owner[u] == b then a else h.owner[u]
  {
    TouchParts(h, i);
    assert h.ring[i] in h.ring && h.ring[i + 1] in h.ring;
  }

  /** The i-th free block is handed out whole. */
  ghost function Removed(h: Heap, i: nat): Heap
    requires 1 <= i < |h.ring| && h.ring[i] in h.size && h.ring[i] in h.ptr
  {
    Heap(h.size, h.ptr[h.ring[i - 1] := h.ptr[h.ring[i]]], h.ring[..i] + h.ring[i + 1..],
         h.live[h.ring[i] := h.size[h.ring[i]]], h.owner)
  }

  lemma RemoveKeeps(h: Heap, i: nat)
    requires Sound(h) && 1 <= i < |h.ring| && h.ring[i] in h.size && h.ring[i] in h.ptr
    ensures Sound(Removed(h, i)) && (Apart(h) ==> Apart(Removed(h, i)))
  {
    hide OwnOk, Linked, Touch, LiveOk;
    var h' := Removed(h, i);
    var r, b := h'.ring, h.ring[i];
    assert forall k | 0 <= k < |h.ring| - 1 :: r[k] == if k < i then h.ring[k] else h.ring[k + 1];
    forall k | 0 <= k < |r| ensures LinkAt(h', k) {
      RemoveLinkAt(h, i, k);
    }
    LinkedIf(h');
    forall x ensures x in r <==> x in h.ring && x != b {
      RemovedIn(h, i, x);
    }
    FreeSize(h, i);
    RemovedOwned(h, h', b);
    if Apart(h) {
      forall k | 0 <= k < |r| ensures !Touch(h', k) {
        RemoveApart(h, i, k);
      }
    }
  }

  lemma FreeSize(h: Heap, i: nat)
    requires Sorted(h.ring) && Linked(h) && 1 <= i < |h.ring|
    ensures h.ring[i] in h.size && h.size[h.ring[i]] > 0 && h.ring[i] in h.ring && h.ring[i] > BASE && h.ring[i] in h.ptr
  {
    assert LinkAt(h, i);
  }

  lemma RemoveLinkAt(h: Heap, i: nat, k: nat)
    requires Sorted(h.ring) && Linked(h) && 1 <= i < |h.ring| && k < |h.ring| - 1
    requires h.ring[i] in h.size && h.ring[i] in h.ptr
    ensures |Removed(h, i).ring| == |h.ring| - 1 && LinkAt(Removed(h, i), k)
  {
    hide Removed;
    RemovedAt(h, i, k);
    RemovedAt(h, i, Nx(k, |h.ring| - 1));
    assert LinkAt(h, k) && LinkAt(h, k + 1) && LinkAt(h, i);
    if k != i - 1 {
      assert h.ring[if k < i then k else k + 1] != h.ring[i - 1];
    }
  }

  lemma RemovedAt(h: Heap, i: nat, k: nat)
    requires 1 <= i < |h.ring| && h.ring[i] in h.size && h.ring[i] in h.ptr && k < |h.ring| - 1
    ensures |Removed(h, i).ring| == |h.ring| - 1 && Removed(h, i).size == h.size
    ensures Removed(h, i).ptr == h.ptr[h.ring[i - 1] := h.ptr[h.ring[i]]]
    ensures Removed(h, i).ring[k] == if k < i then h.ring[k] else h.ring[k + 1]
  {
  }

  lemma RemovedIn(h: Heap, i: nat, x: nat)
    requires Sorted(h.ring) && 1 <= i < |h.ring|
    ensures x in h.ring[..i] + h.ring[i + 1..] <==> x in h.ring && x != h.ring[i]
  {
    assert h.ring == h.ring[..i] + [h.ring[i]] + h.ring[i + 1..];
  }

  lemma RemovedOwned(h: Heap, h': Heap, b: nat)
    requires LiveOk(h) && OwnOk(h) && b in h.ring && b > BASE && b in h.size && h.size[b] > 0
    requires h'.size == h.size && h'.owner == h.owner && h'.live == h.live[b := h.size[b]]
    requires forall x :: x in h'.ring <==> x in h.ring && x != b
    ensures LiveOk(h') && OwnOk(h')
  {
    assert forall x :: Block(h', x) <==> Block(h, x);
    SameUnits(h, h');
  }

  lemma SameUnits(h: Heap, h': Heap)
    requires OwnOk(h) && h'.size == h.size && h'.owner == h.owner && forall x :: Block(h', x) <==> Block(h, x)
    ensures OwnOk(h')
  {
    hide Block;
    forall u | u in h'.owner ensures UnitOk(h', u) {
      assert UnitOk(h, u);
    }
    forall c | Block(h', c) && c in h'.size ensures Covers(h', c) {
      assert Covers(h, c);
    }
  }

  /** A free block ends where the next one begins, or before. */
  lemma Follows(h: Heap, i: nat, j: nat)
    requires Sound(h) && 1 <= i < j < |h.ring|
    ensures h.ring[i] in h.size && h.ring[i] + h.size[h.ring[i]] <= h.ring[j]
  {
    FreeSize(h, i);
    FreeSize(h, j);
    Disjoint(h, h.ring[i], h.ring[j]);
  }

  lemma Disjoint(h: Heap, a: nat, b: nat)
    requires OwnOk(h) && Block(h, a) && Block(h, b) && a in h.size && b in h.size && a < b && h.size[b] > 0
    ensures a + h.size[a] <= b
  {
    hide Block;
    assert Covers(h, a) && Covers(h, b);
    var owned := b in h.owner && h.owner[b] == a;
  }

  lemma RemoveApart(h: Heap, i: nat, k: nat)
    requires Sound(h) && Apart(h) && 1 <= i < |h.ring| && h.ring[i] in h.size && h.ring[i] in h.ptr && k < |h.ring| - 1
    ensures !Touch(Removed(h, i), k)
  {
    hide OwnOk;
    var r := Removed(h, i).ring;
    assert forall j | 0 <= j < |h.ring| - 1 :: r[j] == if j < i then h.ring[j] else h.ring[j + 1];
    assert !Touch(h, k) && !Touch(h, k + 1) && LinkAt(h, k) && LinkAt(h, k + 1);
    if k == i - 1 && i + 1 < |h.ring| {
      assert LinkAt(h, i + 1) && h.ring[k] < h.ring[i] < h.ring[i + 1];
      if k >= 1 {
        Follows(h, k, i);
      }
    } else if k + 2 < |h.ring| {
      assert LinkAt(h, k + 2);
    }
  }

  /** The upper n units of the i-th free block are handed out. */
  ghost function Carved(h: Heap, i: nat, n: nat): Heap
    requires 1 <= i < |h.ring| && h.ring[i] in h.size && n < h.size[h.ring[i]]
  {
    var a := h.ring[i];
    var b := a + (h.size[a] - n);
    Heap(h.size[a := h.size[a] - n][b := n], h.ptr, h.ring, h.live[b := n],
         map u | u in h.owner :: if h.owner[u] == a && u >= b then b else h.owner[u])
  }

  lemma CarveKeeps(h: Heap, i: nat, n: nat)
    requires Sound(h) && Apart(h) && 1 <= i < |h.ring| && h.ring[i] in h.size && 0 < n < h.size[h.ring[i]]
    ensures Sound(Carved(h, i, n)) && Apart(Carved(h, i, n))
    ensures h.ring[i] + (h.size[h.ring[i]] - n) !in h.live
  {
    hide OwnOk, Apart;
    var h' := Carved(h, i, n);
    var a := h.ring[i];
    var b := a + (h.size[a] - n);
    FreeSize(h, i);
    InsideBlock(h, a, b);
    forall k | 0 <= k < |h'.ring| ensures LinkAt(h', k) {
      assert LinkAt(h, k) && h.ring[k] in h.ring;
      assert k != i ==> h.ring[k] != a;
    }
    CarvedOwned(h, h', a, b, n);
    CarvedApart(h, h', i, b, n);
  }

  /** No block starts strictly inside another. */
  lemma InsideBlock(h: Heap, a: nat, b: nat)
    requires Sorted(h.ring) && Linked(h) && LiveOk(h) && OwnOk(h) && Block(h, a) && a in h.size && a < b < a + h.size[a]
    requires a > BASE
    ensures b !in h.ring && b !in h.live
  {
    hide OwnOk;
    forall k | 0 <= k < |h.ring| ensures h.ring[k] != b {
      assert LinkAt(h, k);
      if k >= 1 && h.ring[k] > a {
        assert h.ring[k] in h.ring;
        Disjoint(h, a, h.ring[k]);
      }
    }
    if b in h.live {
      Disjoint(h, a, b);
    }
  }

  lemma CarvedOwned(h: Heap, h': Heap, a: nat, b: nat, n: nat)
    requires LiveOk(h) && OwnOk(h) && a in h.ring && a > BASE && a in h.size && 0 < n < h.size[a] && b == a + (h.size[a] - n)
    requires b !in h.ring && b !in h.live
    requires h'.ring == h.ring && h'.live == h.live[b := n] && h'.size == h.size[a := h.size[a] - n][b := n]
    requires h'.owner == map u | u in h.owner :: if h.owner[u] == a && u >= b then b else h.owner[u]
    ensures LiveOk(h') && OwnOk(h')
  {
    hide OwnOk;
    assert Block(h, a) && !Block(h, b);
    assert forall x :: Block(h', x) <==> Block(h, x) || x == b;
    CarvedUnits(h, h', a, b, n);
  }

  lemma CarvedUnits(h: Heap, h': Heap, a: nat, b: nat, n: nat)
    requires OwnOk(h) && Block(h, a) && !Block(h, b) && a in h.size && 0 < n < h.size[a] && b == a + (h.size[a] - n)
    requires forall x :: Block(h', x) <==> Block(h, x) || x == b
    requires h'.size == h.size[a := h.size[a] - n][b := n] && h'.owner.Keys == h.owner.Keys
    requires forall u | u in h.owner :: h'.owner[u] == if h.owner[u] == a && u >= b then b else h.owner[u]
    ensures OwnOk(h')
  {
    hide Block, Covers, UnitOk;
    assert Covers(h, a);
    forall u | u in h'.owner ensures UnitOk(h', u) {
      assert UnitOk(h, u);
      CarvedUnit(h, h', a, b, n, u);
    }
    forall c | Block(h', c) && c in h'.size ensures Covers(h', c) {
      if c != b {
        assert Covers(h, c);
      }
      CarvedCovers(h, h', a, b, n, c);
    }
  }

  lemma CarvedUnit(h: Heap, h': Heap, a: nat, b: nat, n: nat, u: nat)
    requires u in h.owner && UnitOk(h, u) && !Block(h, b) && a in h.size && 0 < n < h.size[a] && b == a + (h.size[a] - n)
    requires forall x :: Block(h', x) <==> Block(h, x) || x == b
    requires h'.size == h.size[a := h.size[a] - n][b := n] && u in h'.owner
    requires h'.owner[u] == if h.owner[u] == a && u >= b then b else h.owner[u]
    ensures UnitOk(h', u)
  {
    hide Block;
  }

  lemma CarvedCovers(h: Heap, h': Heap, a: nat, b: nat, n: nat, c: nat)
    requires a in h.size && 0 < n < h.size[a] && b == a + (h.size[a] - n) && Covers(h, a)
    requires c == b || (c in h.size && Covers(h, c))
    requires h'.size == h.size[a := h.size[a] - n][b := n] && h'.owner.Keys == h.owner.Keys
    requires forall u | u in h.owner :: h'.owner[u] == if h.owner[u] == a && u >= b then b else h.owner[u]
    ensures Covers(h', c)
  {
  }

  lemma CarvedApart(h: Heap, h': Heap, i: nat, b: nat, n: nat)
    requires Sorted(h.ring) && Linked(h) && Apart(h) && 1 <= i < |h.ring| && h.ring[i] in h.size && 0 < n < h.size[h.ring[i]]
    requires b !in h.ring && h'.ring == h.ring && h'.ptr == h.ptr && b == h.ring[i] + (h.size[h.ring[i]] - n)
    requires h'.size == h.size[h.ring[i] := h.size[h.ring[i]] - n][b := n]
    ensures Apart(h')
  {
    forall k | 0 <= k < |h'.ring| ensures !Touch(h', k) {
      assert !Touch(h, k) && LinkAt(h, k);
      if k + 1 < |h.ring| {
        assert LinkAt(h, k + 1) && h.ring[k + 1] in h.ring && h.ring[k] in h.ring;
        if k == i {
          assert h'.ring[k] + h'.size[h'.ring[k]] == b;
        }
      }
    }
  }

  /** sbrk gives a stretch of units above all others, as one block to be freed. */
  ghost function Granted(h: Heap, b: nat, n: nat): Heap {
    Heap(h.size[b := n], h.ptr, h.ring, h.live[b := n],
         map u | u in h.owner.Keys + Stretch(b, n) :: if u in h.owner then h.owner[u] else b)
  }

  ghost function Stretch(b: nat, n: nat): (r: set<nat>)
    ensures forall u :: u in r <==> b <= u < b + n
  {
    if n == 0 then {} else Stretch(b, n - 1) + {b + n - 1}
  }

  lemma GrantKeeps(h: Heap, b: nat, n: nat)
    requires Sound(h) && Apart(h) && b > BASE && n > 0 && forall u | u in h.owner :: u < b
    ensures b !in h.live && b !in h.ring
    ensures Sound(Granted(h, b, n)) && Apart(Granted(h, b, n)) && Granted(h, b, n).owner.Keys == h.owner.Keys + Stretch(b, n)
  {
    hide OwnOk;
    forall c: nat | Block(h, c) && c in h.size && h.size[c] > 0 ensures c < b {
      BlockUnit(h, c);
    }
    forall k | 0 <= k < |h.ring| ensures h.ring[k] < b {
      assert LinkAt(h, k) && h.ring[k] in h.ring;
    }
    var h' := Granted(h, b, n);
    forall k | 0 <= k < |h.ring| ensures LinkAt(h', k) {
      assert LinkAt(h, k);
    }
    forall k | 0 <= k < |h.ring| ensures !Touch(h', k) {
      assert !Touch(h, k) && LinkAt(h, k);
      if k + 1 < |h.ring| {
        assert LinkAt(h, k + 1);
      }
    }
    GrantOwned(h, b, n);
  }

  lemma BlockUnit(h: Heap, c: nat)
    requires OwnOk(h) && Block(h, c) && c in h.size && h.size[c] > 0
    ensures c in h.owner
  {
    hide Block;
    assert Covers(h, c);
  }

  lemma GrantOwned(h: Heap, b: nat, n: nat)
    requires OwnOk(h) && b !in h.ring && b !in h.live && b > BASE && forall u | u in h.owner :: u < b
    ensures OwnOk(Granted(h, b, n))
  {
    var h' := Granted(h, b, n);
    assert forall x :: Block(h', x) <==> Block(h, x) || x == b;
    GrantUnits(h, h', b, n);
  }

  lemma GrantUnits(h: Heap, h': Heap, b: nat, n: nat)
    requires OwnOk(h) && h' == Granted(h, b, n) && forall u | u in h.owner :: u < b
    requires forall x :: Block(h', x) <==> Block(h, x) || x == b
    ensures OwnOk(h')
  {
    hide Block;
    forall u | u in h'.owner ensures UnitOk(h', u) {
      if u in h.owner {
        assert UnitOk(h, u);
      }
    }
    forall c | Block(h', c) && c in h'.size ensures Covers(h', c) {
      if c != b {
        assert Covers(h, c);
      }
    }
  }

  /** Every block handed out has its place in the ring. */
  lemma {:induction false} Place(h: Heap, b: nat, k: nat) returns (i: nat)
    requires Sorted(h.ring) && b > BASE && b !in h.ring && k < |h.ring| && h.ring[k] < b
    ensures Between(h, i, b)
    decreases |h.ring| - k
  {
    if k + 1 == |h.ring| || b < h.ring[k + 1] {
      i := k;
    } else {
      assert h.ring[k + 1] in h.ring;
      i := Place(h, b, k + 1);
    }
  }

  /** What free does to the ring: insert, join with the block above, join with the block below. */
  ghost function Returned(h: Heap, i: nat, b: nat): Heap
    requires i < |h.ring| && b in h.size
  {
    var h1 := Inserted(h, i, b);
    var h2 := if Touch(h1, i + 1) then Merged(h1, i + 1) else h1;
    if 1 <= i && Touch(h2, i) then Merged(h2, i) else h2
  }

  lemma InsertTouch(h: Heap, i: nat, b: nat, k: nat)
    requires Linked(h) && Apart(h) && i < |h.ring| && k != i && k != i + 1 && k <= |h.ring|
    ensures !Touch(Inserted(h, i, b), k)
  {
    hide Inserted;
    InsertedAt(h, i, b, k);
    InsertedPtr(h, i, b);
    if k < |h.ring| {
      InsertedAt(h, i, b, k + 1);
      assert LinkAt(h, k);
      if k < i {
        assert !Touch(h, k) && LinkAt(h, k + 1);
      } else {
        assert !Touch(h, k - 1) && LinkAt(h, k - 1);
      }
    }
  }

  lemma MergeTouch(h: Heap, i: nat, k: nat)
    requires Sorted(h.ring) && Linked(h) && 1 <= i && Touch(h, i) && k < |h.ring| - 1
    ensures Touch(Merged(h, i), k) ==> Touch(h, if k < i then k else k + 1)
  {
    MergeSorted(h, i);
    TouchParts(h, i);
    assert LinkAt(h, k) && LinkAt(h, k + 1);
    if k + 2 < |h.ring| {
      assert LinkAt(h, k + 2);
    }
    if k != i {
      assert h.ring[if k < i then k else k + 1] != h.ring[i];
    }
  }

  /** A freed block, joined with its neighbours, leaves no two free blocks touching. */
  lemma ReturnKeeps(h: Heap, i: nat, b: nat)
    requires Sound(h) && Apart(h) && b in h.live && Between(h, i, b)
    ensures b in h.size && Sound(Returned(h, i, b)) && Apart(Returned(h, i, b))
    ensures Returned(h, i, b).live == h.live - {b} && Returned(h, i, b).owner.Keys == h.owner.Keys
    ensures i < |Returned(h, i, b).ring| && Returned(h, i, b).ring[i] == h.ring[i]
    ensures exists j :: 0 <= j < |Returned(h, i, b).ring| && Returned(h, i, b).ring[j] in Returned(h, i, b).size
                        && Returned(h, i, b).size[Returned(h, i, b).ring[j]] >= h.size[b]
  {
    hide OwnOk, Linked, Touch, Inserted, Merged;
    var h1 := Inserted(h, i, b);
    InsertKeeps(h, i, b);
    InsertedParts(h, i, b);
    forall k | 0 <= k < |h1.ring| && k != i && k != i + 1 ensures !Touch(h1, k) {
      InsertTouch(h, i, b, k);
    }
    var h2 := h1;
    if Touch(h1, i + 1) {
      TouchParts(h1, i + 1);
      JoinKeeps(h1, i + 1, i);
      h2 := Merged(h1, i + 1);
    }
    assert forall k | 0 <= k < |h2.ring| && k != i :: !Touch(h2, k);
    var h3 := h2;
    if 1 <= i && Touch(h2, i) {
      TouchParts(h2, i);
      JoinKeeps(h2, i, i);
      h3 := Merged(h2, i);
    } else if i == 0 {
      BaseApart(h2);
    }
    assert h3 == Returned(h, i, b);
  }

  lemma BaseApart(h: Heap)
    requires Sorted(h.ring) && Linked(h)
    ensures !Touch(h, 0)
  {
    assert LinkAt(h, 0);
  }

  lemma InsertedParts(h: Heap, i: nat, b: nat)
    requires i < |h.ring|
    ensures var h1 := Inserted(h, i, b);
      && |h1.ring| == |h.ring| + 1 && h1.ring[i] == h.ring[i] && h1.ring[i + 1] == b && h1.size == h.size
      && h1.live == h.live - {b} && h1.owner == h.owner
  {
    InsertedAt(h, i, b, i);
    InsertedAt(h, i, b, i + 1);
  }

  /** Joining at j when only i and j touch leaves at most i touching. */
  lemma JoinKeeps(h: Heap, j: nat, i: nat)
    requires Sound(h) && 1 <= j && Touch(h, j) && (j == i || j == i + 1)
    requires forall k | 0 <= k < |h.ring| && k != i && k != j :: !Touch(h, k)
    ensures Sound(Merged(h, j)) && |Merged(h, j).ring| == |h.ring| - 1 && j + 1 < |h.ring|
    ensures forall k | 0 <= k < |h.ring| - 1 && (j == i || k != i) :: !Touch(Merged(h, j), k)
    ensures Merged(h, j).live == h.live && Merged(h, j).owner.Keys == h.owner.Keys
    ensures forall k | 0 <= k <= j :: Merged(h, j).ring[k] == h.ring[k]
    ensures h.ring[j] in h.size && h.ring[j] in Merged(h, j).size && h.ring[j + 1] in h.size
    ensures Merged(h, j).size[h.ring[j]] >= h.size[h.ring[j]] && Merged(h, j).size[h.ring[j]] >= h.size[h.ring[j + 1]]
  {
    hide OwnOk, Linked, LiveOk;
    TouchParts(h, j);
    MergeKeeps(h, j);
    MergeSorted(h, j);
    forall k | 0 <= k < |h.ring| - 1 && (j == i || k != i) ensures !Touch(Merged(h, j), k) {
      MergeTouch(h, j, k);
    }
  }
}
