/** malloc and free of the user library (section 8.7 of The C Programming Language, 2nd ed.). Addresses
    are in units of one header; a header is 16 bytes.
 */
module Umalloc {
  import opened Collections
  import opened FreeRing

  /** What malloc comes to: a block, no memory, or a request so large that the argument of sbrk, a C int,
      does not hold its size, so that the header claims units that sbrk did not give. */
  datatype Result = Ptr(a: nat) | NoMemory | Overclaim

  /** The number of units for a request, its header's included; the source computes it in 64 bits. The
      bytes fit, and less than a unit is lost. */
  function Units(nbytes: nat): (r: nat)
    ensures r > 0 && nbytes <= (r - 1) * 16 < nbytes + 16
  {
    (nbytes + 15) / 16 + 1
  }

  /** The value of a C int that is given a larger number. */
  function ToInt(x: nat): int {
    var m := x % 0x1_0000_0000;
    if m < 0x8000_0000 then m else m - 0x1_0000_0000
  }

  /** morecore asks for at least 4096 units. */
  function CoreUnits(nu: nat): (r: nat)
    ensures r >= nu && r >= 4096 && (r == nu || r == 4096)
  {
    if nu < 4096 then 4096 else nu
  }

  /** sbrk is asked for what the header will claim exactly if the request is at most 2^31 - 32 bytes. */
  lemma GrantExact(nbytes: nat)
    requires nbytes < 0x1_0000_0000
    ensures ToInt(CoreUnits(Units(nbytes)) * 16) == CoreUnits(Units(nbytes)) * 16 <==> nbytes <= 0x7fff_ffe0
  {
  }

  /** One byte more, and sbrk is asked to shrink by 2^31 bytes while the header claims 2^27 units. */
  lemma GrantFallsShort()
    ensures CoreUnits(Units(0x7fff_ffe1)) == 0x800_0000 && ToInt(CoreUnits(Units(0x7fff_ffe1)) * 16) == -0x8000_0000
  {
  }

  /** Steps around a ring of n from just behind k. */
  function Idx(k: nat, s: nat, n: nat): nat {
    if k + 1 + s < n then k + 1 + s else k + 1 + s - n
  }

  class Allocator {
    /** 0 before the first malloc. */
    var freep: nat
    var size: map<nat, nat>
    var ptr: map<nat, nat>
    ghost var ring: seq<nat>
    ghost var live: map<nat, nat>
    ghost var owner: map<nat, nat>

    ghost function H(): Heap
      reads this
    {
      Heap(size, ptr, ring, live, owner)
    }

    /** The ring is sorted and linked, no two free blocks touch, and free and live blocks account for
        every unit obtained from sbrk. */
    ghost predicate Valid()
      reads this
    {
      if freep == 0 then live == map[] && owner == map[]
      else Sound(H()) && Apart(H()) && freep in ring
    }

    constructor ()
      ensures Valid() && live == map[] && owner == map[]
    {
      freep, size, ptr, ring, live, owner := 0, map[], map[], [], map[], map[];
    }

    /** Return a block handed out to the ring, joined with the blocks it touches. */
    method Free(bp: nat)
      requires Valid() && bp in live
      modifies this
      ensures Valid() && freep != 0 && live == old(live) - {bp} && owner.Keys == old(owner).Keys
      ensures exists b :: b in ring && b in size && size[b] >= old(live)[bp]
    {
      hide OwnOk, LiveOk, Linked, Touch, Returned, Sorted, Between, JoinedSize, JoinedPtr, Apart;
      ghost var h := H();
      LiveFacts(h, bp);
      var p, k := FindPlace(bp);
      ReturnKeeps(h, k, bp);
      JoinFacts(h, k, bp);
      Join(p, bp);
      freep := p;
      ghost var r := Returned(h, k, bp);
      ring, live, owner := r.ring, r.live, r.owner;
      assert H() == r;
      SoundPositive(r);
      assert freep in ring;
    }

    /** Ask the system for more memory; `core` is what sbrk returns. The new stretch lies above all memory
        obtained before. */
    method Morecore(nu: nat, core: Option<nat>) returns (r: Result)
      requires freep != 0 && Valid()
      requires core.Some? ==> core.value > BASE && forall u | u in owner :: u < core.value
      modifies this
      ensures r.NoMemory? <==> core.None?
      ensures r.Overclaim? <==> core.Some? && ToInt(CoreUnits(nu) * 16) != CoreUnits(nu) * 16
      ensures !r.Ptr? ==> H() == old(H()) && freep == old(freep)
      ensures r.Ptr? ==>
        && r.a == freep != 0 && Valid() && live == old(live)
        && owner.Keys == old(owner).Keys + Stretch(core.value, CoreUnits(nu))
        && exists b :: b in ring && b in size && size[b] >= nu
    {
      hide Sound, Apart;
      var n := CoreUnits(nu);
      if core.None? {
        return NoMemory;
      }
      if ToInt(n * 16) != n * 16 {
        return Overclaim;
      }
      var hp := core.value;
      GrantKeeps(H(), hp, n);
      ghost var g := Granted(H(), hp, n);
      size := size[hp := n];
      live, owner := g.live, g.owner;
      assert H() == g;
      Free(hp);
      assert live == old(live);
      return Ptr(freep);
    }

    /** Find a free block that is large enough, after asking for more memory at most once, and hand out
        all of it or its upper part. */
    method Malloc(nbytes: nat, core: Option<nat>) returns (r: Result, ghost grew: bool)
      requires Valid() && nbytes < 0x1_0000_0000
      requires core.Some? ==> core.value > BASE && forall u | u in owner :: u < core.value
      modifies this
      ensures r.Ptr? ==> Valid() && r.a !in old(live) && live == old(live)[r.a := Units(nbytes)]
      ensures !r.Ptr? ==> Valid() && live == old(live) && owner == old(owner)
      ensures grew <==> old(freep) == 0 || forall b | b in old(ring) && b in old(size) :: old(size)[b] < Units(nbytes)
      ensures r.NoMemory? <==> grew && core.None?
      ensures r.Overclaim? <==> grew && core.Some? && nbytes > 0x7fff_ffe0
      ensures r.Ptr? ==>
        owner.Keys == if grew then old(owner).Keys + Stretch(core.value, CoreUnits(Units(nbytes))) else old(owner).Keys
    {
      hide Sound, Apart, Block;
      GrantExact(nbytes);
      var nunits := Units(nbytes);
      Start();
      var p, prevp, found, i := Search(nunits);
      grew := !found;
      if !found {
        r := Morecore(nunits, core);
        if !r.Ptr? {
          return;
        }
        p, prevp, found, i := Search(nunits);
        assert found;
      }
      r := TakeBlock(i, p, prevp, nunits);
    }

    /** malloc's loop, from freep to where it finds a block that is large enough or is back at freep. The
        source goes round the same loop again after morecore. */
    method Search(nunits: nat) returns (p: nat, prevp: nat, found: bool, ghost i: nat)
      requires Valid() && freep != 0 && nunits > 0
      ensures found ==> i < |ring| && p == ring[i] && prevp == ring[Pv(i, |ring|)] && p in ring && p in ptr && p in size && size[p] >= nunits
      ensures !found ==> forall b | b in ring && b in size :: size[b] < nunits
    {
      hide Sound, Apart, Valid, Idx;
      prevp := freep;
      ghost var k := FreepIndex();
      SortedRing(H());
      RingAround(H(), k, 0);
      p := ptr[prevp];
      i := Idx(k, 0, |ring|);
      ghost var s := 0;
      while true
        invariant 0 <= s < |ring| && i == Idx(k, s, |ring|) && 0 <= i < |ring| && p == ring[i] && prevp == ring[Pv(i, |ring|)]
        invariant p in size && p in ptr && ptr[p] == ring[Nx(i, |ring|)]
        invariant forall t | 0 <= t < s :: Small(H(), Idx(k, t, |ring|), nunits)
        decreases |ring| - s
      {
        if size[p] >= nunits {
          return p, prevp, true, i;
        }
        if p == freep {
          LastStep(ring, k, s, i);
          AllSmall(H(), k, nunits);
          return p, prevp, false, i;
        }
        MoreSteps(ring, k, s, i);
        s := s + 1;
        RingAround(H(), k, s);
        i := Idx(k, s, |ring|);
        prevp := p;
        p := ptr[p];
      }
    }

    /** The first malloc makes the ring of the degenerate block alone. */
    method Start()
      requires Valid()
      modifies this
      ensures Valid() && freep != 0 && live == old(live) && owner == old(owner)
      ensures old(freep) != 0 ==> H() == old(H()) && freep == old(freep)
      ensures old(freep) == 0 ==> ring == [BASE] && BASE in size && size[BASE] == 0
    {
      if freep == 0 {
        freep := BASE;
        ptr, size, ring := map[BASE := BASE], map[BASE := 0], [BASE];
        FirstRing(H());
      }
    }

    /** malloc's way with a block that is large enough. */
    method TakeBlock(ghost i: nat, p: nat, prevp: nat, nunits: nat) returns (r: Result)
      requires Valid() && freep != 0 && i < |ring| && ring[i] == p && prevp == ring[Pv(i, |ring|)] && nunits > 0
      requires p in size && p in ptr && size[p] >= nunits
      modifies this
      ensures Valid() && r.Ptr? && r.a !in old(live) && live == old(live)[r.a := nunits] && owner.Keys == old(owner).Keys
    {
      hide OwnOk, LiveOk, Linked, Touch, Apart, Removed, Carved, Sorted;
      ghost var h := H();
      NotBase(h, i);
      if size[p] == nunits {
        RemoveKeeps(h, i);
        ghost var g := Removed(h, i);
        RemovedFacts(h, i);
        ptr := ptr[prevp := ptr[p]];
        ring, live := g.ring, g.live;
        assert H() == g;
        r := Ptr(p);
      } else {
        CarveKeeps(h, i, nunits);
        ghost var g := Carved(h, i, nunits);
        CarvedFacts(h, i, nunits);
        size := size[p := size[p] - nunits];
        var q := p + size[p];
        size := size[q := nunits];
        live, owner := g.live, g.owner;
        assert H() == g;
        r := Ptr(q);
      }
      freep := prevp;
      SoundPositive(H());
    }

    lemma FreepIndex() returns (k: nat)
      requires Valid() && freep != 0
      ensures k < |ring| && ring[k] == freep && Sound(H())
    {
      k := IndexOf(ring, freep);
    }

    /** The loop of free: the free block behind which a block belongs. */
    method FindPlace(bp: nat) returns (p: nat, ghost k: nat)
      requires freep != 0 && Valid() && bp in live
      ensures Between(H(), k, bp) && k < |ring| && p == ring[k]
    {
      hide OwnOk, LiveOk, Linked, Touch, Sorted, Between, Apart;
      LiveFacts(H(), bp);
      k := Place(H(), bp, 0);
      ghost var i := IndexOf(ring, freep);
      p := freep;
      RingStep(H(), i, k, bp);
      while !(bp > p && bp < ptr[p])
        invariant 0 <= i < |ring| && p == ring[i] && p in ptr && p in size
        invariant ptr[p] == ring[Nx(i, |ring|)] && k < |ring|
        invariant bp > p && bp < ptr[p] ==> i == k
        invariant p >= ptr[p] && (bp > p || bp < ptr[p]) ==> i == k
        invariant i == k ==> (bp > p && bp < ptr[p]) || (p >= ptr[p] && bp > p)
        decreases if i <= k then k - i else |ring| - i + k
      {
        if p >= ptr[p] && (bp > p || bp < ptr[p]) {
          break;
        }
        p := ptr[p];
        i := Nx(i, |ring|);
        RingStep(H(), i, k, bp);
      }
    }

    /** The rest of free: link the block in and join it with its neighbours. */
    method Join(p: nat, bp: nat)
      requires p in ptr && p in size && bp in size && ptr[p] in ptr && ptr[p] in size && p != bp && ptr[p] != bp
      modifies this`size, this`ptr
      ensures size == JoinedSize(old(size), p, old(ptr[p]), bp)
      ensures ptr == JoinedPtr(old(size), old(ptr), p, old(ptr[p]), bp)
    {
      if bp + size[bp] == ptr[p] {
        size := size[bp := size[bp] + size[ptr[p]]];
        ptr := ptr[bp := ptr[ptr[p]]];
      } else {
        ptr := ptr[bp := ptr[p]];
      }
      if p + size[p] == bp {
        size := size[p := size[p] + size[bp]];
        ptr := ptr[p := ptr[bp]];
      } else {
        ptr := ptr[p := bp];
      }
    }
  }

  /** The sizes and links after a block b is joined with p below and q above, where it touches them. */
  ghost function JoinedSize(size: map<nat, nat>, p: nat, q: nat, b: nat): map<nat, nat>
    requires p in size && q in size && b in size
  {
    var s1 := if b + size[b] == q then size[b := size[b] + size[q]] else size;
    if p + s1[p] == b then s1[p := s1[p] + s1[b]] else s1
  }

  ghost function JoinedPtr(size: map<nat, nat>, ptr: map<nat, nat>, p: nat, q: nat, b: nat): map<nat, nat>
    requires p in size && q in size && b in size && q in ptr
  {
    var t1 := ptr[b := if b + size[b] == q then ptr[q] else q];
    if p != b && p + size[p] == b then t1[p := t1[b]] else t1[p := b]
  }

  lemma SoundPositive(h: Heap)
    requires Sound(h)
    ensures BASE in h.ring && forall k | 0 <= k < |h.ring| :: h.ring[k] > 0 && h.ring[k] in h.ring
  {
  }

  lemma SortedRing(h: Heap)
    requires Sound(h)
    ensures Sorted(h.ring)
  {
  }

  function Pv(i: nat, n: nat): nat
    requires n > 0
  {
    if i == 0 then n - 1 else i - 1
  }

  ghost predicate Small(h: Heap, i: nat, n: nat) {
    i < |h.ring| && h.ring[i] in h.size && h.size[h.ring[i]] < n
  }

  lemma FirstRing(h: Heap)
    requires h.ring == [BASE] && h.ptr == map[BASE := BASE] && h.size == map[BASE := 0] && h.live == map[] && h.owner == map[]
    ensures Sound(h) && Apart(h)
  {
    assert LinkAt(h, 0);
    assert forall b: nat :: !Block(h, b);
  }

  lemma NotBase(h: Heap, i: nat)
    requires Sound(h) && i < |h.ring| && h.ring[i] in h.size && h.size[h.ring[i]] > 0
    ensures 1 <= i && h.ring[i] !in h.live && h.ring[i - 1] in h.ring
  {
    hide OwnOk;
    assert LinkAt(h, i) && h.ring[i] in h.ring;
  }

  lemma RemovedFacts(h: Heap, i: nat)
    requires Sorted(h.ring) && 1 <= i < |h.ring| && h.ring[i] in h.size && h.ring[i] in h.ptr
    ensures var g := Removed(h, i);
      && g.size == h.size && g.ptr == h.ptr[h.ring[i - 1] := h.ptr[h.ring[i]]] && g.owner == h.owner
      && g.live == h.live[h.ring[i] := h.size[h.ring[i]]] && h.ring[i - 1] in g.ring
  {
    assert Removed(h, i).ring[i - 1] == h.ring[i - 1];
  }

  lemma CarvedFacts(h: Heap, i: nat, n: nat)
    requires 1 <= i < |h.ring| && h.ring[i] in h.size && n < h.size[h.ring[i]]
    ensures var g, a := Carved(h, i, n), h.ring[i];
      && g.size == h.size[a := h.size[a] - n][a + (h.size[a] - n) := n] && g.ptr == h.ptr && g.ring == h.ring
      && g.live == h.live[a + (h.size[a] - n) := n] && g.owner.Keys == h.owner.Keys
  {
  }

  /** The block s steps behind k, its header and its predecessor's. */
  lemma RingAround(h: Heap, k: nat, s: nat)
    requires Sound(h) && k < |h.ring| && s < |h.ring|
    ensures var i := Idx(k, s, |h.ring|);
      && 0 <= i < |h.ring| && h.ring[i] in h.size && h.ring[i] in h.ptr && h.ptr[h.ring[i]] == h.ring[Nx(i, |h.ring|)]
      && h.ring[Pv(i, |h.ring|)] in h.ptr && h.ptr[h.ring[Pv(i, |h.ring|)]] == h.ring[i]
      && Pv(i, |h.ring|) == (if s == 0 then k else Idx(k, s - 1, |h.ring|))
  {
    hide OwnOk;
    assert LinkAt(h, Idx(k, s, |h.ring|)) && LinkAt(h, Pv(Idx(k, s, |h.ring|), |h.ring|));
  }

  /** Coming to freep means having been everywhere. */
  lemma LastStep(ring: seq<nat>, k: nat, s: nat, i: nat)
    requires Sorted(ring) && k < |ring| && s < |ring| && i == Idx(k, s, |ring|) && i < |ring| && ring[i] == ring[k]
    ensures s == |ring| - 1 && i == k
  {
  }

  lemma MoreSteps(ring: seq<nat>, k: nat, s: nat, i: nat)
    requires k < |ring| && s < |ring| && i == Idx(k, s, |ring|) && i < |ring| && ring[i] != ring[k]
    ensures s + 1 < |ring|
  {
  }

  lemma AllSmall(h: Heap, k: nat, n: nat)
    requires k < |h.ring| && forall t | 0 <= t < |h.ring| :: Small(h, Idx(k, t, |h.ring|), n)
    ensures forall b | b in h.ring && b in h.size :: h.size[b] < n
  {
    forall b | b in h.ring && b in h.size ensures h.size[b] < n {
      var m := IndexOf(h.ring, b);
      assert Small(h, Idx(k, if m > k then m - k - 1 else m + |h.ring| - k - 1, |h.ring|), n);
    }
  }

  lemma IndexOf(ring: seq<nat>, x: nat) returns (i: nat)
    requires x in ring
    ensures i < |ring| && ring[i] == x
  {
    i :| 0 <= i < |ring| && ring[i] == x;
  }

  lemma LiveFacts(h: Heap, b: nat)
    requires Sound(h) && b in h.live
    ensures Sorted(h.ring) && b > BASE && b !in h.ring && b in h.size && h.size[b] == h.live[b] > 0 && |h.ring| > 0 && h.ring[0] < b
  {
  }

  /** The loop of free stops exactly at the block's place. */
  lemma RingStep(h: Heap, i: nat, k: nat, b: nat)
    requires Sorted(h.ring) && Linked(h) && i < |h.ring| && Between(h, k, b) && b > BASE
    ensures k < |h.ring| && h.ring[i] in h.ptr && h.ring[i] in h.size && h.ptr[h.ring[i]] == h.ring[Nx(i, |h.ring|)]
    ensures b > h.ring[i] && b < h.ptr[h.ring[i]] ==> i == k
    ensures h.ring[i] >= h.ptr[h.ring[i]] && (b > h.ring[i] || b < h.ptr[h.ring[i]]) ==> i == k
    ensures i == k ==>
      || (b > h.ring[i] && b < h.ptr[h.ring[i]])
      || (h.ring[i] >= h.ptr[h.ring[i]] && b > h.ring[i])
  {
    assert LinkAt(h, i);
  }

  /** The headers after free has joined a block with its neighbours. */
  lemma JoinFacts(h: Heap, i: nat, b: nat)
    requires Sound(h) && b in h.live && Between(h, i, b)
    ensures i < |h.ring| && b in h.size && h.ring[i] in h.size && h.ring[i] in h.ptr && b != h.ring[i]
    ensures var p := h.ring[i]; var q := h.ptr[p];
      && q in h.ptr && q in h.size && q != b
      && Returned(h, i, b).size == JoinedSize(h.size, p, q, b)
      && Returned(h, i, b).ptr == JoinedPtr(h.size, h.ptr, p, q, b)
  {
    hide OwnOk, LiveOk, Linked, Sorted, Inserted, Between;
    RingFacts(h, i, b);
    InsertKeeps(h, i, b);
    var h1 := Inserted(h, i, b);
    var h2 := if Touch(h1, i + 1) then Merged(h1, i + 1) else h1;
    UpFacts(h, i, b, h2);
    var p := h.ring[i];
    var q := h.ptr[p];
    LastJoin(h, h2, i, p, q, b);
  }

  lemma LastJoin(h: Heap, h2: Heap, i: nat, p: nat, q: nat, b: nat)
    requires Sound(h) && b in h.live && Between(h, i, b) && i < |h.ring| && p == h.ring[i] && p in h.size && q in h.size && b in h.size
    requires q in h.ptr && q != b && p != b
    requires h2.size == (if b + h.size[b] == q then h.size[b := h.size[b] + h.size[q]] else h.size)
    requires h2.ptr == h.ptr[b := if b + h.size[b] == q then h.ptr[q] else q][p := b]
    requires |h2.ring| > i + 1 && h2.ring[i] == p && h2.ring[i + 1] == b
    ensures var r := if 1 <= i && Touch(h2, i) then Merged(h2, i) else h2;
      r.size == JoinedSize(h.size, p, q, b) && r.ptr == JoinedPtr(h.size, h.ptr, p, q, b)
  {
    DownFacts(h, i, b, h2);
    hide Sound, Between;
  }

  lemma RingFacts(h: Heap, i: nat, b: nat)
    requires Sound(h) && b in h.live && Between(h, i, b)
    ensures i < |h.ring| && b in h.size && b > BASE && b !in h.ring && h.ring[i] in h.size && h.ring[i] in h.ptr
    ensures var q := h.ptr[h.ring[i]];
      && q in h.ptr && q in h.size && q in h.ring && q == h.ring[Nx(i, |h.ring|)]
      && (i + 1 == |h.ring| ==> q == BASE)
    ensures i == 0 ==> h.ring[i] == BASE && h.size[BASE] == 0
  {
    assert LinkAt(h, i) && LinkAt(h, Nx(i, |h.ring|));
  }

  /** Insertion and the join with the block above. */
  lemma UpFacts(h: Heap, i: nat, b: nat, h2: Heap)
    requires Sound(h) && b in h.live && Between(h, i, b) && Linked(Inserted(h, i, b)) && Sorted(Inserted(h, i, b).ring)
    requires h2 == if Touch(Inserted(h, i, b), i + 1) then Merged(Inserted(h, i, b), i + 1) else Inserted(h, i, b)
    ensures i < |h.ring| && b in h.size && h.ring[i] in h.ptr && h.ptr[h.ring[i]] in h.size && h.ptr[h.ring[i]] in h.ptr
    ensures var p := h.ring[i]; var q := h.ptr[p];
      var up := b + h.size[b] == q;
      && h2.size == (if up then h.size[b := h.size[b] + h.size[q]] else h.size)
      && h2.ptr == h.ptr[b := if up then h.ptr[q] else q][p := b]
      && |h2.ring| > i + 1 && h2.ring[i] == p && h2.ring[i + 1] == b
  {
    hide OwnOk, Inserted;
    RingFacts(h, i, b);
    InsertedParts(h, i, b);
    InsertedPtr(h, i, b);
    var h1 := Inserted(h, i, b);
    if i + 1 < |h.ring| {
      InsertedAt(h, i, b, i + 2);
      assert LinkAt(h1, i + 1) && LinkAt(h1, i + 2);
    }
    if Touch(h1, i + 1) {
      MergeSorted(h1, i + 1);
    }
  }

  /** The join with the block below. */
  lemma DownFacts(h: Heap, i: nat, b: nat, h2: Heap)
    requires Sound(h) && b in h.live && Between(h, i, b)
    requires |h2.ring| > i + 1 && h2.ring[i] == h.ring[i] && h2.ring[i + 1] == b
    requires i < |h.ring| && h.ring[i] in h.size && h.ring[i] in h2.size && h2.size[h.ring[i]] == h.size[h.ring[i]]
    requires b in h2.size && b in h2.ptr
    ensures (1 <= i && Touch(h2, i)) <==> h.ring[i] + h.size[h.ring[i]] == b
  {
    hide OwnOk;
    RingFacts(h, i, b);
  }
}
