/** The code of the virtio disk driver and of the device it talks to. */
module VirtioDisk {
  import opened Params
  import opened Blocks
  import opened Collections
  import opened Virtio

  class Disk {
    /** The driver's and the shared memory. */
    var m: Memory
    /** The data of buffers, by buffer. */
    var data: map<nat, Block>
    /** The device's own state, and its sectors. */
    var dev: Device
    var store: map<nat, Block>
    ghost var g: Book

    ghost function S(): State
      reads this
    {
      State(m, dev, g)
    }

    constructor (data: map<nat, Block>, store: map<nat, Block>)
      ensures Inv(S()) && g.reqs == map[] && g.nextId == 0 && this.data == data && this.store == store
    {
      m := Memory(seq(NUM, _ => true), seq(NUM, _ => NODESC), seq(NUM, _ => Op(false, 0)), seq(NUM, _ => Info(None, 0)), {},
                  seq(NUM, _ => 0), 0, seq(NUM, _ => 0), 0, 0);
      dev := Device(0, {});
      g := Book(map[], seq(NUM, _ => None), [], 0, [], 0, 0, []);
      this.data, this.store := data, store;
    }

    /** Find a free descriptor and mark it taken. */
    method AllocDesc() returns (i: int)
      requires |m.free| == NUM
      modifies this`m
      ensures m == old(m).(free := m.free)
      ensures i == -1 <==> forall k | 0 <= k < NUM :: !old(m).free[k]
      ensures i == -1 ==> m == old(m)
      ensures i != -1 ==> 0 <= i < NUM && old(m).free[i] && m.free == old(m).free[i := false]
    {
      i := 0;
      while i < NUM
        invariant 0 <= i <= NUM && m == old(m)
        invariant forall k | 0 <= k < i :: !m.free[k]
      {
        if m.free[i] {
          m := m.(free := m.free[i := false]);
          return;
        }
        i := i + 1;
      }
      return -1;
    }

    /** Mark a descriptor free; not ok where the source panics. */
    method FreeDesc(i: nat) returns (ok: bool)
      requires |m.free| == |m.desc| == NUM
      modifies this`m
      ensures ok <==> i < NUM && !old(m).free[i]
      ensures ok ==> m == old(m).(free := old(m).free[i := true], desc := old(m).desc[i := NODESC])
      ensures !ok ==> m == old(m)
    {
      if i >= NUM || m.free[i] {
        return false;
      }
      m := m.(desc := m.desc[i := NODESC]);
      m := m.(free := m.free[i := true]);
      return true;
    }

    /** Free the three descriptors of a chain by following it. */
    method FreeChain(h: nat, ghost d1: nat, ghost d2: nat)
      requires |m.free| == |m.desc| == NUM && h < NUM && d1 < NUM && d2 < NUM && h != d1 && h != d2 && d1 != d2
      requires !m.free[h] && !m.free[d1] && !m.free[d2]
      requires m.desc[h].more && m.desc[h].next == d1 && m.desc[d1].more && m.desc[d1].next == d2 && !m.desc[d2].more
      modifies this`m
      ensures m == old(m).(free := old(m).free[h := true][d1 := true][d2 := true],
                           desc := old(m).desc[h := NODESC][d1 := NODESC][d2 := NODESC])
    {
      var i := h;
      ghost var step := 0;
      while true
        invariant 0 <= step <= 2
        invariant step == 0 ==> i == h && m == old(m)
        invariant step == 1 ==>
          i == d1 && m == old(m).(free := old(m).free[h := true], desc := old(m).desc[h := NODESC])
        invariant step == 2 ==>
          i == d2 && m == old(m).(free := old(m).free[h := true][d1 := true], desc := old(m).desc[h := NODESC][d1 := NODESC])
        decreases 2 - step
      {
        var more, next := m.desc[i].more, m.desc[i].next;
        var ok := FreeDesc(i);
        assert ok;
        if more {
          i := next;
          step := step + 1;
        } else {
          break;
        }
      }
    }

    /** Three free descriptors, or none. */
    method Alloc3Desc() returns (ok: bool, i0: nat, i1: nat, i2: nat)
      requires |m.free| == |m.desc| == NUM
      modifies this`m
      ensures |m.desc| == NUM && forall k | 0 <= k < NUM && !old(m).free[k] :: m.desc[k] == old(m).desc[k]
      ensures !ok ==> m == old(m).(desc := m.desc) && Scarce(old(m).free)
      ensures ok ==>
        && i0 < NUM && i1 < NUM && i2 < NUM && i0 != i1 && i0 != i2 && i1 != i2
        && old(m).free[i0] && old(m).free[i1] && old(m).free[i2]
        && m == old(m).(free := old(m).free[i0 := false][i1 := false][i2 := false])
    {
      i0, i1, i2 := 0, 0, 0;
      var a := AllocDesc();
      if a < 0 {
        return false, 0, 0, 0;
      }
      var b := AllocDesc();
      if b < 0 {
        var freed := FreeDesc(a);
        assert freed && m.free == old(m).free;
        return false, 0, 0, 0;
      }
      var c := AllocDesc();
      if c < 0 {
        var freed := FreeDesc(a);
        assert freed;
        freed := FreeDesc(b);
        assert freed && m.free == old(m).free;
        return false, 0, 0, 0;
      }
      return true, a, b, c;
    }

    /** virtio_disk_rw up to its wait for the buffer: post a request, or sleep for want of descriptors
        (None). The caller holds the buffer, so it is in no other request. */
    method Rw(b: nat, blockno: nat, write: bool) returns (head: Option<nat>)
      requires Inv(S()) && forall h | h in g.reqs :: g.reqs[h].buf != b
      modifies this`m, this`g
      ensures Inv(S())
      ensures head.None? ==> g == old(g) && m == old(m).(desc := m.desc) && Scarce(old(m).free)
      ensures head.Some? ==>
        && head.value !in old(g).reqs && head.value in g.reqs && b in m.busy
        && g.reqs == old(g).reqs[head.value := g.reqs[head.value]] && g.nextId == old(g).nextId + 1 && g.finished == old(g).finished
        && g.reqs[head.value] == Req(g.reqs[head.value].d1, g.reqs[head.value].d2, b, blockno, write, old(g).nextId, Posted)
    {
      hide Split, Chains, Rings, Phases, Numbered;
      ghost var s := S();
      var ok, i0, i1, i2 := Alloc3Desc();
      if !ok {
        FreeDescKeeps(s, m.desc);
        return None;
      }
      FreshHead(s, i0);
      PostKeeps(s, i0, i1, i2, b, blockno, write);
      m := m.(ops := m.ops[i0 := Op(write, blockno * (BSIZE / 512))]);
      m := m.(desc := m.desc[i0 := Desc(OpAddr(i0), 16, true, false, i1)]);
      m := m.(desc := m.desc[i1 := Desc(DataAddr(b), BSIZE, true, !write, i2)]);
      m := m.(info := m.info[i0 := m.info[i0].(status := 0xff)]);
      m := m.(desc := m.desc[i2 := Desc(StatusAddr(i0), 1, false, true, 0)]);
      m := m.(busy := m.busy + {b}, info := m.info[i0 := m.info[i0].(b := Some(b))]);
      m := m.(availRing := m.availRing[m.availIdx % NUM := i0]);
      m := m.(availIdx := (m.availIdx + 1) % WRAP);
      assert m.info == s.m.info[i0 := Info(Some(b), 0xff)];
      g := Post(s, i0, i1, i2, b, blockno, write).g;
      assert S() == Post(s, i0, i1, i2, b, blockno, write);
      return Some(i0);
    }

    /** The rest of virtio_disk_rw, once the buffer is no longer busy. */
    method Finish(head: nat)
      requires Inv(S()) && head in g.reqs && g.reqs[head].buf !in m.busy
      modifies this`m, this`g
      ensures Inv(S()) && g.reqs == old(g).reqs - {head} && g.finished == old(g).finished && Completed(S(), old(g).reqs[head].id)
    {
      hide Split, Chains, Rings, Phases, Numbered;
      ghost var s := S();
      HeadFacts(s, head);
      FinishKeeps(s, head);
      OwnedNotFree(s, head);
      m := m.(info := m.info[head := m.info[head].(b := None)]);
      FreeChain(head, g.reqs[head].d1, g.reqs[head].d2);
      g := Virtio.Finish(s, head).g;
      assert S() == Virtio.Finish(s, head);
    }

    /** One round of virtio_disk_intr: false when there is nothing to see. The status panic does not
        happen. */
    method Intr() returns (some: bool)
      requires Inv(S())
      modifies this`m, this`g
      ensures Inv(S())
      ensures some <==> old(g).usedQ != []
      ensures !some ==> S() == old(S())
      ensures some ==>
        var h := old(g).usedQ[0];
        && h in old(g).reqs && g.finished == old(g).finished + [(old(g).reqs[h].id, old(g).reqs[h].buf)]
        && m.busy == old(m).busy - {old(g).reqs[h].buf} && old(g).reqs[h].buf in old(m).busy
        && g.reqs == old(g).reqs[h := old(g).reqs[h].(phase := Seen)]
    {
      hide Split, Chains, Phases, Numbered, Rings;
      ghost var s := S();
      UsedEmpty(s);
      if m.seenIdx == m.usedIdx {
        return false;
      }
      SeeKeeps(s);
      var id := m.usedRing[m.seenIdx % NUM];
      assert m.info[id].status == 0;
      m := m.(busy := m.busy - {m.info[id].b.value}, seenIdx := (m.seenIdx + 1) % WRAP);
      g := See(s).g;
      assert S() == See(s);
      return true;
    }

    /** The device reads the next entry of the avail ring, if there is one. */
    method DeviceTake() returns (some: bool)
      requires Inv(S())
      modifies this`dev, this`g
      ensures Inv(S()) && (some <==> old(g).availQ != [])
      ensures some ==>
        var h := old(g).availQ[0];
        && h in old(g).reqs && dev.working == old(dev).working + {h} && g.reqs == old(g).reqs[h := old(g).reqs[h].(phase := Taken)]
    {
      hide Split, Chains, Phases, Numbered, Rings;
      ghost var s := S();
      AvailEmpty(s);
      if dev.lastAvail == m.availIdx {
        return false;
      }
      TakeKeeps(s);
      var h := m.availRing[dev.lastAvail % NUM];
      dev := Device((dev.lastAvail + 1) % WRAP, dev.working + {h});
      g := Take(s).g;
      assert S() == Take(s);
      return true;
    }

    /** The device carries out a request it has taken, by following its chain, if it accepts the chain: the
        data of exactly the request's own buffer is written to, or read from, the request's own block. */
    method DeviceComplete(h: nat)
      requires Inv(S()) && h in dev.working && h in g.reqs && g.reqs[h].buf in data && g.reqs[h].blockno * 2 in store
      modifies this`m, this`dev, this`g, this`data, this`store
      ensures Inv(S()) && g.reqs == old(g).reqs[h := old(g).reqs[h].(phase := Done)]
      ensures var r := old(g).reqs[h];
        if r.write then data == old(data) && store == old(store)[r.blockno * 2 := old(data)[r.buf]]
        else store == old(store) && data == old(data)[r.buf := old(store)[r.blockno * 2]]
    {
      hide Split, Chains, Rings, Phases, Numbered;
      ghost var s := S();
      CompleteKeeps(s, h);
      HeadFacts(s, h);
      var op := m.ops[m.desc[h].addr.i];
      var d := m.desc[h].next;
      var b := m.desc[d].addr.b;
      var ok := Carries(m, h);
      if ok {
        if op.out {
          store := store[op.sector := data[b]];
        } else {
          data := data[b := store[op.sector]];
        }
      }
      var st := m.desc[m.desc[d].next].addr.i;
      m := m.(info := m.info[st := m.info[st].(status := Verdict(ok))]);
      m := m.(usedRing := m.usedRing[m.usedIdx % NUM := h], usedIdx := (m.usedIdx + 1) % WRAP);
      dev := dev.(working := dev.working - {h});
      g := Complete(s, h).g;
      assert S() == Complete(s, h);
    }
  }

  /** The device accepts a chain: a header of 16 bytes that it may read, a block that it may write exactly
      for a read request, and a status byte that it may write, the last of the chain. */
  predicate Carries(m: Memory, h: nat) {
    && h < |m.desc| && m.desc[h].addr.OpAddr? && m.desc[h].addr.i < |m.ops| && m.desc[h].next < |m.desc|
    && var d0, d1 := m.desc[h], m.desc[m.desc[h].next];
       && d0.len == 16 && !d0.write && d0.more
       && d1.addr.DataAddr? && d1.len == 1024 && d1.more && d1.write == !m.ops[d0.addr.i].out && d1.next < |m.desc|
       && var d2 := m.desc[d1.next];
          && d2.addr.StatusAddr? && d2.len == 1 && d2.write && !d2.more
  }

  /** The status byte that the device writes. */
  function Verdict(ok: bool): nat {
    if ok then 0 else 1
  }

  /** Fewer than three descriptors are free. */
  ghost predicate Scarce(free: seq<bool>) {
    forall a, b, c | 0 <= a < b < c < |free| :: !free[a] || !free[b] || !free[c]
  }

  lemma FreshHead(s: State, h: nat)
    requires Sizes(s) && Split(s) && h < NUM && s.m.free[h]
    ensures h !in s.g.reqs
  {
    if h in s.g.reqs {
      TripleOf(s, h);
    }
  }

  /** Zeroing free descriptors disturbs no chain. */
  lemma FreeDescKeeps(s: State, desc: seq<Desc>)
    requires Inv(s) && |desc| == NUM && forall k | 0 <= k < NUM && !s.m.free[k] :: desc[k] == s.m.desc[k]
    ensures Inv(s.(m := s.m.(desc := desc)))
  {
    hide Rings, Phases, Numbered;
    var s' := s.(m := s.m.(desc := desc));
    SameDescSplit(s, desc);
    forall h | h in s.g.reqs ensures Triple(s', h) && ChainOk(s', h) {
      HeadFacts(s, h);
      OwnedNotFree(s, h);
      TripleOf(s', h);
    }
    SameDescRest(s, desc);
  }

  lemma SameDescSplit(s: State, desc: seq<Desc>)
    requires Sizes(s) && Split(s) && |desc| == NUM
    ensures Sizes(s.(m := s.m.(desc := desc))) && Split(s.(m := s.m.(desc := desc)))
  {
    var s' := s.(m := s.m.(desc := desc));
    forall h | h in s.g.reqs ensures Triple(s', h) {
      TripleOf(s, h);
    }
  }

  lemma SameDescRest(s: State, desc: seq<Desc>)
    requires Inv(s) && |desc| == NUM
    ensures Sizes(s.(m := s.m.(desc := desc))) && Rings(s.(m := s.m.(desc := desc))) && Phases(s.(m := s.m.(desc := desc))) && Numbered(s.(m := s.m.(desc := desc)))
  {
    hide Split, Chains;
    SameNumbers(s, s.(m := s.m.(desc := desc)));
  }

  lemma OwnedNotFree(s: State, h: nat)
    requires Sizes(s) && Split(s) && h in s.g.reqs && Triple(s, h)
    ensures !s.m.free[h] && !s.m.free[s.g.reqs[h].d1] && !s.m.free[s.g.reqs[h].d2]
  {
  }

  /** The indexes of a ring agree exactly when it holds nothing. */
  lemma UsedEmpty(s: State)
    requires Inv(s)
    ensures s.m.seenIdx == s.m.usedIdx <==> s.g.usedQ == []
  {
    hide Split, Chains, Numbered;
    HeadsBelow(s, s.g.usedQ);
    DistinctBelow(s.g.usedQ, NUM);
  }

  lemma AvailEmpty(s: State)
    requires Inv(s)
    ensures s.dev.lastAvail == s.m.availIdx <==> s.g.availQ == []
  {
    hide Split, Chains, Numbered;
    HeadsBelow(s, s.g.availQ);
    DistinctBelow(s.g.availQ, NUM);
  }
}
