/** The virtio disk driver against a device that takes posted requests in order and completes each of
    them once, in any order, with status 0 (sections 2.6 and 5.2 of Virtio 1.1).

    Each driver method is a region under vdisk_lock; the device methods may come between any two of
    them. Indexes are 16-bit and wrap around.
 */
module Virtio {
  import opened Params
  import opened Collections

  const NUM := 8
  const WRAP := 0x1_0000

  /** What a descriptor points to: the command header of a chain, the data of a buffer, the status byte
      of a chain. */
  datatype Addr = NoAddr | OpAddr(i: nat) | DataAddr(b: nat) | StatusAddr(i: nat)

  datatype Desc = Desc(addr: Addr, len: nat, more: bool, write: bool, next: nat)

  const NODESC := Desc(NoAddr, 0, false, false, 0)

  datatype Op = Op(out: bool, sector: nat)

  datatype Info = Info(b: Option<nat>, status: nat)

  datatype Phase = Posted | Taken | Done | Seen

  /** A request in flight, by the head of its chain. */
  datatype Req = Req(d1: nat, d2: nat, buf: nat, blockno: nat, write: bool, id: nat, phase: Phase)

  /** Memory, device and books. `user` names, for every descriptor,
      the chain it belongs to; `availQ` and `usedQ` are the ring entries not yet consumed. */
  datatype State = State(m: Memory, dev: Device, g: Book)

  /** The driver's and the shared memory: free map, descriptors, command headers, in-flight operations,
      the buffers marked busy, the two rings and their indexes. */
  datatype Memory = Memory(
    free: seq<bool>, desc: seq<Desc>, ops: seq<Op>, info: seq<Info>, busy: set<nat>,
    availRing: seq<nat>, availIdx: nat, usedRing: seq<nat>, usedIdx: nat, seenIdx: nat)

  /** How far the device has read the avail ring, and the chains it works on. */
  datatype Device = Device(lastAvail: nat, working: set<nat>)

  /** The requests in flight and the entries of the rings, without wrap-around. */
  datatype Book = Book(
    reqs: map<nat, Req>, user: seq<Option<nat>>, availQ: seq<nat>, taken: nat, usedQ: seq<nat>, seen: nat,
    nextId: nat, finished: seq<(nat, nat)>)

  ghost predicate Sizes(s: State) {
    && |s.m.free| == |s.m.desc| == |s.m.ops| == |s.m.info| == |s.m.availRing| == |s.m.usedRing| == |s.g.user| == NUM
  }

  /** Descriptors split into free ones and those of one chain each. */
  ghost predicate Split(s: State)
    requires Sizes(s)
  {
    && (forall i | 0 <= i < NUM :: s.m.free[i] <==> s.g.user[i].None?)
    && (forall i | 0 <= i < NUM && s.g.user[i].Some? ::
          var h := s.g.user[i].value; h in s.g.reqs && (i == h || i == s.g.reqs[h].d1 || i == s.g.reqs[h].d2))
    && (forall h | h in s.g.reqs :: Triple(s, h))
  }

  ghost predicate Triple(s: State, h: nat)
    requires Sizes(s) && h in s.g.reqs
  {
    var r := s.g.reqs[h];
    && h < NUM && r.d1 < NUM && r.d2 < NUM && h != r.d1 && h != r.d2 && r.d1 != r.d2
    && s.g.user[h] == s.g.user[r.d1] == s.g.user[r.d2] == Some(h)
  }

  /** A chain is what the device needs to carry out its request on its own buffer. */
  ghost predicate ChainOk(s: State, h: nat)
    requires Sizes(s) && h in s.g.reqs && Triple(s, h)
  {
    var r := s.g.reqs[h];
    && s.m.desc[h] == Desc(OpAddr(h), 16, true, false, r.d1)
    && s.m.desc[r.d1] == Desc(DataAddr(r.buf), BSIZE, true, !r.write, r.d2)
    && s.m.desc[r.d2] == Desc(StatusAddr(h), 1, false, true, 0)
    && s.m.ops[h] == Op(r.write, r.blockno * (BSIZE / 512))
    && s.m.info[h] == Info(Some(r.buf), if r.phase.Done? || r.phase.Seen? then 0 else 0xff)
    && (r.buf in s.m.busy <==> !r.phase.Seen?)
  }

  ghost predicate Chains(s: State)
    requires Sizes(s) && Split(s)
  {
    && (forall h | h in s.g.reqs :: ChainOk(s, h))
    && (forall h, g | h in s.g.reqs && g in s.g.reqs && h != g :: s.g.reqs[h].buf != s.g.reqs[g].buf)
    && (forall b | b in s.m.busy :: exists h :: h in s.g.reqs && s.g.reqs[h].buf == b)
  }

  /** The place in a ring of the k-th entry after the first `base`. */
  function Place(base: nat, k: nat): nat {
    (base + k) % NUM
  }

  /** The rings hold the entries not yet consumed; nothing in them is overwritten. */
  ghost predicate Rings(s: State)
    requires Sizes(s)
  {
    && s.m.availIdx == (s.g.taken + |s.g.availQ|) % WRAP && s.dev.lastAvail == s.g.taken % WRAP
    && s.m.usedIdx == (s.g.seen + |s.g.usedQ|) % WRAP && s.m.seenIdx == s.g.seen % WRAP
    && (forall k | 0 <= k < |s.g.availQ| :: s.m.availRing[Place(s.g.taken, k)] == s.g.availQ[k])
    && (forall k | 0 <= k < |s.g.usedQ| :: s.m.usedRing[Place(s.g.seen, k)] == s.g.usedQ[k])
  }

  /** Every request is in the place its phase says, once. */
  ghost predicate Phases(s: State) {
    && Distinct(s.g.availQ) && Distinct(s.g.usedQ)
    && (forall h | h in s.g.availQ :: h in s.g.reqs && s.g.reqs[h].phase.Posted?)
    && (forall h | h in s.dev.working :: h in s.g.reqs && s.g.reqs[h].phase.Taken?)
    && (forall h | h in s.g.usedQ :: h in s.g.reqs && s.g.reqs[h].phase.Done?)
    && (forall h | h in s.g.reqs && s.g.reqs[h].phase.Posted? :: h in s.g.availQ)
    && (forall h | h in s.g.reqs && s.g.reqs[h].phase.Taken? :: h in s.dev.working)
    && (forall h | h in s.g.reqs && s.g.reqs[h].phase.Done? :: h in s.g.usedQ)
  }

  /** Requests are numbered; the interrupt handler completes each number once, for its own buffer. */
  ghost predicate Numbered(s: State) {
    && (forall h | h in s.g.reqs :: s.g.reqs[h].id < s.g.nextId)
    && (forall h, g | h in s.g.reqs && g in s.g.reqs && h != g :: s.g.reqs[h].id != s.g.reqs[g].id)
    && (forall i, j | 0 <= i < j < |s.g.finished| :: s.g.finished[i].0 != s.g.finished[j].0)
    && (forall i | 0 <= i < |s.g.finished| :: s.g.finished[i].0 < s.g.nextId)
    && (forall h, i | h in s.g.reqs && 0 <= i < |s.g.finished| && s.g.finished[i].0 == s.g.reqs[h].id ::
          s.g.reqs[h].phase.Seen? && s.g.finished[i].1 == s.g.reqs[h].buf)
    && (forall h | h in s.g.reqs && s.g.reqs[h].phase.Seen? :: exists i :: 0 <= i < |s.g.finished| && s.g.finished[i].0 == s.g.reqs[h].id)
    && (forall n | 0 <= n < s.g.nextId :: Pending(s, n) || Completed(s, n))
  }

  ghost predicate Pending(s: State, n: nat) {
    exists h :: h in s.g.reqs && s.g.reqs[h].id == n
  }

  ghost predicate Completed(s: State, n: nat) {
    exists i :: 0 <= i < |s.g.finished| && s.g.finished[i].0 == n
  }

  ghost predicate Inv(s: State) {
    Sizes(s) && Split(s) && Chains(s) && Rings(s) && Phases(s) && Numbered(s)
  }

  /** virtio_disk_rw up to the notification: three free descriptors become a chain, which is posted. */
  ghost function Post(s: State, h: nat, d1: nat, d2: nat, buf: nat, blockno: nat, write: bool): State
    requires Sizes(s) && h < NUM && d1 < NUM && d2 < NUM
  {
    State(
      s.m.(free := s.m.free[h := false][d1 := false][d2 := false],
           desc := s.m.desc[h := Desc(OpAddr(h), 16, true, false, d1)]
                           [d1 := Desc(DataAddr(buf), BSIZE, true, !write, d2)]
                           [d2 := Desc(StatusAddr(h), 1, false, true, 0)],
           ops := s.m.ops[h := Op(write, blockno * (BSIZE / 512))],
           info := s.m.info[h := Info(Some(buf), 0xff)],
           busy := s.m.busy + {buf},
           availRing := s.m.availRing[s.m.availIdx % NUM := h],
           availIdx := (s.m.availIdx + 1) % WRAP),
      s.dev,
      s.g.(reqs := s.g.reqs[h := Req(d1, d2, buf, blockno, write, s.g.nextId, Posted)],
           user := s.g.user[h := Some(h)][d1 := Some(h)][d2 := Some(h)],
           availQ := s.g.availQ + [h],
           nextId := s.g.nextId + 1))
  }

  ghost predicate CanPost(s: State, h: nat, d1: nat, d2: nat, buf: nat) {
    && Inv(s) && h < NUM && d1 < NUM && d2 < NUM && h != d1 && h != d2 && d1 != d2
    && s.m.free[h] && s.m.free[d1] && s.m.free[d2]
    && forall g | g in s.g.reqs :: s.g.reqs[g].buf != buf
  }

  lemma PostKeeps(s: State, h: nat, d1: nat, d2: nat, buf: nat, blockno: nat, write: bool)
    requires CanPost(s, h, d1, d2, buf)
    ensures Inv(Post(s, h, d1, d2, buf, blockno, write))
  {
    hide Rings, Phases, Numbered, Chains, Split, Post;
    PostSplit(s, h, d1, d2, buf, blockno, write);
    PostChains(s, h, d1, d2, buf, blockno, write);
    PostRings(s, h, d1, d2, buf, blockno, write);
    PostNumbered(s, h, d1, d2, buf, blockno, write);
  }

  lemma PostSplit(s: State, h: nat, d1: nat, d2: nat, buf: nat, blockno: nat, write: bool)
    requires CanPost(s, h, d1, d2, buf)
    ensures Sizes(Post(s, h, d1, d2, buf, blockno, write)) && Split(Post(s, h, d1, d2, buf, blockno, write)) && h !in s.g.reqs
    ensures forall g | g in s.g.reqs :: g != h && g != d1 && g != d2 && s.g.reqs[g].d1 != h && s.g.reqs[g].d1 != d1 && s.g.reqs[g].d1 != d2
                                      && s.g.reqs[g].d2 != h && s.g.reqs[g].d2 != d1 && s.g.reqs[g].d2 != d2
  {
    hide Rings, Phases, Numbered, Chains, Split;
    var s' := Post(s, h, d1, d2, buf, blockno, write);
    NotHead(s, h);
    forall g | g in s.g.reqs
      ensures g != h && g != d1 && g != d2 && s.g.reqs[g].d1 != h && s.g.reqs[g].d1 != d1 && s.g.reqs[g].d1 != d2
      ensures s.g.reqs[g].d2 != h && s.g.reqs[g].d2 != d1 && s.g.reqs[g].d2 != d2
      ensures Triple(s', g)
    {
      FreeApart(s, g, h);
      FreeApart(s, g, d1);
      FreeApart(s, g, d2);
    }
    PostUsers(s, h, d1, d2, buf, blockno, write);
  }

  lemma NotHead(s: State, h: nat)
    requires Sizes(s) && Split(s) && h < NUM && s.m.free[h]
    ensures h !in s.g.reqs
  {
    if h in s.g.reqs {
      var t := Triple(s, h);
    }
  }

  /** A free descriptor is in no chain. */
  lemma FreeApart(s: State, g: nat, d: nat)
    requires Sizes(s) && Split(s) && g in s.g.reqs && d < NUM && s.m.free[d]
    ensures Triple(s, g) && g != d && s.g.reqs[g].d1 != d && s.g.reqs[g].d2 != d
  {
  }

  lemma PostUsers(s: State, h: nat, d1: nat, d2: nat, buf: nat, blockno: nat, write: bool)
    requires Sizes(s) && Split(s) && h < NUM && d1 < NUM && d2 < NUM && h != d1 && h != d2 && d1 != d2 && h !in s.g.reqs
    requires forall g | g in s.g.reqs ::
      Sizes(Post(s, h, d1, d2, buf, blockno, write)) && g in Post(s, h, d1, d2, buf, blockno, write).g.reqs && Triple(Post(s, h, d1, d2, buf, blockno, write), g)
    ensures Sizes(Post(s, h, d1, d2, buf, blockno, write)) && Split(Post(s, h, d1, d2, buf, blockno, write))
  {
    var s' := Post(s, h, d1, d2, buf, blockno, write);
    assert Triple(s', h);
  }

  /** A chain apart from the new one stays. */
  lemma PostChainOk(s: State, h: nat, d1: nat, d2: nat, buf: nat, blockno: nat, write: bool, g: nat)
    requires Sizes(s) && h < NUM && d1 < NUM && d2 < NUM && g in s.g.reqs && g != h && Triple(s, g) && ChainOk(s, g)
    requires g != d1 && g != d2 && s.g.reqs[g].d1 != h && s.g.reqs[g].d1 != d1 && s.g.reqs[g].d1 != d2
    requires s.g.reqs[g].d2 != h && s.g.reqs[g].d2 != d1 && s.g.reqs[g].d2 != d2 && s.g.reqs[g].buf != buf
    requires Sizes(Post(s, h, d1, d2, buf, blockno, write)) && Triple(Post(s, h, d1, d2, buf, blockno, write), g)
    ensures ChainOk(Post(s, h, d1, d2, buf, blockno, write), g)
  {
  }

  lemma PostNewChain(s: State, h: nat, d1: nat, d2: nat, buf: nat, blockno: nat, write: bool)
    requires Sizes(s) && h < NUM && d1 < NUM && d2 < NUM && h != d1 && h != d2 && d1 != d2
    ensures Sizes(Post(s, h, d1, d2, buf, blockno, write)) && h in Post(s, h, d1, d2, buf, blockno, write).g.reqs
    ensures Triple(Post(s, h, d1, d2, buf, blockno, write), h) && ChainOk(Post(s, h, d1, d2, buf, blockno, write), h)
  {
  }

  lemma PostChains(s: State, h: nat, d1: nat, d2: nat, buf: nat, blockno: nat, write: bool)
    requires CanPost(s, h, d1, d2, buf) && Sizes(Post(s, h, d1, d2, buf, blockno, write)) && Split(Post(s, h, d1, d2, buf, blockno, write))
    ensures Chains(Post(s, h, d1, d2, buf, blockno, write))
  {
    hide Rings, Phases, Numbered, Triple, ChainOk, Split;
    var s' := Post(s, h, d1, d2, buf, blockno, write);
    PostSplit(s, h, d1, d2, buf, blockno, write);
    forall g | g in s'.g.reqs ensures Triple(s', g) && ChainOk(s', g) {
      TripleOf(s', g);
      if g == h {
        PostNewChain(s, h, d1, d2, buf, blockno, write);
      } else {
        HeadFacts(s, g);
        PostChainOk(s, h, d1, d2, buf, blockno, write, g);
      }
    }
    forall b | b in s'.m.busy ensures exists g :: g in s'.g.reqs && s'.g.reqs[g].buf == b {
      if b == buf {
        assert s'.g.reqs[h].buf == b;
      } else {
        var g :| g in s.g.reqs && s.g.reqs[g].buf == b;
        assert s'.g.reqs[g].buf == b;
      }
    }
  }

  /** A ring has room for a head that is not in it. */
  lemma RoomFor(q: seq<nat>, h: nat)
    requires Distinct(q) && Below(q, NUM) && h < NUM && h !in q
    ensures |q| < NUM
  {
    assert Distinct(q + [h]);
    DistinctBelow(q + [h], NUM);
  }

  /** A write just behind the entries not yet consumed hits none of them. */
  lemma RingAppend(ring: seq<nat>, base: nat, q: seq<nat>, h: nat, idx: nat)
    requires |ring| == NUM && |q| < NUM && idx == (base + |q|) % WRAP
    requires forall k | 0 <= k < |q| :: ring[Place(base, k)] == q[k]
    ensures forall k | 0 <= k < |q| + 1 :: ring[idx % NUM := h][Place(base, k)] == (q + [h])[k]
    ensures (idx + 1) % WRAP == (base + (|q| + 1)) % WRAP
  {
    assert idx % NUM == Place(base, |q|);
    forall k | 0 <= k < |q| ensures Place(base, k) != Place(base, |q|) {
    }
  }

  /** Reading at the front gives the oldest entry, and leaves the others. */
  lemma RingFront(ring: seq<nat>, base: nat, q: seq<nat>, idx: nat)
    requires |ring| == NUM && q != [] && idx == base % WRAP
    requires forall k | 0 <= k < |q| :: ring[Place(base, k)] == q[k]
    ensures ring[idx % NUM] == q[0] && (idx + 1) % WRAP == (base + 1) % WRAP
    ensures forall k | 0 <= k < |q| - 1 :: ring[Place(base + 1, k)] == q[1..][k]
  {
    assert idx % NUM == Place(base, 0);
    forall k | 0 <= k < |q| - 1 ensures ring[Place(base + 1, k)] == q[1..][k] {
      assert Place(base + 1, k) == Place(base, k + 1);
    }
  }

  lemma HeadsBelow(s: State, q: seq<nat>)
    requires Sizes(s) && Split(s) && forall h | h in q :: h in s.g.reqs
    ensures Below(q, NUM)
  {
    forall i | 0 <= i < |q| ensures q[i] < NUM {
      assert q[i] in q && Triple(s, q[i]);
    }
  }

  lemma PostRings(s: State, h: nat, d1: nat, d2: nat, buf: nat, blockno: nat, write: bool)
    requires CanPost(s, h, d1, d2, buf) && Sizes(Post(s, h, d1, d2, buf, blockno, write)) && h !in s.g.reqs
    ensures Rings(Post(s, h, d1, d2, buf, blockno, write)) && Phases(Post(s, h, d1, d2, buf, blockno, write))
  {
    hide Numbered, Chains, Split;
    HeadsBelow(s, s.g.availQ);
    RoomFor(s.g.availQ, h);
    RingAppend(s.m.availRing, s.g.taken, s.g.availQ, h, s.m.availIdx);
  }

  lemma PostNumbered(s: State, h: nat, d1: nat, d2: nat, buf: nat, blockno: nat, write: bool)
    requires CanPost(s, h, d1, d2, buf) && Sizes(Post(s, h, d1, d2, buf, blockno, write)) && h !in s.g.reqs
    ensures Numbered(Post(s, h, d1, d2, buf, blockno, write))
  {
    hide Rings, Phases, Chains, Split;
    var s' := Post(s, h, d1, d2, buf, blockno, write);
    forall n | 0 <= n < s'.g.nextId ensures Pending(s', n) || Completed(s', n) {
      if n == s.g.nextId {
        assert s'.g.reqs[h].id == n;
      } else if Pending(s, n) {
        var g :| g in s.g.reqs && s.g.reqs[g].id == n;
        assert s'.g.reqs[g].id == n;
      } else {
        assert Completed(s, n);
      }
    }
    forall g | g in s'.g.reqs && s'.g.reqs[g].phase.Seen?
      ensures exists i :: 0 <= i < |s'.g.finished| && s'.g.finished[i].0 == s'.g.reqs[g].id
    {
      assert g in s.g.reqs && s.g.reqs[g] == s'.g.reqs[g];
    }
  }

  /** A request moves to its next phase. */
  ghost function Moved(s: State, h: nat, phase: Phase): map<nat, Req>
    requires h in s.g.reqs
  {
    s.g.reqs[h := s.g.reqs[h].(phase := phase)]
  }

  /** The device reads the next entry of the avail ring. */
  ghost function Take(s: State): State
    requires Sizes(s) && s.g.availQ != [] && s.g.availQ[0] in s.g.reqs
  {
    State(
      s.m,
      Device((s.dev.lastAvail + 1) % WRAP, s.dev.working + {s.g.availQ[0]}),
      s.g.(reqs := Moved(s, s.g.availQ[0], Taken), availQ := s.g.availQ[1..], taken := s.g.taken + 1))
  }

  /** The device finishes a request it has taken and adds it to the used ring. */
  ghost function Complete(s: State, h: nat): State
    requires Sizes(s) && h < NUM && h in s.g.reqs
  {
    State(
      s.m.(info := s.m.info[h := s.m.info[h].(status := 0)],
           usedRing := s.m.usedRing[s.m.usedIdx % NUM := h], usedIdx := (s.m.usedIdx + 1) % WRAP),
      s.dev.(working := s.dev.working - {h}),
      s.g.(reqs := Moved(s, h, Done), usedQ := s.g.usedQ + [h]))
  }

  /** One round of virtio_disk_intr: the buffer of the next used entry is no longer busy. */
  ghost function See(s: State): State
    requires Sizes(s) && s.g.usedQ != [] && s.g.usedQ[0] in s.g.reqs
  {
    var h := s.g.usedQ[0];
    State(
      s.m.(busy := s.m.busy - {s.g.reqs[h].buf}, seenIdx := (s.m.seenIdx + 1) % WRAP),
      s.dev,
      s.g.(reqs := Moved(s, h, Seen), usedQ := s.g.usedQ[1..], seen := s.g.seen + 1,
           finished := s.g.finished + [(s.g.reqs[h].id, s.g.reqs[h].buf)]))
  }

  /** The end of virtio_disk_rw: the chain is freed. */
  ghost function Finish(s: State, h: nat): State
    requires Sizes(s) && h < NUM && h in s.g.reqs && s.g.reqs[h].d1 < NUM && s.g.reqs[h].d2 < NUM
  {
    var r := s.g.reqs[h];
    State(
      s.m.(info := s.m.info[h := s.m.info[h].(b := None)],
           desc := s.m.desc[h := NODESC][r.d1 := NODESC][r.d2 := NODESC],
           free := s.m.free[h := true][r.d1 := true][r.d2 := true]),
      s.dev,
      s.g.(user := s.g.user[h := None][r.d1 := None][r.d2 := None], reqs := s.g.reqs - {h}))
  }

  /** A phase changes; the descriptors do not. */
  lemma MovedSplit(s: State, s': State, h: nat, phase: Phase)
    requires Sizes(s) && Split(s) && Sizes(s') && h in s.g.reqs && s'.g.reqs == Moved(s, h, phase)
    requires s'.m.free == s.m.free && s'.g.user == s.g.user
    ensures Split(s')
  {
    forall g | g in s'.g.reqs ensures Triple(s', g) {
      assert Triple(s, g);
    }
  }

  lemma HeadFacts(s: State, h: nat)
    requires Sizes(s) && Split(s) && Chains(s) && h in s.g.reqs
    ensures Triple(s, h) && ChainOk(s, h) && h < NUM
  {
  }

  /** A request that moves to its next phase, with its status byte and busy mark, keeps all chains. */
  lemma MovedChains(s: State, s': State, h: nat, phase: Phase)
    requires Sizes(s) && Split(s) && Chains(s) && Sizes(s') && Split(s') && h in s.g.reqs && h < NUM && s'.g.reqs == Moved(s, h, phase)
    requires s'.m.desc == s.m.desc && s'.m.ops == s.m.ops && s'.g.user == s.g.user && !s.g.reqs[h].phase.Seen?
    requires s'.m.info == s.m.info[h := s.m.info[h].(status := if phase.Done? || phase.Seen? then 0 else s.m.info[h].status)]
    requires phase.Done? || phase.Seen? || s.m.info[h].status == 0xff
    requires s'.m.busy == if phase.Seen? then s.m.busy - {s.g.reqs[h].buf} else s.m.busy
    ensures Chains(s')
  {
    hide Split, Triple, ChainOk;
    forall g | g in s'.g.reqs ensures Triple(s', g) && ChainOk(s', g) {
      HeadFacts(s, g);
      HeadFacts(s, h);
      TripleOf(s', g);
      MovedChainOk(s, s', h, phase, g);
    }
    SameBufs(s, s', h);
  }

  lemma TripleOf(s: State, h: nat)
    requires Sizes(s) && Split(s) && h in s.g.reqs
    ensures Triple(s, h)
  {
  }

  lemma MovedChainOk(s: State, s': State, h: nat, phase: Phase, g: nat)
    requires Sizes(s) && Sizes(s') && h in s.g.reqs && g in s.g.reqs && h < NUM && s'.g.reqs == Moved(s, h, phase)
    requires Triple(s, g) && ChainOk(s, g) && Triple(s, h) && ChainOk(s, h) && Triple(s', g)
    requires g != h ==> s.g.reqs[g].buf != s.g.reqs[h].buf
    requires s'.m.desc == s.m.desc && s'.m.ops == s.m.ops && s'.g.user == s.g.user && !s.g.reqs[h].phase.Seen?
    requires s'.m.info == s.m.info[h := s.m.info[h].(status := if phase.Done? || phase.Seen? then 0 else s.m.info[h].status)]
    requires phase.Done? || phase.Seen? || s.m.info[h].status == 0xff
    requires s'.m.busy == if phase.Seen? then s.m.busy - {s.g.reqs[h].buf} else s.m.busy
    ensures ChainOk(s', g)
  {
  }

  lemma TakeKeeps(s: State)
    requires Inv(s) && s.g.availQ != []
    ensures s.g.availQ[0] in s.g.reqs && Inv(Take(s)) && s.m.availRing[s.dev.lastAvail % NUM] == s.g.availQ[0]
  {
    hide Rings, Phases, Numbered, Chains, Split;
    TakeRings(s);
    HeadFacts(s, s.g.availQ[0]);
    var s' := Take(s);
    MovedSplit(s, s', s.g.availQ[0], Taken);
    MovedChains(s, s', s.g.availQ[0], Taken);
    TakeNumbered(s);
  }

  lemma TakeRings(s: State)
    requires Sizes(s) && Split(s) && Rings(s) && Phases(s) && s.g.availQ != []
    ensures s.g.availQ[0] in s.g.reqs && s.g.reqs[s.g.availQ[0]].phase.Posted? && s.m.availRing[s.dev.lastAvail % NUM] == s.g.availQ[0]
    ensures Rings(Take(s)) && Phases(Take(s))
  {
    hide Split;
    assert s.g.availQ[0] in s.g.availQ;
    RingFront(s.m.availRing, s.g.taken, s.g.availQ, s.dev.lastAvail);
    QueueRest(s.g.availQ);
  }

  lemma QueueRest(q: seq<nat>)
    requires Distinct(q) && q != []
    ensures Distinct(q[1..]) && forall x :: x in q[1..] <==> x in q && x != q[0]
  {
    assert q == [q[0]] + q[1..];
  }

  lemma SameBufs(s: State, s': State, h: nat)
    requires Sizes(s) && Split(s) && Chains(s) && h in s.g.reqs && s'.g.reqs.Keys == s.g.reqs.Keys && s'.m.busy <= s.m.busy
    requires forall g | g in s.g.reqs :: s'.g.reqs[g].buf == s.g.reqs[g].buf
    ensures forall h, g | h in s'.g.reqs && g in s'.g.reqs && h != g :: s'.g.reqs[h].buf != s'.g.reqs[g].buf
    ensures forall b | b in s'.m.busy :: exists h :: h in s'.g.reqs && s'.g.reqs[h].buf == b
  {
    hide Split, ChainOk;
    forall b | b in s'.m.busy ensures exists h :: h in s'.g.reqs && s'.g.reqs[h].buf == b {
      var g :| g in s.g.reqs && s.g.reqs[g].buf == b;
      assert s'.g.reqs[g].buf == b;
    }
  }

  lemma TakeNumbered(s: State)
    requires Inv(s) && s.g.availQ != [] && s.g.availQ[0] in s.g.reqs && s.g.reqs[s.g.availQ[0]].phase.Posted?
    ensures Numbered(Take(s))
  {
    hide Rings, Phases, Chains, Split;
    SameNumbers(s, Take(s));
  }

  lemma SameNumbers(s: State, s': State)
    requires Numbered(s) && s'.g.reqs.Keys == s.g.reqs.Keys && s'.g.nextId == s.g.nextId && s'.g.finished == s.g.finished
    requires forall g | g in s.g.reqs :: s'.g.reqs[g].id == s.g.reqs[g].id && s'.g.reqs[g].buf == s.g.reqs[g].buf
    requires forall g | g in s.g.reqs :: s'.g.reqs[g].phase.Seen? <==> s.g.reqs[g].phase.Seen?
    ensures Numbered(s')
  {
    forall n | 0 <= n < s'.g.nextId ensures Pending(s', n) || Completed(s', n) {
      if Pending(s, n) {
        var g :| g in s.g.reqs && s.g.reqs[g].id == n;
        assert s'.g.reqs[g].id == n;
      } else {
        assert Completed(s, n);
      }
    }
  }

  lemma CompleteKeeps(s: State, h: nat)
    requires Inv(s) && h in s.dev.working
    ensures h in s.g.reqs && h < NUM && Inv(Complete(s, h))
  {
    hide Rings, Phases, Numbered, Chains, Split;
    CompleteRings(s, h);
    HeadFacts(s, h);
    var s' := Complete(s, h);
    MovedSplit(s, s', h, Done);
    MovedChains(s, s', h, Done);
    SameNumbers(s, s');
  }

  lemma CompleteRings(s: State, h: nat)
    requires Sizes(s) && Split(s) && Rings(s) && Phases(s) && h in s.dev.working
    ensures h in s.g.reqs && h < NUM && s.g.reqs[h].phase.Taken? && Rings(Complete(s, h)) && Phases(Complete(s, h))
  {
    hide Place, Rings;
    assert Triple(s, h);
    CompletePhases(s, h);
    CompleteUsed(s, h);
  }

  lemma CompletePhases(s: State, h: nat)
    requires Sizes(s) && Phases(s) && h in s.dev.working && h in s.g.reqs && h < NUM
    ensures Phases(Complete(s, h)) && h !in s.g.usedQ
  {
  }

  lemma CompleteUsed(s: State, h: nat)
    requires Sizes(s) && Split(s) && Rings(s) && Phases(s) && h in s.dev.working && h in s.g.reqs && h < NUM && h !in s.g.usedQ
    ensures Rings(Complete(s, h))
  {
    hide Place, Split;
    HeadsBelow(s, s.g.usedQ);
    RoomFor(s.g.usedQ, h);
    RingAppend(s.m.usedRing, s.g.seen, s.g.usedQ, h, s.m.usedIdx);
  }

  lemma SeeKeeps(s: State)
    requires Inv(s) && s.g.usedQ != []
    ensures s.g.usedQ[0] in s.g.reqs && Inv(See(s))
    ensures var h := s.g.usedQ[0];
      h < NUM && s.m.usedRing[s.m.seenIdx % NUM] == h && s.m.info[h] == Info(Some(s.g.reqs[h].buf), 0) && s.g.reqs[h].buf in s.m.busy
  {
    hide Rings, Phases, Numbered, Chains, Split;
    SeeRings(s);
    HeadFacts(s, s.g.usedQ[0]);
    var s' := See(s);
    MovedSplit(s, s', s.g.usedQ[0], Seen);
    MovedChains(s, s', s.g.usedQ[0], Seen);
    HeadFacts(s, s.g.usedQ[0]);
    SeeNumbered(s);
  }

  lemma SeeRings(s: State)
    requires Sizes(s) && Split(s) && Rings(s) && Phases(s) && s.g.usedQ != []
    ensures s.g.usedQ[0] in s.g.reqs && s.g.reqs[s.g.usedQ[0]].phase.Done? && s.m.usedRing[s.m.seenIdx % NUM] == s.g.usedQ[0]
    ensures Rings(See(s)) && Phases(See(s))
  {
    hide Split;
    assert s.g.usedQ[0] in s.g.usedQ;
    RingFront(s.m.usedRing, s.g.seen, s.g.usedQ, s.m.seenIdx);
    QueueRest(s.g.usedQ);
  }

  lemma SeeNumbered(s: State)
    requires Inv(s) && s.g.usedQ != [] && s.g.usedQ[0] in s.g.reqs && s.g.reqs[s.g.usedQ[0]].phase.Done?
    ensures Numbered(See(s))
  {
    hide Rings, Phases, Chains, Split;
    var s' := See(s);
    var h := s.g.usedQ[0];
    assert s'.g.finished[|s.g.finished|].0 == s'.g.reqs[h].id;
    forall n | 0 <= n < s'.g.nextId ensures Pending(s', n) || Completed(s', n) {
      if Pending(s, n) {
        var g :| g in s.g.reqs && s.g.reqs[g].id == n;
        assert s'.g.reqs[g].id == n;
      } else {
        var i :| 0 <= i < |s.g.finished| && s.g.finished[i].0 == n;
        assert s'.g.finished[i].0 == n;
      }
    }
    forall g | g in s'.g.reqs && s'.g.reqs[g].phase.Seen?
      ensures exists i :: 0 <= i < |s'.g.finished| && s'.g.finished[i].0 == s'.g.reqs[g].id
    {
      if g != h {
        var i :| 0 <= i < |s.g.finished| && s.g.finished[i].0 == s.g.reqs[g].id;
        assert s'.g.finished[i].0 == s'.g.reqs[g].id;
      }
    }
  }

  lemma FinishKeeps(s: State, h: nat)
    requires Inv(s) && h in s.g.reqs && s.g.reqs[h].phase.Seen?
    ensures h < NUM && s.g.reqs[h].d1 < NUM && s.g.reqs[h].d2 < NUM && Inv(Finish(s, h))
    ensures Completed(s, s.g.reqs[h].id)
  {
    hide Rings, Phases, Numbered, Chains, Split;
    FinishSplit(s, h);
    FinishChains(s, h);
    FinishPhases(s, h);
    FinishNumbered(s, h);
  }

  lemma FinishSplit(s: State, h: nat)
    requires Sizes(s) && Split(s) && h in s.g.reqs
    ensures h < NUM && s.g.reqs[h].d1 < NUM && s.g.reqs[h].d2 < NUM && Sizes(Finish(s, h)) && Split(Finish(s, h))
  {
    hide Triple;
    TripleOf(s, h);
    TripleRange(s, h);
    var s' := Finish(s, h);
    forall g | g in s'.g.reqs ensures Triple(s', g) {
      TripleOf(s, g);
      FinishTriple(s, h, g);
    }
    forall i | 0 <= i < NUM
      ensures s'.m.free[i] <==> s'.g.user[i].None?
      ensures s'.g.user[i].Some? ==> s'.g.user[i] == s.g.user[i] && s.g.user[i].value != h
    {
    }
  }

  lemma TripleRange(s: State, h: nat)
    requires Sizes(s) && h in s.g.reqs && Triple(s, h)
    ensures h < NUM && s.g.reqs[h].d1 < NUM && s.g.reqs[h].d2 < NUM
  {
  }

  lemma FinishTriple(s: State, h: nat, g: nat)
    requires Sizes(s) && h in s.g.reqs && g in s.g.reqs && g != h && Triple(s, h) && Triple(s, g)
    ensures h < NUM && s.g.reqs[h].d1 < NUM && s.g.reqs[h].d2 < NUM && Sizes(Finish(s, h)) && Triple(Finish(s, h), g)
  {
  }

  lemma FinishChains(s: State, h: nat)
    requires Sizes(s) && Split(s) && Chains(s) && h in s.g.reqs && s.g.reqs[h].phase.Seen?
    requires h < NUM && s.g.reqs[h].d1 < NUM && s.g.reqs[h].d2 < NUM && Sizes(Finish(s, h)) && Split(Finish(s, h))
    ensures Chains(Finish(s, h))
  {
    hide Split, Triple, ChainOk;
    var s' := Finish(s, h);
    HeadFacts(s, h);
    forall g | g in s'.g.reqs ensures Triple(s', g) && ChainOk(s', g) {
      HeadFacts(s, g);
      TripleOf(s', g);
      FinishChainOk(s, h, g);
    }
    forall b | b in s'.m.busy ensures exists g :: g in s'.g.reqs && s'.g.reqs[g].buf == b {
      var g :| g in s.g.reqs && s.g.reqs[g].buf == b;
      SeenIsIdle(s, h);
      assert s'.g.reqs[g].buf == b;
    }
  }

  lemma SeenIsIdle(s: State, h: nat)
    requires Sizes(s) && h in s.g.reqs && Triple(s, h) && ChainOk(s, h) && s.g.reqs[h].phase.Seen?
    ensures s.g.reqs[h].buf !in s.m.busy
  {
  }

  lemma FinishChainOk(s: State, h: nat, g: nat)
    requires Sizes(s) && h in s.g.reqs && g in s.g.reqs && g != h && Triple(s, h) && Triple(s, g) && ChainOk(s, g)
    requires Sizes(Finish(s, h)) && Triple(Finish(s, h), g)
    ensures ChainOk(Finish(s, h), g)
  {
  }

  lemma FinishPhases(s: State, h: nat)
    requires Sizes(s) && Rings(s) && Phases(s) && h in s.g.reqs && s.g.reqs[h].phase.Seen?
    requires h < NUM && s.g.reqs[h].d1 < NUM && s.g.reqs[h].d2 < NUM && Sizes(Finish(s, h))
    ensures Rings(Finish(s, h)) && Phases(Finish(s, h))
  {
  }

  lemma FinishNumbered(s: State, h: nat)
    requires Sizes(s) && Numbered(s) && h in s.g.reqs && s.g.reqs[h].phase.Seen?
    requires h < NUM && s.g.reqs[h].d1 < NUM && s.g.reqs[h].d2 < NUM
    ensures Numbered(Finish(s, h)) && Completed(s, s.g.reqs[h].id)
  {
    var s' := Finish(s, h);
    forall n | 0 <= n < s'.g.nextId ensures Pending(s', n) || Completed(s', n) {
      if n == s.g.reqs[h].id {
        assert Completed(s', n);
      } else if Pending(s, n) {
        var g :| g in s.g.reqs && s.g.reqs[g].id == n;
        assert s'.g.reqs[g].id == n;
      } else {
        var i :| 0 <= i < |s.g.finished| && s.g.finished[i].0 == n;
        assert s'.g.finished[i].0 == n;
      }
    }
  }
}
