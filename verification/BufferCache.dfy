/** The buffer cache: a fixed table of buffers threaded on a doubly linked list
    kept in order of recent use.

    Bget, AcquireSleep, Fill, SetData, Bwrite, ReleaseSleep, DropRef, Bpin and Bunpin are the
    stretches of code that run under `bcache.lock` or while holding a buffer's sleep lock.
    `Valid()` is what every one of them keeps, so it holds in every interleaving of them by any
    number of processes. Bread and Brelse are whole calls that are not interrupted.
 */
module BufferCache {
  import opened Params
  import opened Blocks
  import opened Collections

  /** The index that stands for the address of the list head, `bcache.head`. */
  const HEAD := NBUF
  const ROOTDEV := 1

  datatype Buf = Buf(
    valid: bool, dev: nat, blockno: nat, locked: bool, refcnt: nat,
    prev: nat, next: nat, data: Block)

  datatype Got = Found(i: nat) | NoBuffers

  /** A block write as the disk sees it. */
  datatype Write = Write(bno: nat, data: Block)

  /** The buffers in list order, bracketed by the head on both sides. */
  ghost function Ring(order: seq<nat>): seq<nat> {
    [HEAD] + order + [HEAD]
  }

  /** `prev` and `next` thread exactly the buffers of `order`, most recently used first. */
  ghost predicate Threaded(s: seq<Buf>, order: seq<nat>) {
    && |s| == NBUF + 1
    && Distinct(order)
    && Below(order, NBUF)
    && (forall k | 0 <= k <= |order| ::
          s[Ring(order)[k]].next == Ring(order)[k + 1] && s[Ring(order)[k + 1]].prev == Ring(order)[k])
  }

  /** All the buffers are on the list. */
  ghost predicate Linked(s: seq<Buf>, order: seq<nat>) {
    Threaded(s, order) && |order| == NBUF
  }

  ghost function MoveToFront(order: seq<nat>, k: nat): (r: seq<nat>)
    requires k < |order|
  {
    [order[k]] + order[..k] + order[k + 1..]
  }

  /** The first two of the six pointer assignments of `brelse`. */
  ghost function Unlink(s: seq<Buf>, b: nat): (r: seq<Buf>)
    requires |s| == NBUF + 1 && b < NBUF && s[b].next <= NBUF && s[b].prev <= NBUF && s[HEAD].next <= NBUF
    ensures |r| == NBUF + 1 && r[HEAD].next <= NBUF
  {
    var s1 := s[s[b].next := s[s[b].next].(prev := s[b].prev)];
    s1[s1[b].prev := s1[s1[b].prev].(next := s1[b].next)]
  }

  /** The other four. */
  ghost function LinkFront(s: seq<Buf>, b: nat): (r: seq<Buf>)
    requires |s| == NBUF + 1 && b < NBUF && s[HEAD].next <= NBUF
    ensures |r| == NBUF + 1
  {
    var s3 := s[b := s[b].(next := s[HEAD].next)];
    var s4 := s3[b := s3[b].(prev := HEAD)];
    var s5 := s4[s4[HEAD].next := s4[s4[HEAD].next].(prev := b)];
    s5[HEAD := s5[HEAD].(next := b)]
  }

  ghost function Relink(s: seq<Buf>, b: nat): (r: seq<Buf>)
    requires |s| == NBUF + 1 && b < NBUF && s[b].next <= NBUF && s[b].prev <= NBUF && s[HEAD].next <= NBUF
    ensures |r| == NBUF + 1
  {
    LinkFront(Unlink(s, b), b)
  }

  ghost predicate SameButLinks(a: Buf, b: Buf) {
    a == b.(prev := a.prev, next := a.next)
  }

  predicate Caches(b: Buf, dev: nat, blockno: nat) {
    b.dev == dev && b.blockno == blockno
  }

  /** On a nonzero device no block has two buffers. */
  ghost predicate Unique(s: seq<Buf>)
    requires |s| == NBUF + 1
  {
    forall i, j | 0 <= i < j < NBUF && s[i].dev != 0 :: !Caches(s[j], s[i].dev, s[i].blockno)
  }

  /** Every reference is a lock holder, a process about to take the lock or just done with it, or a pin. */
  ghost predicate Counted(s: seq<Buf>, waits: seq<nat>, pins: seq<nat>)
    requires |s| == NBUF + 1
  {
    && |waits| == NBUF && |pins| == NBUF
    && forall i | 0 <= i < NBUF :: s[i].refcnt == (if s[i].locked then 1 else 0) + waits[i] + pins[i]
  }

  /** Unless its sleep lock is held, a filled buffer agrees with the abstract map. */
  ghost predicate Coherent(s: seq<Buf>, view: seq<Block>)
    requires |s| == NBUF + 1
  {
    forall i | 0 <= i < NBUF && s[i].dev == ROOTDEV ::
      && s[i].blockno < |view|
      && (s[i].valid && !s[i].locked ==> s[i].data == view[s[i].blockno])
  }

  ghost predicate Pinned(s: seq<Buf>, pins: seq<nat>, bno: nat)
    requires |s| == NBUF + 1 && |pins| == NBUF
  {
    exists i :: 0 <= i < NBUF && pins[i] > 0 && Caches(s[i], ROOTDEV, bno)
  }

  /** Only a pinned block may differ from its disk copy, and pins are on filled buffers. */
  ghost predicate Durable(s: seq<Buf>, pins: seq<nat>, view: seq<Block>, disk: seq<Block>)
    requires |s| == NBUF + 1 && |pins| == NBUF
  {
    && |disk| == |view|
    && (forall i | 0 <= i < NBUF && pins[i] > 0 :: s[i].valid && s[i].dev == ROOTDEV)
    && forall bno | 0 <= bno < |view| :: view[bno] == disk[bno] || Pinned(s, pins, bno)
  }

  /** What the six assignments leave in each link field. */
  lemma RelinkFields(s: seq<Buf>, b: nat)
    requires |s| == NBUF + 1 && b < NBUF && s[b].next <= NBUF && s[b].prev <= NBUF
    requires s[HEAD].next <= NBUF && s[b].prev != b && s[b].next != b
    requires s[HEAD].next == b <==> s[b].prev == HEAD
    ensures var t := Relink(s, b);
            var first := if s[b].prev == HEAD then s[b].next else s[HEAD].next;
            && |t| == NBUF + 1
            && forall i | 0 <= i <= NBUF ::
                 && SameButLinks(t[i], s[i])
                 && t[i].next == (if i == HEAD then b else if i == b then first
                                  else if i == s[b].prev then s[b].next else s[i].next)
                 && t[i].prev == (if i == b then HEAD else if i == first then b
                                  else if i == s[b].next then s[b].prev else s[i].prev)
  {
    hide Unlink, LinkFront;
    UnlinkFields(s, b);
    LinkFrontFields(Unlink(s, b), b);
  }

  lemma UnlinkFields(s: seq<Buf>, b: nat)
    requires |s| == NBUF + 1 && b < NBUF && s[b].next <= NBUF && s[b].prev <= NBUF && s[HEAD].next <= NBUF
    requires s[b].prev != b && s[b].next != b
    ensures var t := Unlink(s, b);
      forall i | 0 <= i <= NBUF ::
        && SameButLinks(t[i], s[i]) && t[i].next == (if i == s[b].prev then s[b].next else s[i].next)
        && t[i].prev == if i == s[b].next then s[b].prev else s[i].prev
  {
  }

  lemma LinkFrontFields(s: seq<Buf>, b: nat)
    requires |s| == NBUF + 1 && b < NBUF && s[HEAD].next <= NBUF && s[HEAD].next != b
    ensures var t := LinkFront(s, b);
      forall i | 0 <= i <= NBUF ::
        && SameButLinks(t[i], s[i]) && t[i].next == (if i == HEAD then b else if i == b then s[HEAD].next else s[i].next)
        && t[i].prev == if i == b then HEAD else if i == s[HEAD].next then b else s[i].prev
  {
  }

  lemma RingOfMoveToFront(order: seq<nat>, k: nat, i: nat)
    requires |order| == NBUF && k < NBUF && i <= NBUF + 1
    ensures Ring(MoveToFront(order, k))[i]
         == if i == 1 then order[k] else if 2 <= i <= k + 1 then Ring(order)[i - 1] else Ring(order)[i]
  {
  }

  /** Unlinking the k-th buffer and linking it behind the head moves it to the front. */
  lemma RelinkMovesToFront(s: seq<Buf>, order: seq<nat>, k: nat)
    requires Linked(s, order) && k < NBUF
    ensures var b := order[k];
            && s[b].next <= NBUF && s[b].prev <= NBUF && s[HEAD].next <= NBUF
            && Linked(Relink(s, b), MoveToFront(order, k))
            && forall i | 0 <= i <= NBUF :: SameButLinks(Relink(s, b)[i], s[i])
  {
    hide Relink, MoveToFront, SameButLinks;
    var b := order[k];
    var r := Ring(order);
    assert r[k + 1] == b && r[0] == HEAD;
    assert s[r[0]].next == r[1];
    assert s[r[k]].next == b && s[b].next == r[k + 2] && s[b].prev == r[k];
    RelinkFields(s, b);
    MovedOrder(order, k);
    var t := Relink(s, b);
    forall i | 0 <= i <= NBUF
      ensures t[Ring(MoveToFront(order, k))[i]].next == Ring(MoveToFront(order, k))[i + 1]
      ensures t[Ring(MoveToFront(order, k))[i + 1]].prev == Ring(MoveToFront(order, k))[i]
    {
      RelinkStep(s, order, k, i);
    }
  }

  lemma MovedOrder(order: seq<nat>, k: nat)
    requires Distinct(order) && Below(order, NBUF) && k < |order|
    ensures |MoveToFront(order, k)| == |order| && Distinct(MoveToFront(order, k)) && Below(MoveToFront(order, k), NBUF)
  {
  }

  lemma RelinkStep(s: seq<Buf>, order: seq<nat>, k: nat, i: nat)
    requires Linked(s, order) && k < NBUF && i <= NBUF
    requires var b := order[k]; s[b].next <= NBUF && s[b].prev <= NBUF && s[HEAD].next <= NBUF
    ensures var t := Relink(s, order[k]);
            var r' := Ring(MoveToFront(order, k));
            t[r'[i]].next == r'[i + 1] && t[r'[i + 1]].prev == r'[i]
  {
    var r := Ring(order);
    assert r[k + 1] == order[k];
    assert s[r[0]].next == r[1];
    assert s[r[k]].next == r[k + 1] && s[r[k + 1]].next == r[k + 2] && s[r[k + 1]].prev == r[k];
    RelinkFields(s, order[k]);
    RingOfMoveToFront(order, k, i);
    RingOfMoveToFront(order, k, i + 1);
    assert s[r[i]].next == r[i + 1] && s[r[i + 1]].prev == r[i];
    if 2 <= i <= k + 1 {
      assert s[r[i - 1]].next == r[i] && s[r[i]].prev == r[i - 1];
    }
  }

  ghost predicate Good(s: seq<Buf>, order: seq<nat>, waits: seq<nat>, pins: seq<nat>,
                       view: seq<Block>, disk: seq<Block>) {
    && Linked(s, order)
    && Unique(s)
    && Counted(s, waits, pins)
    && Coherent(s, view)
    && Durable(s, pins, view, disk)
  }

  /** The i-th buffer is the least recently used one that nobody references. */
  ghost predicate LeastRecent(s: seq<Buf>, order: seq<nat>, i: nat)
    requires Linked(s, order)
  {
    exists k :: 0 <= k < NBUF && order[k] == i && s[i].refcnt == 0
                && forall j | k < j < NBUF :: s[order[j]].refcnt != 0
  }

  ghost predicate Cached(s: seq<Buf>, dev: nat, blockno: nat)
    requires |s| == NBUF + 1
  {
    exists i :: 0 <= i < NBUF && Caches(s[i], dev, blockno)
  }

  lemma OrderCovers(s: seq<Buf>, order: seq<nat>, i: nat) returns (k: nat)
    requires Linked(s, order) && i < NBUF
    ensures k < NBUF && order[k] == i
  {
    DistinctCovers(order, NBUF, i);
    k :| 0 <= k < NBUF && order[k] == i;
  }

  class BCache {
    /** `bcache.buf[0..NBUF]`, then the list head. */
    var buf: seq<Buf>
    var disk: seq<Block>
    /** Every block write issued so far. */
    ghost var writes: seq<Write>
    ghost var order: seq<nat>
    /** Processes with a reference but not the sleep lock: on their way to it in bget, or past it in
        brelse. */
    ghost var waits: seq<nat>
    ghost var pins: seq<nat>
    /** The simple map from block number to contents that cache and disk implement. */
    ghost var view: seq<Block>

    ghost predicate Valid()
      reads this
    {
      Good(buf, order, waits, pins, view, disk)
    }

    lemma Sizes()
      requires Valid()
      ensures |buf| == NBUF + 1 && |waits| == |pins| == NBUF && |disk| == |view|
      ensures Counted(buf, waits, pins)
    {
    }

    lemma SameBuffer(i: nat, j: nat, bno: nat)
      requires Valid() && i < NBUF && j < NBUF
      requires Caches(buf[i], ROOTDEV, bno) && Caches(buf[j], ROOTDEV, bno)
      ensures i == j
    {
    }

    /** binit: thread every buffer, each linked in behind the head. The table starts zeroed,
        so every buffer claims block 0 of device 0. */
    constructor (contents: seq<Block>)
      ensures Valid()
      ensures disk == view == contents && writes == []
      ensures forall i | 0 <= i < NBUF :: waits[i] == pins[i] == 0 && !buf[i].locked
    {
      buf := seq(NBUF + 1, _ => Buf(false, 0, 0, false, 0, 0, 0, ZeroBlock()));
      disk, view, writes := contents, contents, [];
      waits, pins := seq(NBUF, _ => 0), seq(NBUF, _ => 0);
      new;
      buf := buf[HEAD := buf[HEAD].(prev := HEAD)];
      buf := buf[HEAD := buf[HEAD].(next := HEAD)];
      order := [];
      var b := 0;
      while b < NBUF
        invariant 0 <= b <= NBUF && |order| == b && Below(order, b)
        invariant Threaded(buf, order)
        invariant forall i | 0 <= i <= NBUF ::
          SameButLinks(buf[i], Buf(false, 0, 0, false, 0, 0, 0, ZeroBlock()))
        modifies this`order, this`buf
      {
        LinkIn(b);
        b := b + 1;
      }
      FreshIsGood(buf, order, waits, pins, disk);
    }

    /** The body of binit's loop. */
    method LinkIn(b: nat)
      requires b < NBUF && Below(order, b) && Threaded(buf, order)
      modifies this`order, this`buf
      ensures Threaded(buf, order) && order == [b] + old(order)
      ensures |buf| == |old(buf)| && forall i | 0 <= i <= NBUF :: SameButLinks(buf[i], old(buf)[i])
    {
      ghost var s := buf;
      assert s[Ring(order)[0]].next == Ring(order)[1];
      buf := buf[b := buf[b].(next := buf[HEAD].next)];
      buf := buf[b := buf[b].(prev := HEAD)];
      buf := buf[buf[HEAD].next := buf[buf[HEAD].next].(prev := b)];
      buf := buf[HEAD := buf[HEAD].(next := b)];
      InsertThreads(s, order, b, buf);
      order := [b] + order;
    }

    /** Find the buffer of a block or recycle the least recently used free one. */
    method Bget(dev: nat, blockno: nat) returns (r: Got)
      requires Valid() && dev != 0
      requires dev == ROOTDEV ==> blockno < |view|
      modifies this`waits, this`buf
      ensures Valid()
      ensures r.NoBuffers? <==> !old(Cached(buf, dev, blockno))
                                && forall i | 0 <= i < NBUF :: old(buf[i].refcnt) > 0
      ensures r.NoBuffers? ==> buf == old(buf) && waits == old(waits)
      ensures r.Found? ==>
        && r.i < NBUF
        && waits == old(waits)[r.i := old(waits)[r.i] + 1]
        && if old(Cached(buf, dev, blockno)) then
             && Caches(old(buf)[r.i], dev, blockno)
             && buf == old(buf)[r.i := old(buf)[r.i].(refcnt := old(buf)[r.i].refcnt + 1)]
           else
             && LeastRecent(old(buf), order, r.i)
             && buf == old(buf)[r.i := old(buf)[r.i].(
                  dev := dev, blockno := blockno, valid := false, refcnt := 1)]
    {
      ghost var s := buf;
      var b := FindCached(dev, blockno);
      if b != HEAD {
        assert Cached(s, dev, blockno);
        buf := buf[b := buf[b].(refcnt := buf[b].refcnt + 1)];
        waits := waits[b := waits[b] + 1];
        assert buf == s[b := s[b].(refcnt := s[b].refcnt + 1)];
        TouchKeepsGood(s, order, old(waits), pins, view, disk, b, buf[b], waits, pins, view, disk);
        return Found(b);
      }
      b := FindUnused();
      if b != HEAD {
        buf := buf[b := buf[b].(dev := dev, blockno := blockno, valid := false, refcnt := 1)];
        waits := waits[b := waits[b] + 1];
        assert buf == s[b := s[b].(dev := dev, blockno := blockno, valid := false, refcnt := 1)];
        RecycleKeepsGood(s, order, old(waits), pins, view, disk, b, dev, blockno);
        return Found(b);
      }
      return NoBuffers;
    }

    /** bget's first loop: forward over the list for the block. */
    method FindCached(dev: nat, blockno: nat) returns (b: nat)
      requires Valid()
      ensures b == HEAD || (b < NBUF && Caches(buf[b], dev, blockno))
      ensures b == HEAD ==> !Cached(buf, dev, blockno)
    {
      assert buf[Ring(order)[0]].next == Ring(order)[1];
      b := buf[HEAD].next;
      ghost var k := 0;
      while b != HEAD
        invariant 0 <= k <= NBUF && b == Ring(order)[k + 1]
        invariant forall j | 0 <= j < k :: !Caches(buf[order[j]], dev, blockno)
        decreases NBUF - k
      {
        if buf[b].dev == dev && buf[b].blockno == blockno {
          return;
        }
        assert buf[Ring(order)[k + 1]].next == Ring(order)[k + 2];
        b := buf[b].next;
        k := k + 1;
      }
      forall i | 0 <= i < NBUF ensures !Caches(buf[i], dev, blockno) {
        var j := OrderCovers(buf, order, i);
      }
    }

    /** bget's second loop: backward over the list for an unreferenced buffer. */
    method FindUnused() returns (b: nat)
      requires Valid()
      ensures b == HEAD || (b < NBUF && LeastRecent(buf, order, b))
      ensures b == HEAD ==> forall i | 0 <= i < NBUF :: buf[i].refcnt > 0
    {
      assert buf[Ring(order)[NBUF + 1]].prev == Ring(order)[NBUF];
      b := buf[HEAD].prev;
      ghost var k := NBUF;
      while b != HEAD
        invariant 0 <= k <= NBUF && b == Ring(order)[k]
        invariant forall j | k <= j < NBUF :: buf[order[j]].refcnt != 0
        decreases k
      {
        if buf[b].refcnt == 0 {
          assert order[k - 1] == b;
          return;
        }
        assert buf[Ring(order)[k]].prev == Ring(order)[k - 1];
        b := buf[b].prev;
        k := k - 1;
      }
      forall i | 0 <= i < NBUF ensures buf[i].refcnt > 0 {
        var j := OrderCovers(buf, order, i);
      }
    }

    /** acquiresleep at the end of bget: taken once nobody else holds the buffer. */
    method AcquireSleep(b: nat)
      requires Valid() && b < NBUF && waits[b] > 0 && !buf[b].locked
      modifies this`waits, this`buf
      ensures Valid()
      ensures waits == old(waits)[b := old(waits)[b] - 1]
      ensures buf == old(buf)[b := old(buf[b]).(locked := true)]
    {
      ghost var s := buf;
      buf := buf[b := buf[b].(locked := true)];
      waits := waits[b := waits[b] - 1];
      assert buf == s[b := buf[b]];
      TouchKeepsGood(s, order, old(waits), pins, view, disk, b, buf[b], waits, pins, view, disk);
    }

    /** bread's second half: read the block in if the buffer was just recycled. */
    method Fill(b: nat)
      requires Valid() && b < NBUF && buf[b].locked && buf[b].dev == ROOTDEV
      modifies this`buf
      ensures Valid()
      ensures buf == old(buf)[b := old(buf[b]).(
                valid := true, data := if old(buf[b].valid) then old(buf[b].data) else disk[old(buf[b].blockno)])]
    {
      ghost var s := buf;
      if !buf[b].valid {
        buf := buf[b := buf[b].(data := disk[buf[b].blockno])];
        buf := buf[b := buf[b].(valid := true)];
      }
      assert buf == s[b := buf[b]];
      TouchKeepsGood(s, order, waits, pins, view, disk, b, buf[b], waits, pins, view, disk);
    }

    /** Return a locked buffer holding the block's current contents. Running to the end
        without sleeping means nobody else has the buffer locked. */
    method Bread(blockno: nat) returns (r: Got)
      requires Valid() && blockno < |view|
      requires forall i | 0 <= i < NBUF && Caches(buf[i], ROOTDEV, blockno) :: !buf[i].locked
      modifies this`waits, this`buf
      ensures Valid() && waits == old(waits)
      ensures r.NoBuffers? <==> !old(Cached(buf, ROOTDEV, blockno))
                                && forall i | 0 <= i < NBUF :: old(buf[i].refcnt) > 0
      ensures r.NoBuffers? ==> buf == old(buf)
      ensures r.Found? ==>
        && r.i < NBUF
        && buf == old(buf)[r.i := buf[r.i]]
        && Caches(buf[r.i], ROOTDEV, blockno)
        && buf[r.i].locked && buf[r.i].valid && !old(buf[r.i].locked)
        && buf[r.i].refcnt == old(buf[r.i].refcnt) + 1
        && buf[r.i].data == view[blockno]
        && (Caches(old(buf[r.i]), ROOTDEV, blockno) || old(buf[r.i].refcnt) == 0)
    {
      ghost var s := buf;
      r := Bget(ROOTDEV, blockno);
      if r.Found? {
        assert !s[r.i].locked && waits[r.i] > 0;
        assert buf[r.i].valid ==> buf[r.i].data == view[blockno];
        AcquireSleep(r.i);
        assert !buf[r.i].valid ==> view[blockno] == disk[blockno];
        Fill(r.i);
      }
    }

    /** The holder of a buffer changes its contents in place. */
    method SetData(b: nat, data: Block)
      requires Valid() && b < NBUF && buf[b].locked && buf[b].valid
      modifies this`buf
      ensures Valid()
      ensures buf == old(buf)[b := old(buf[b]).(data := data)]
    {
      ghost var s := buf;
      buf := buf[b := buf[b].(data := data)];
      assert buf == s[b := buf[b]];
      TouchKeepsGood(s, order, waits, pins, view, disk, b, buf[b], waits, pins, view, disk);
    }

    /** Write a held buffer to disk: the abstract map and the disk both take its contents. */
    method Bwrite(b: nat)
      requires Valid() && b < NBUF && buf[b].locked && buf[b].valid && buf[b].dev == ROOTDEV
      modifies this`disk, this`view, this`writes
      ensures Valid()
      ensures disk == old(disk)[buf[b].blockno := buf[b].data]
      ensures view == old(view)[buf[b].blockno := buf[b].data]
      ensures writes == old(writes) + [Write(buf[b].blockno, buf[b].data)]
    {
      disk := disk[buf[b].blockno := buf[b].data];
      view := view[buf[b].blockno := buf[b].data];
      writes := writes + [Write(buf[b].blockno, buf[b].data)];
      assert buf == buf[b := buf[b]];
      TouchKeepsGood(buf, order, waits, pins, old(view), old(disk), b, buf[b], waits, pins, view, disk);
    }

    /** releasesleep at the start of brelse. The holder must have logged or written what it changed, and
        still has its reference. */
    method ReleaseSleep(b: nat)
      requires Valid() && b < NBUF && buf[b].locked
      requires buf[b].dev == ROOTDEV && buf[b].valid ==> buf[b].data == view[buf[b].blockno]
      modifies this`waits, this`buf
      ensures Valid()
      ensures waits == old(waits)[b := old(waits)[b] + 1] && buf == old(buf)[b := old(buf[b]).(locked := false)]
    {
      ghost var s := buf;
      waits := waits[b := waits[b] + 1];
      buf := buf[b := buf[b].(locked := false)];
      TouchKeepsGood(s, order, old(waits), pins, view, disk, b, buf[b], waits, pins, view, disk);
    }

    /** The rest of brelse, under bcache.lock; by now another process may hold the buffer. */
    method DropRef(b: nat)
      requires Valid() && b < NBUF && waits[b] > 0
      modifies this`waits, this`order, this`buf
      ensures Valid() && waits == old(waits)[b := old(waits)[b] - 1]
      ensures forall i | 0 <= i < NBUF ::
        SameButLinks(buf[i], old(buf)[b := old(buf[b]).(refcnt := old(buf[b].refcnt) - 1)][i])
      ensures buf[b].refcnt > 0 ==> order == old(order)
      ensures buf[b].refcnt == 0 ==>
        exists k :: 0 <= k < NBUF && old(order)[k] == b && order == MoveToFront(old(order), k)
    {
      ghost var s := buf;
      waits := waits[b := waits[b] - 1];
      buf := buf[b := buf[b].(refcnt := buf[b].refcnt - 1)];
      TouchKeepsGood(s, order, old(waits), pins, view, disk, b, buf[b], waits, pins, view, disk);
      if buf[b].refcnt == 0 {
        ToFront(b);
      }
    }

    /** Release a held buffer, without interruption. */
    method Brelse(b: nat)
      requires Valid() && b < NBUF && buf[b].locked
      requires buf[b].dev == ROOTDEV && buf[b].valid ==> buf[b].data == view[buf[b].blockno]
      modifies this`waits, this`order, this`buf
      ensures Valid() && waits == old(waits)
      ensures forall i | 0 <= i < NBUF ::
        SameButLinks(buf[i], old(buf)[b := old(buf[b]).(locked := false, refcnt := old(buf[b].refcnt) - 1)][i])
      ensures buf[b].refcnt > 0 ==> order == old(order)
      ensures buf[b].refcnt == 0 ==>
        exists k :: 0 <= k < NBUF && old(order)[k] == b && order == MoveToFront(old(order), k)
    {
      hide Good;
      Sizes();
      ReleaseSleep(b);
      Sizes();
      DropRef(b);
    }

    /** The unlink and relink at the end of brelse. */
    method ToFront(b: nat)
      requires Valid() && b < NBUF
      modifies this`order, this`buf
      ensures Valid()
      ensures forall i | 0 <= i < NBUF :: SameButLinks(buf[i], old(buf[i]))
      ensures exists k :: 0 <= k < NBUF && old(order)[k] == b && order == MoveToFront(old(order), k)
    {
      ghost var s := buf;
      ghost var k := OrderCovers(s, order, b);
      NeverOwnNeighbour(s, order, k);
      buf := buf[buf[b].next := buf[buf[b].next].(prev := buf[b].prev)];
      buf := buf[buf[b].prev := buf[buf[b].prev].(next := buf[b].next)];
      buf := buf[b := buf[b].(next := buf[HEAD].next)];
      buf := buf[b := buf[b].(prev := HEAD)];
      buf := buf[buf[HEAD].next := buf[buf[HEAD].next].(prev := b)];
      buf := buf[HEAD := buf[HEAD].(next := b)];
      assert buf == Relink(s, b);
      order := MoveToFront(order, k);
      RelinkMovesToFront(s, old(order), k);
      RelinkKeepsGood(s, old(order), waits, pins, view, disk, k);
    }

    /** Replace the contents of a held buffer and write it. */
    method Store(b: nat, data: Block)
      requires Valid() && b < NBUF && buf[b].locked && buf[b].valid && buf[b].dev == ROOTDEV
      modifies this`disk, this`view, this`writes, this`buf
      ensures Valid()
      ensures disk == old(disk)[old(buf[b].blockno) := data]
      ensures view == old(view)[old(buf[b].blockno) := data]
      ensures writes == old(writes) + [Write(old(buf[b].blockno), data)]
      ensures buf == old(buf)[b := old(buf[b]).(data := data)]
    {
      SetData(b, data);
      Bwrite(b);
    }

    /** Keep a buffer in the cache. The logged contents become the abstract map's. */
    method Bpin(b: nat)
      requires Valid() && b < NBUF && buf[b].locked && buf[b].valid && buf[b].dev == ROOTDEV
      modifies this`pins, this`view, this`buf
      ensures Valid()
      ensures pins == old(pins)[b := old(pins)[b] + 1]
      ensures buf == old(buf)[b := old(buf[b]).(refcnt := old(buf[b].refcnt) + 1)]
      ensures view == old(view)[buf[b].blockno := buf[b].data]
    {
      ghost var s := buf;
      buf := buf[b := buf[b].(refcnt := buf[b].refcnt + 1)];
      pins := pins[b := pins[b] + 1];
      view := view[buf[b].blockno := buf[b].data];
      assert buf == s[b := buf[b]];
      TouchKeepsGood(s, order, waits, old(pins), old(view), disk, b, buf[b], waits, pins, view, disk);
    }

    /** Logging a block again: it is pinned already, so only the abstract map changes. */
    ghost method Absorb(b: nat)
      requires Valid() && b < NBUF && buf[b].locked && pins[b] > 0
      modifies this`view
      ensures Valid() && view == old(view)[buf[b].blockno := buf[b].data]
    {
      view := view[buf[b].blockno := buf[b].data];
      assert buf == buf[b := buf[b]];
      TouchKeepsGood(buf, order, waits, pins, old(view), disk, b, buf[b], waits, pins, view, disk);
    }

    /** Drop a pin. The last pin may go only once the block is on disk. */
    method Bunpin(b: nat)
      requires Valid() && b < NBUF && pins[b] > 0
      requires pins[b] > 1 || view[buf[b].blockno] == disk[buf[b].blockno]
      modifies this`pins, this`buf
      ensures Valid()
      ensures pins == old(pins)[b := old(pins)[b] - 1]
      ensures buf == old(buf)[b := old(buf[b]).(refcnt := old(buf[b].refcnt) - 1)]
    {
      ghost var s := buf;
      buf := buf[b := buf[b].(refcnt := buf[b].refcnt - 1)];
      pins := pins[b := pins[b] - 1];
      assert buf == s[b := buf[b]];
      TouchKeepsGood(s, order, waits, old(pins), view, disk, b, buf[b], waits, pins, view, disk);
    }
  }

  /** Changing one buffer, its counts, and its block's entry in map and disk, keeps the
      cache good if that buffer stays counted, coherent and durable. */
  lemma TouchKeepsGood(s: seq<Buf>, order: seq<nat>, waits: seq<nat>, pins: seq<nat>,
                       view: seq<Block>, disk: seq<Block>, b: nat, nb: Buf,
                       waits': seq<nat>, pins': seq<nat>, view': seq<Block>, disk': seq<Block>)
    requires Good(s, order, waits, pins, view, disk) && b < NBUF
    requires nb.dev == s[b].dev && nb.blockno == s[b].blockno && nb.prev == s[b].prev && nb.next == s[b].next
    requires |waits'| == NBUF && |pins'| == NBUF && |view'| == |view| && |disk'| == |disk|
    requires forall i | 0 <= i < NBUF && i != b :: waits'[i] == waits[i] && pins'[i] == pins[i]
    requires nb.refcnt == (if nb.locked then 1 else 0) + waits'[b] + pins'[b]
    requires forall bno | 0 <= bno < |view| && !Caches(nb, ROOTDEV, bno) :: view'[bno] == view[bno] && disk'[bno] == disk[bno]
    requires nb.dev == ROOTDEV && nb.valid && !nb.locked ==> nb.data == view'[nb.blockno]
    requires pins'[b] > 0 ==> nb.valid && nb.dev == ROOTDEV
    requires nb.dev == ROOTDEV ==>
      pins'[b] > 0 || view'[nb.blockno] == disk'[nb.blockno] || (pins' == pins && view' == view && disk' == disk)
    ensures Good(s[b := nb], order, waits', pins', view', disk')
  {
  }

  lemma InsertThreads(s: seq<Buf>, order: seq<nat>, b: nat, t: seq<Buf>)
    requires Threaded(s, order) && b < NBUF && b !in order
    requires s[HEAD].next <= NBUF
    requires var s1 := s[b := s[b].(next := s[HEAD].next, prev := HEAD)];
             var s2 := s1[s[HEAD].next := s1[s[HEAD].next].(prev := b)];
             t == s2[HEAD := s2[HEAD].(next := b)]
    ensures Threaded(t, [b] + order)
  {
    var r, r' := Ring(order), Ring([b] + order);
    assert s[r[0]].next == r[1];
    forall k | 0 <= k <= |order| + 1
      ensures t[r'[k]].next == r'[k + 1] && t[r'[k + 1]].prev == r'[k]
    {
      if k >= 1 {
        assert r'[k] == (if k == 1 then b else r[k - 1]) && r'[k + 1] == r[k];
        assert s[r[k - 1]].next == r[k] && s[r[k]].prev == r[k - 1];
      }
    }
  }

  lemma FreshIsGood(s: seq<Buf>, order: seq<nat>, waits: seq<nat>, pins: seq<nat>, disk: seq<Block>)
    requires Linked(s, order) && |waits| == |pins| == NBUF
    requires forall i | 0 <= i < NBUF :: waits[i] == pins[i] == 0
    requires forall i | 0 <= i < NBUF :: s[i].dev == 0 && s[i].refcnt == 0 && !s[i].locked
    ensures Good(s, order, waits, pins, disk, disk)
  {
  }

  lemma NeverOwnNeighbour(s: seq<Buf>, order: seq<nat>, k: nat)
    requires Linked(s, order) && k < NBUF
    ensures s[order[k]].next != order[k] && s[order[k]].prev != order[k]
    ensures s[order[k]].next <= NBUF && s[order[k]].prev <= NBUF && s[HEAD].next <= NBUF
  {
    var r := Ring(order);
    assert s[r[k]].next == r[k + 1] && s[r[k + 1]].next == r[k + 2] && s[r[0]].next == r[1];
    assert s[r[k + 1]].prev == r[k];
  }

  lemma RelinkKeepsGood(s: seq<Buf>, order: seq<nat>, waits: seq<nat>, pins: seq<nat>,
                        view: seq<Block>, disk: seq<Block>, k: nat)
    requires Good(s, order, waits, pins, view, disk) && k < NBUF
    requires s[order[k]].next <= NBUF && s[order[k]].prev <= NBUF && s[HEAD].next <= NBUF
    ensures Good(Relink(s, order[k]), MoveToFront(order, k), waits, pins, view, disk)
  {
    RelinkMovesToFront(s, order, k);
    var t := Relink(s, order[k]);
    forall i, j | 0 <= i < j < NBUF && t[i].dev != 0 ensures !Caches(t[j], t[i].dev, t[i].blockno) {
      assert !Caches(s[j], s[i].dev, s[i].blockno);
    }
    forall bno | 0 <= bno < |view| && view[bno] != disk[bno] ensures Pinned(t, pins, bno) {
      var i :| 0 <= i < NBUF && pins[i] > 0 && Caches(s[i], ROOTDEV, bno);
      assert Caches(t[i], ROOTDEV, bno);
    }
  }

  /** Recycling an unreferenced buffer loses nothing: the block it held is clean. */
  lemma RecycleKeepsGood(s: seq<Buf>, order: seq<nat>, waits: seq<nat>, pins: seq<nat>,
                         view: seq<Block>, disk: seq<Block>, b: nat, dev: nat, blockno: nat)
    requires Good(s, order, waits, pins, view, disk)
    requires b < NBUF && s[b].refcnt == 0 && dev != 0 && !Cached(s, dev, blockno)
    requires dev == ROOTDEV ==> blockno < |view|
    ensures Good(s[b := s[b].(dev := dev, blockno := blockno, valid := false, refcnt := 1)],
                 order, waits[b := waits[b] + 1], pins, view, disk)
  {
  }
}
