/** The group-commit redo log, over the buffer cache.

    The methods run their cache calls without interruption; what other processes may do
    between the block writes of a commit is the subject of module LogRuns.
 */
module RedoLog {
  import opened Params
  import opened Blocks
  import opened Collections
  import opened BufferCache
  import opened Recovery

  datatype LogWriteResult = Logged | TooBig | OutsideTransaction

  /** The logged blocks after one more is logged; logging a block again is absorbed. */
  function Record(lh: seq<nat>, bno: nat): (r: seq<nat>) {
    if bno in lh then lh else lh + [bno]
  }

  /** The pins are exactly one on the buffer of each logged block from the t-th on. */
  ghost predicate PinsMatch(s: seq<Buf>, pins: seq<nat>, lh: seq<nat>, slot: seq<nat>, t: nat) {
    && |s| == NBUF + 1 && |pins| == NBUF && |slot| == |lh| && t <= |lh|
    && (forall k | t <= k < |lh| :: slot[k] < NBUF && Caches(s[slot[k]], ROOTDEV, lh[k]))
    && (forall i | 0 <= i < NBUF :: pins[i] == if i in slot[t..] then 1 else 0)
  }

  /** Every buffer keeps its references, and every referenced buffer its block. */
  ghost predicate Steady(s: seq<Buf>, s': seq<Buf>) {
    && |s| == |s'| == NBUF + 1
    && forall i | 0 <= i < NBUF ::
         && s'[i].refcnt == s[i].refcnt && s'[i].locked == s[i].locked
         && (s[i].refcnt > 0 ==> s'[i].dev == s[i].dev && s'[i].blockno == s[i].blockno)
  }

  /** A buffer that went from nobody's to held, with the given block in it. */
  ghost predicate HeldFor(b: Buf, b': Buf, bno: nat) {
    && Caches(b', ROOTDEV, bno) && b'.valid
    && b'.locked && b'.refcnt == b.refcnt + 1
    && (b.refcnt > 0 ==> b.dev == b'.dev && b.blockno == b'.blockno)
  }

  ghost predicate HeldClean(b: Buf, view: seq<Block>) {
    b.locked && b.valid && b.dev == ROOTDEV && b.blockno < |view| && b.data == view[b.blockno]
  }

  /** What releasing does to a buffer, and not releasing it. */
  ghost predicate Released(b: Buf, b': Buf, released: bool) {
    && b'.dev == b.dev && b'.blockno == b.blockno
    && if released then !b'.locked && b'.refcnt == b.refcnt - 1
       else b'.locked == b.locked && b'.refcnt == b.refcnt
  }

  lemma HeldAndReleased(s: seq<Buf>, s1: seq<Buf>, s2: seq<Buf>, waits: seq<nat>, a: nat, b: nat, x: nat, y: nat)
    requires Unheld(s, waits) && |s1| == |s2| == NBUF + 1 && a < NBUF && b < NBUF && a != b
    requires forall i | 0 <= i < NBUF && i != a && i != b :: s1[i] == s[i]
    requires HeldFor(s[a], s1[a], x) && HeldFor(s[b], s1[b], y)
    requires forall i | 0 <= i < NBUF :: Released(s1[i], s2[i], i == a || i == b)
    ensures Steady(s, s2)
  {
  }

  ghost function Unref(s: seq<Buf>, i: nat): seq<Buf>
    requires i < |s| && s[i].refcnt > 0
  {
    s[i := s[i].(refcnt := s[i].refcnt - 1)]
  }

  ghost predicate Unheld(s: seq<Buf>, waits: seq<nat>) {
    && |s| == NBUF + 1 && |waits| == NBUF
    && forall i | 0 <= i < NBUF :: !s[i].locked && waits[i] == 0
  }

  ghost predicate Referenced(s: seq<Buf>, bno: nat) {
    |s| == NBUF + 1 && exists i :: 0 <= i < NBUF && Caches(s[i], ROOTDEV, bno) && s[i].refcnt > 0
  }

  ghost predicate TwoSpare(s: seq<Buf>) {
    |s| == NBUF + 1 && exists i, j :: 0 <= i < j < NBUF && s[i].refcnt == s[j].refcnt == 0
  }

  ghost predicate SpareIn(s: seq<Buf>) {
    |s| == NBUF + 1 && exists i :: 0 <= i < NBUF && s[i].refcnt == 0
  }

  lemma SteadyKeepsPins(s: seq<Buf>, s': seq<Buf>, waits: seq<nat>, pins: seq<nat>,
                        lh: seq<nat>, slot: seq<nat>, t: nat)
    requires PinsMatch(s, pins, lh, slot, t) && Steady(s, s') && Counted(s, waits, pins)
    ensures PinsMatch(s', pins, lh, slot, t)
    ensures Unheld(s, waits) ==> Unheld(s', waits)
    ensures SpareIn(s) ==> SpareIn(s')
  {
    if SpareIn(s) {
      var i :| 0 <= i < NBUF && s[i].refcnt == 0;
      assert s'[i].refcnt == 0;
    }
    forall k | t <= k < |lh| ensures Caches(s'[slot[k]], ROOTDEV, lh[k]) {
      assert slot[k] == slot[t..][k - t];
    }
  }

  /** Dropping the pin of the t-th logged block leaves the later ones pinned. */
  lemma UnpinKeepsPins(s: seq<Buf>, waits: seq<nat>, pins: seq<nat>, lh: seq<nat>, slot: seq<nat>, t: nat)
    requires PinsMatch(s, pins, lh, slot, t) && t < |lh| && Distinct(lh)
    requires Unheld(s, waits) && Counted(s, waits, pins)
    ensures slot[t] < NBUF && s[slot[t]].refcnt > 0
    ensures PinsMatch(Unref(s, slot[t]), pins[slot[t] := 0], lh, slot, t + 1)
    ensures Unheld(Unref(s, slot[t]), waits) && Counted(Unref(s, slot[t]), waits, pins[slot[t] := 0])
  {
    assert slot[t..] == [slot[t]] + slot[t + 1..];
    assert forall k | t < k < |lh| :: slot[k] != slot[t];
  }

  /** Pinning the buffer of a newly logged block. */
  lemma PinKeepsPins(s: seq<Buf>, pins: seq<nat>, lh: seq<nat>, slot: seq<nat>, b: nat, refcnt: nat)
    requires PinsMatch(s, pins, lh, slot, 0) && b < NBUF
    requires s[b].dev == ROOTDEV && s[b].blockno !in lh
    ensures PinsMatch(s[b := s[b].(refcnt := refcnt)], pins[b := pins[b] + 1], lh + [s[b].blockno], slot + [b], 0)
  {
    assert b !in slot by {
      forall k | 0 <= k < |lh| ensures slot[k] != b {
        assert Caches(s[slot[k]], ROOTDEV, lh[k]);
      }
    }
    assert slot[0..] == slot && (slot + [b])[0..] == slot + [b];
  }

  /** While every referenced buffer keeps its block, the logged blocks stay pinned. */
  lemma ReferencedKeepPins(s: seq<Buf>, s': seq<Buf>, waits: seq<nat>, pins: seq<nat>, lh: seq<nat>, slot: seq<nat>)
    requires PinsMatch(s, pins, lh, slot, 0) && Counted(s, waits, pins) && |s'| == NBUF + 1
    requires forall i | 0 <= i < NBUF && s[i].refcnt > 0 :: s'[i].dev == s[i].dev && s'[i].blockno == s[i].blockno
    ensures PinsMatch(s', pins, lh, slot, 0)
  {
    forall k | 0 <= k < |lh| ensures Caches(s'[slot[k]], ROOTDEV, lh[k]) {
      assert slot[0..][k] == slot[k];
    }
  }

  lemma AllUnpinned(s: seq<Buf>, pins: seq<nat>, lh: seq<nat>, slot: seq<nat>)
    requires PinsMatch(s, pins, lh, slot, |lh|)
    ensures PinsMatch(s, pins, [], [], 0)
  {
  }

  class Log {
    const cache: BCache
    const start: nat
    /** `lh.n` and `lh.block`. */
    var n: nat
    var block: seq<nat>
    var outstanding: nat
    var committing: bool
    /** Which buffer each logged block is pinned in. */
    ghost var slot: seq<nat>

    /** The log's own state is sound and exactly the logged blocks from the t-th on are pinned. */
    ghost predicate ValidFrom(t: nat)
      reads this, cache
    {
      && cache.Valid()
      && |block| == LOGBLOCKS && n <= LOGBLOCKS
      && LogFits(start, |cache.view|)
      && LogList(block[..n], start, |cache.view|)
      && PinsMatch(cache.buf, cache.pins, block[..n], slot, t)
    }

    ghost predicate Valid()
      reads this, cache
    {
      ValidFrom(0)
    }

    ghost function Lh(): seq<nat>
      reads this
      requires n <= |block|
    {
      block[..n]
    }

    /** No process holds a buffer or is about to. */
    ghost predicate NobodyHolds()
      reads cache
    {
      Unheld(cache.buf, cache.waits)
    }

    /** Exactly the block writes `ws` have been issued. */
    twostate predicate Issued(new ws: seq<Write>)
      reads cache
    {
      && |old(cache.disk)| == |old(cache.view)| && InRange(ws, |old(cache.view)|)
      && cache.writes == old(cache.writes) + ws
      && cache.view == Apply(old(cache.view), ws)
      && cache.disk == Apply(old(cache.disk), ws)
    }

    ghost predicate Spare()
      reads cache
    {
      SpareIn(cache.buf)
    }

    /** initlog: boot with no buffer in use and recover whatever the disk's log holds. */
    constructor (cache: BCache, start: nat)
      requires cache.Valid() && LogOk(cache.view, start)
      requires forall i | 0 <= i < NBUF :: cache.pins[i] == cache.waits[i] == 0 && !cache.buf[i].locked
      modifies cache
      ensures Valid() && NobodyHolds() && n == outstanding == 0 && !committing
      ensures this.cache == cache && this.start == start
      ensures InRange(RecoveryWrites(old(cache.view), start), |old(cache.view)|)
      ensures cache.view == cache.disk == Apply(old(cache.view), RecoveryWrites(old(cache.view), start))
    {
      this.cache := cache;
      this.start := start;
      n := 0;
      block := seq(LOGBLOCKS, _ => 0);
      outstanding := 0;
      committing := false;
      slot := [];
      new;
      RecoverFromLog();
    }

    /** Store the in-memory header in the header block. */
    method WriteHead(ghost t: nat)
      requires ValidFrom(t) && NobodyHolds() && Spare()
      modifies cache`waits, cache`order, cache`disk, cache`view, cache`writes, cache`buf
      ensures ValidFrom(t) && NobodyHolds() && Spare()
      ensures Wrote(Write(start, Head(old(cache.view)[start], Lh())))
    {
      hide Good;
      cache.Sizes();
      ghost var s := cache.buf;
      StoreHead();
      SteadyKeepsPins(s, cache.buf, cache.waits, cache.pins, Lh(), slot, t);
    }

    method StoreHead()
      requires cache.Valid() && NobodyHolds() && Spare()
      requires n <= LOGBLOCKS && |block| == LOGBLOCKS && start < |cache.view|
      modifies cache`waits, cache`order, cache`disk, cache`view, cache`writes, cache`buf
      ensures cache.Valid() && cache.waits == old(cache.waits)
      ensures Steady(old(cache.buf), cache.buf)
      ensures Wrote(Write(start, Head(old(cache.view)[start], Lh())))
    {
      hide Good;
      cache.Sizes();
      var r := cache.Bread(start);
      var b := r.i;
      var hb := FormatHead(cache.buf[b].data);
      cache.Store(b, hb);
      cache.Brelse(b);
      cache.Sizes();
    }

    /** write_head's loop over the words of the header block. */
    method FormatHead(stale: Block) returns (hb: Block)
      requires n <= LOGBLOCKS && |block| == LOGBLOCKS
      ensures hb == Head(stale, Lh())
    {
      hb := SetWord(stale, 0, n);
      var i := 0;
      while i < n
        invariant 0 <= i <= n
        invariant hb == PutHead(stale, Lh(), i)
      {
        hb := SetWord(hb, i + 1, block[i]);
        i := i + 1;
      }
    }

    /** Buffers for two blocks at once, both held; it panics if there is none for the first. */
    method HoldTwo(x: nat, y: nat) returns (ok: bool, a: nat, b: nat)
      requires cache.Valid() && NobodyHolds() && x != y && x < |cache.view| && y < |cache.view|
      requires Referenced(cache.buf, y) || TwoSpare(cache.buf)
      modifies cache`waits, cache`buf
      ensures ok <==> old(Cached(cache.buf, ROOTDEV, x) || Spare())
      ensures !ok ==> cache.buf == old(cache.buf)
      ensures cache.Valid() && cache.waits == old(cache.waits)
      ensures a < NBUF && b < NBUF && a != b
      ensures ok ==>
        && cache.buf == old(cache.buf)[a := cache.buf[a]][b := cache.buf[b]]
        && HeldFor(old(cache.buf[a]), cache.buf[a], x) && cache.buf[a].data == cache.view[x]
        && HeldFor(old(cache.buf[b]), cache.buf[b], y) && cache.buf[b].data == cache.view[y]
    {
      hide Good;
      cache.Sizes();
      ghost var s := cache.buf;
      var r := cache.Bread(x);
      if r.NoBuffers? {
        return false, 0, 1;
      }
      a := r.i;
      cache.Sizes();
      assert Referenced(s, y) ==> Cached(cache.buf, ROOTDEV, y);
      assert TwoSpare(s) ==> exists i :: 0 <= i < NBUF && cache.buf[i].refcnt == 0;
      var q := cache.Bread(y);
      b := q.i;
      ok := true;
    }

    method ReleaseTwo(a: nat, b: nat)
      requires cache.Valid() && a < NBUF && b < NBUF && a != b
      requires HeldClean(cache.buf[a], cache.view) && HeldClean(cache.buf[b], cache.view)
      modifies cache`waits, cache`order, cache`buf
      ensures cache.Valid() && cache.waits == old(cache.waits)
      ensures forall i | 0 <= i < NBUF :: Released(old(cache.buf[i]), cache.buf[i], i == a || i == b)
    {
      cache.Brelse(a);
      cache.Brelse(b);
    }

    /** The body of write_log's loop: copy one logged block from the cache to the log. */
    method CopyToLog(tail: nat, bno: nat) returns (ok: bool)
      requires cache.Valid() && NobodyHolds() && bno < |cache.view|
      requires LogBlock(start, tail) != bno && LogBlock(start, tail) < |cache.view|
      requires Referenced(cache.buf, bno)
      modifies cache`waits, cache`order, cache`disk, cache`view, cache`writes, cache`buf
      ensures cache.Valid() && cache.waits == old(cache.waits)
      ensures ok <==> old(Cached(cache.buf, ROOTDEV, LogBlock(start, tail)) || Spare())
      ensures Steady(old(cache.buf), cache.buf)
      ensures ok ==> Issued([Write(LogBlock(start, tail), old(cache.view)[bno])])
      ensures !ok ==> cache.writes == old(cache.writes) && cache.view == old(cache.view) && cache.disk == old(cache.disk)
    {
      hide Good;
      cache.Sizes();
      ghost var s := cache.buf;
      var to, from;
      ok, to, from := HoldTwo(LogBlock(start, tail), bno);
      if ok {
        cache.Store(to, cache.buf[from].data);
        ghost var s1 := cache.buf;
        ReleaseTwo(from, to);
        cache.Sizes();
        HeldAndReleased(s, s1, cache.buf, cache.waits, to, from, LogBlock(start, tail), bno);
        ApplyOne(old(cache.view), Write(LogBlock(start, tail), old(cache.view)[bno]));
        ApplyOne(old(cache.disk), Write(LogBlock(start, tail), old(cache.view)[bno]));
      }
    }

    /** Write a block home and, unless this is a recovery, drop its pin. */
    method StoreHome(b: nat, data: Block, recovering: bool)
      requires cache.Valid() && b < NBUF
      requires cache.buf[b].locked && cache.buf[b].valid && cache.buf[b].dev == ROOTDEV
      requires !recovering ==> cache.pins[b] > 0
      modifies cache`disk, cache`view, cache`writes, cache`pins, cache`buf
      ensures cache.Valid()
      ensures cache.pins == if recovering then old(cache.pins) else old(cache.pins)[b := old(cache.pins[b]) - 1]
      ensures cache.buf == old(cache.buf)[b := old(cache.buf[b]).(
                data := data, refcnt := old(cache.buf[b].refcnt) - if recovering then 0 else 1)]
      ensures cache.disk == old(cache.disk)[cache.buf[b].blockno := data]
      ensures cache.view == old(cache.view)[cache.buf[b].blockno := data]
      ensures cache.writes == old(cache.writes) + [Write(cache.buf[b].blockno, data)]
    {
      cache.Store(b, data);
      if !recovering {
        cache.Bunpin(b);
      }
    }

    /** The body of install_trans's loop: copy one block from the log to its home, and drop the
        pin of the buffer it is in unless this is a recovery. */
    method CopyHome(tail: nat, bno: nat, recovering: bool, ghost i: nat)
      requires cache.Valid() && NobodyHolds() && Spare() && bno < |cache.view|
      requires LogBlock(start, tail) != bno && LogBlock(start, tail) < |cache.view|
      requires if recovering then TwoSpare(cache.buf)
               else i < NBUF && Caches(cache.buf[i], ROOTDEV, bno) && cache.pins[i] == 1
      modifies cache
      ensures cache.Valid() && cache.waits == old(cache.waits)
      ensures cache.pins == if recovering then old(cache.pins) else old(cache.pins)[i := 0]
      ensures Steady(if recovering then old(cache.buf) else Unref(old(cache.buf), i), cache.buf)
      ensures Issued([Write(bno, old(cache.view)[LogBlock(start, tail)])])
    {
      hide Good;
      cache.Sizes();
      ghost var s := cache.buf;
      var ok, lbuf, dbuf := HoldTwo(LogBlock(start, tail), bno);
      if !recovering {
        cache.SameBuffer(dbuf, i, bno);
      }
      StoreHome(dbuf, cache.buf[lbuf].data, recovering);
      ghost var s1 := cache.buf;
      ReleaseTwo(lbuf, dbuf);
      cache.Sizes();
      HeldAndReleased(if recovering then s else Unref(s, i), s1, cache.buf, cache.waits, lbuf, dbuf,
                      LogBlock(start, tail), bno);
      ApplyOne(old(cache.view), Write(bno, old(cache.view)[LogBlock(start, tail)]));
      ApplyOne(old(cache.disk), Write(bno, old(cache.view)[LogBlock(start, tail)]));
    }
  
    /** One block write: the disk and the abstract map both take it. */
    twostate predicate Wrote(new w: Write)
      reads cache
    {
      && w.bno < |old(cache.view)| && |old(cache.disk)| == |old(cache.view)|
      && cache.writes == old(cache.writes) + [w]
      && cache.view == old(cache.view)[w.bno := w.data]
      && cache.disk == old(cache.disk)[w.bno := w.data]
    }

    method LogOne(tail: nat) returns (ok: bool)
      requires Valid() && NobodyHolds() && tail < n
      modifies cache`waits, cache`order, cache`disk, cache`view, cache`writes, cache`buf
      ensures Valid() && NobodyHolds()
      ensures ok <==> n < NBUF
      ensures ok ==> Wrote(Write(LogBlock(start, tail), old(cache.view)[block[tail]]))
      ensures !ok ==> cache.writes == old(cache.writes) && cache.view == old(cache.view) && cache.disk == old(cache.disk)
    {
      hide Good;
      cache.Sizes();
      RoomToCommit();
      assert slot[tail] == slot[0..][tail];
      ghost var s := cache.buf;
      assert cache.pins[slot[tail]] == 1;
      assert Referenced(s, block[tail]);
      assert n == NBUF ==> !Cached(s, ROOTDEV, LogBlock(start, tail));
      ok := CopyToLog(tail, block[tail]);
      SteadyKeepsPins(s, cache.buf, cache.waits, cache.pins, Lh(), slot, 0);
      ApplyOne(old(cache.view), Write(LogBlock(start, tail), old(cache.view)[block[tail]]));
      ApplyOne(old(cache.disk), Write(LogBlock(start, tail), old(cache.view)[block[tail]]));
    }

    /** Copy the logged blocks from the cache to the log. It panics, before any write, exactly
        when every buffer is pinned. */
    method WriteLog() returns (ok: bool)
      requires Valid() && NobodyHolds() && n > 0
      modifies cache`waits, cache`order, cache`disk, cache`view, cache`writes, cache`buf
      ensures Valid() && NobodyHolds()
      ensures ok <==> n < NBUF
      ensures ok ==> Issued(LogCopies(old(cache.view), start, Lh()))
      ensures !ok ==> cache.writes == old(cache.writes) && cache.view == old(cache.view) && cache.disk == old(cache.disk)
    {
      hide Good, Progress, PinsMatch, Unheld;
      ghost var view0 := cache.view;
      ghost var ws := LogCopies(view0, start, Lh());
      cache.Sizes();
      ok := true;
      ProgressZero(cache.writes, view0, cache.disk, ws);
      var tail := 0;
      while tail < n
        invariant 0 <= tail <= n && (tail > 0 ==> n < NBUF)
        invariant tail == 0 ==> cache.writes == old(cache.writes) && cache.view == view0 && cache.disk == old(cache.disk)
        invariant Valid() && NobodyHolds()
        invariant |cache.view| == |view0|
        invariant Progress(old(cache.writes), view0, old(cache.disk), ws, tail, cache.writes, cache.view, cache.disk)
        invariant forall k | 0 <= k < n :: cache.view[block[k]] == view0[block[k]]
      {
        ghost var h, v, d := cache.writes, cache.view, cache.disk;
        ok := LogOne(tail);
        if !ok {
          return;
        }
        assert ws[tail] == Write(LogBlock(start, tail), view0[block[tail]]);
        ProgressNext(old(cache.writes), view0, old(cache.disk), ws, tail, h, v, d);
        tail := tail + 1;
      }
      ProgressMeans(old(cache.writes), view0, old(cache.disk), ws, n, cache.writes, cache.view, cache.disk);
      assert ws[..n] == ws;
    }

    lemma SlotsDistinct()
      requires Valid()
      ensures Distinct(slot) && Below(slot, NBUF)
    {
    }

    /** Some buffer is unreferenced exactly when fewer than NBUF blocks are logged; with NBUF
        logged, no log block is cached either. */
    lemma RoomToCommit()
      requires Valid() && NobodyHolds()
      ensures Spare() <==> n < NBUF
      ensures n == NBUF ==> forall i: nat | i < LOGBLOCKS :: !Cached(cache.buf, ROOTDEV, LogBlock(start, i))
    {
      assert slot[0..] == slot;
      if n < NBUF {
        var i := SomeoneMissing(slot, NBUF);
        assert cache.buf[i].refcnt == 0;
      } else {
        SlotsDistinct();
        forall i | 0 <= i < NBUF ensures cache.pins[i] == 1 {
          DistinctCovers(slot, NBUF, i);
        }
        forall i | 0 <= i < NBUF ensures IsHome(start, cache.buf[i].blockno) {
          DistinctCovers(slot, NBUF, i);
          var k :| 0 <= k < n && slot[k] == i;
          assert Caches(cache.buf[slot[k]], ROOTDEV, Lh()[k]);
        }
      }
    }
  
    /** Copy the logged blocks from the log to their homes and, unless this is a recovery,
        unpin them. */
    method InstallTrans(recovering: bool)
      requires ValidFrom(if recovering then n else 0) && NobodyHolds() && (recovering || n < NBUF)
      modifies cache
      ensures ValidFrom(n) && NobodyHolds()
      ensures Issued(Installs(old(cache.view), start, Lh()))
    {
      hide Good, Progress, PinsMatch, Unheld;
      ghost var view0 := cache.view;
      ghost var ws := Installs(view0, start, Lh());
      cache.Sizes();
      ProgressZero(cache.writes, view0, cache.disk, ws);
      var tail := 0;
      while tail < n
        invariant 0 <= tail <= n
        invariant ValidFrom(if recovering then n else tail) && NobodyHolds()
        invariant |cache.view| == |view0|
        invariant Progress(old(cache.writes), view0, old(cache.disk), ws, tail, cache.writes, cache.view, cache.disk)
        invariant forall k | 0 <= k < n :: cache.view[LogBlock(start, k)] == view0[LogBlock(start, k)]
      {
        ghost var h, v, d := cache.writes, cache.view, cache.disk;
        InstallOne(tail, recovering);
        assert ws[tail] == Write(block[tail], view0[LogBlock(start, tail)]);
        ProgressNext(old(cache.writes), view0, old(cache.disk), ws, tail, h, v, d);
        tail := tail + 1;
      }
      ProgressMeans(old(cache.writes), view0, old(cache.disk), ws, n, cache.writes, cache.view, cache.disk);
      assert ws[..n] == ws;
    }

    method InstallOne(tail: nat, recovering: bool)
      requires tail < n && ValidFrom(if recovering then n else tail) && NobodyHolds() && (recovering || n < NBUF)
      modifies cache
      ensures ValidFrom(if recovering then n else tail + 1) && NobodyHolds()
      ensures Wrote(Write(block[tail], old(cache.view)[LogBlock(start, tail)]))
    {
      hide Good;
      cache.Sizes();
      ghost var s := cache.buf;
      if recovering {
        assert s[0].refcnt == s[1].refcnt == 0;
      } else {
        ghost var i := SomeoneMissing(slot[tail..], NBUF);
        assert s[i].refcnt == 0;
        assert slot[tail] == slot[tail..][0];
      }
      CopyHome(tail, block[tail], recovering, slot[tail]);
      if recovering {
        SteadyKeepsPins(s, cache.buf, cache.waits, cache.pins, Lh(), slot, n);
      } else {
        UnpinKeepsPins(s, cache.waits, old(cache.pins), Lh(), slot, tail);
        SteadyKeepsPins(Unref(s, slot[tail]), cache.buf, cache.waits, cache.pins, Lh(), slot, tail + 1);
      }
      ApplyOne(old(cache.view), Write(block[tail], old(cache.view)[LogBlock(start, tail)]));
      ApplyOne(old(cache.disk), Write(block[tail], old(cache.view)[LogBlock(start, tail)]));
    }
  
    /** The four steps of a commit. It panics, before any write, exactly when every buffer is
        pinned; otherwise it issues the commit's writes and leaves the log empty. */
    method Commit() returns (ok: bool)
      requires Valid() && NobodyHolds()
      modifies this`n, this`slot, cache
      ensures ok <==> old(n) < NBUF
      ensures ok ==> Valid() && NobodyHolds() && n == 0 && block == old(block)
      ensures ok ==> Issued(CommitWrites(old(cache.view), start, old(Lh())))
      ensures !ok ==> cache.writes == old(cache.writes) && cache.disk == old(cache.disk)
    {
      hide Good, PinsMatch, Unheld, SpareIn, Apply, LogCopies, Installs, CommitWrites, Head;
      cache.Sizes();
      ok := true;
      if n > 0 {
        ghost var lh, v0, d0 := Lh(), cache.view, cache.disk;
        ok := WriteLog();
        if !ok {
          return;
        }
        ghost var v1, d1 := cache.view, cache.disk;
        RoomToCommit();
        WriteHead(0);
        ghost var v2, d2 := cache.view, cache.disk;
        InstallTrans(false);
        ghost var v3, d3 := cache.view, cache.disk;
        AllUnpinned(cache.buf, cache.pins, lh, slot);
        n := 0;
        slot := [];
        RoomToCommit();
        WriteHead(0);
        assert Lh() == [];
        CommitChain(v0, v1, v2, v3, cache.view, d0, d1, d2, d3, cache.disk, start, lh);
        assert cache.writes == old(cache.writes) + CommitWrites(v0, start, lh);
      } else {
        assert Lh() == [];
        NothingToCommit(cache.disk, cache.view, start);
        NothingToCommit(cache.view, cache.view, start);
      }
    }
  
    /** Load the header the disk holds. */
    method ReadHead()
      requires cache.Valid() && NobodyHolds() && |block| == LOGBLOCKS && LogOk(cache.view, start)
      requires forall i | 0 <= i < NBUF :: cache.pins[i] == 0
      modifies this`n, this`block, this`slot, cache`waits, cache`order, cache`buf
      ensures ValidFrom(n) && NobodyHolds()
      ensures Lh() == HeaderOf(cache.view[start])
    {
      hide Good;
      cache.Sizes();
      ghost var s := cache.buf;
      assert s[0].refcnt == 0;
      var r := cache.Bread(start);
      LoadHead(cache.buf[r.i].data);
      cache.Brelse(r.i);
      cache.Sizes();
      slot := seq(n, _ => 0);
    }

    /** read_head's loop over the words of the header block. */
    method LoadHead(data: Block)
      requires |block| == LOGBLOCKS && Word(data, 0) <= LOGBLOCKS
      modifies this`n, this`block
      ensures |block| == LOGBLOCKS && n == Word(data, 0) && Lh() == HeaderOf(data)
    {
      hide Word;
      n := Word(data, 0);
      var i := 0;
      while i < n
        invariant 0 <= i <= n && |block| == LOGBLOCKS
        invariant forall j | 0 <= j < i :: block[j] == Word(data, 1 + j)
        modifies this`block
      {
        block := block[i := Word(data, 1 + i)];
        i := i + 1;
      }
      assert Lh() == HeaderOf(data);
    }

    /** Boot after a crash or a clean stop: install what the log holds, then clear it. */
    method RecoverFromLog()
      requires cache.Valid() && NobodyHolds() && |block| == LOGBLOCKS && LogOk(cache.view, start)
      requires forall i | 0 <= i < NBUF :: cache.pins[i] == 0
      modifies this`n, this`block, this`slot, cache
      ensures Valid() && NobodyHolds() && n == 0
      ensures Issued(RecoveryWrites(old(cache.view), start))
    {
      hide Good, PinsMatch, Unheld, SpareIn, Apply, Installs, RecoveryWrites, Head;
      cache.Sizes();
      ghost var v0, d0 := cache.view, cache.disk;
      ReadHead();
      ghost var lh := Lh();
      InstallTrans(true);
      ghost var v1, d1 := cache.view, cache.disk;
      AllUnpinned(cache.buf, cache.pins, lh, slot);
      n := 0;
      slot := [];
      RoomToCommit();
      WriteHead(0);
      assert Lh() == [];
      RecoveryChain(v0, v1, cache.view, d0, d1, cache.disk, start, lh);
    }

    /** Record a held, modified home block in the current group. */
    method LogWrite(b: nat) returns (r: LogWriteResult)
      requires Valid() && b < NBUF && cache.buf[b].locked && cache.buf[b].valid && cache.buf[b].dev == ROOTDEV
      requires IsHome(start, cache.buf[b].blockno)
      modifies this`n, this`block, this`slot, cache`pins, cache`view, cache`buf
      ensures Valid()
      ensures r.TooBig? <==> old(n) >= LOGBLOCKS
      ensures r.OutsideTransaction? <==> old(n) < LOGBLOCKS && outstanding < 1
      ensures !r.Logged? ==> Lh() == old(Lh()) && cache.view == old(cache.view)
      ensures r.Logged? ==>
        && Lh() == Record(old(Lh()), old(cache.buf[b].blockno))
        && cache.view == old(cache.view)[old(cache.buf[b].blockno) := old(cache.buf[b].data)]
      ensures cache.buf == old(cache.buf)[b := old(cache.buf[b]).(refcnt := cache.buf[b].refcnt)]
    {
      hide Good, PinsMatch;
      cache.Sizes();
      InBounds(b);
      if n >= LOGBLOCKS {
        return TooBig;
      }
      if outstanding < 1 {
        return OutsideTransaction;
      }
      var bno := cache.buf[b].blockno;
      ghost var lh, s, pins := Lh(), cache.buf, cache.pins;
      var i := FindLogged(bno);
      block := block[i := bno];
      if i == n {
        PinKeepsPins(s, pins, lh, slot, b, s[b].refcnt + 1);
        slot := slot + [b];
        cache.Bpin(b);
        n := n + 1;
        assert Lh() == lh + [bno];
      } else {
        assert Lh() == lh;
        LoggedIsPinned(i, b);
        cache.Absorb(b);
      }
      return Logged;
    }

    lemma InBounds(b: nat)
      requires Valid() && b < NBUF && cache.buf[b].dev == ROOTDEV
      ensures cache.buf[b].blockno < |cache.view|
    {
    }

    lemma LoggedIsPinned(k: nat, b: nat)
      requires Valid() && k < n && b < NBUF && Caches(cache.buf[b], ROOTDEV, block[k])
      ensures cache.pins[b] > 0
    {
      cache.SameBuffer(slot[k], b, block[k]);
      assert slot[k] == slot[0..][k];
    }

    /** log_write's search for a block already in the group. */
    method FindLogged(bno: nat) returns (i: nat)
      requires n <= |block|
      ensures i <= n
      ensures i == n <==> bno !in Lh()
      ensures i < n ==> block[i] == bno
    {
      i := 0;
      while i < n
        invariant 0 <= i <= n
        invariant bno !in block[..i]
      {
        if block[i] == bno {
          assert bno in Lh();
          return;
        }
        i := i + 1;
      }
    }

    /** An operation reads a block and holds its buffer. */
    method OpRead(bno: nat) returns (r: Got)
      requires Valid() && bno < |cache.view|
      requires forall i | 0 <= i < NBUF && Caches(cache.buf[i], ROOTDEV, bno) :: !cache.buf[i].locked
      modifies cache`waits, cache`buf
      ensures Valid() && Lh() == old(Lh()) && cache.waits == old(cache.waits)
      ensures r.NoBuffers? ==> cache.buf == old(cache.buf)
      ensures r.Found? ==>
        && r.i < NBUF && cache.buf == old(cache.buf)[r.i := cache.buf[r.i]] && Caches(cache.buf[r.i], ROOTDEV, bno)
        && cache.buf[r.i].locked && cache.buf[r.i].valid && cache.buf[r.i].data == cache.view[bno]
    {
      hide Good, PinsMatch;
      cache.Sizes();
      ghost var s, waits := cache.buf, cache.waits;
      r := cache.Bread(bno);
      cache.Sizes();
      ReferencedKeepPins(s, cache.buf, waits, cache.pins, Lh(), slot);
    }

    /** It changes a buffer it holds. */
    method OpSet(b: nat, data: Block)
      requires Valid() && b < NBUF && cache.buf[b].locked && cache.buf[b].valid
      modifies cache`buf
      ensures Valid() && Lh() == old(Lh()) && cache.buf == old(cache.buf)[b := old(cache.buf[b]).(data := data)]
    {
      hide Good, PinsMatch;
      cache.Sizes();
      ghost var s := cache.buf;
      cache.SetData(b, data);
      ReferencedKeepPins(s, cache.buf, cache.waits, cache.pins, Lh(), slot);
    }

    /** It releases a buffer whose changes it has logged. */
    method OpRelease(b: nat)
      requires Valid() && b < NBUF && cache.buf[b].locked
      requires cache.buf[b].dev == ROOTDEV && cache.buf[b].valid ==>
        cache.buf[b].blockno < |cache.view| && cache.buf[b].data == cache.view[cache.buf[b].blockno]
      modifies cache`waits, cache`order, cache`buf
      ensures Valid() && Lh() == old(Lh()) && cache.waits == old(cache.waits)
      ensures forall i | 0 <= i < NBUF ::
        SameButLinks(cache.buf[i], old(cache.buf)[b := old(cache.buf[b]).(locked := false, refcnt := old(cache.buf[b].refcnt) - 1)][i])
    {
      hide Good, PinsMatch;
      cache.Sizes();
      ghost var s := cache.buf;
      cache.Brelse(b);
      cache.Sizes();
      ReferencedKeepPins(s, cache.buf, cache.waits, cache.pins, Lh(), slot);
    }

    /** One attempt of begin_op; when it is not admitted, the caller sleeps and tries again. */
    method BeginOp() returns (admitted: bool)
      requires Valid()
      modifies this`outstanding
      ensures admitted <==> !committing && n + (old(outstanding) + 1) * MAXOPBLOCKS <= LOGBLOCKS
      ensures outstanding == old(outstanding) + if admitted then 1 else 0
    {
      if committing {
        return false;
      } else if n + (outstanding + 1) * MAXOPBLOCKS > LOGBLOCKS {
        return false;
      } else {
        outstanding := outstanding + 1;
        return true;
      }
    }

    /** The end of an operation: the last one commits the group. */
    method EndOp() returns (ok: bool)
      requires Valid() && outstanding >= 1 && !committing && (outstanding == 1 ==> NobodyHolds())
      modifies this`n, this`slot, this`outstanding, this`committing, cache
      ensures outstanding == old(outstanding) - 1
      ensures ok <==> outstanding > 0 || old(n) < NBUF
      ensures ok ==> Valid() && !committing && (outstanding == 0 ==> NobodyHolds())
      ensures ok && outstanding > 0 ==>
        n == old(n) && cache.view == old(cache.view) && cache.disk == old(cache.disk) && cache.writes == old(cache.writes)
      ensures ok && outstanding == 0 ==> n == 0 && Issued(CommitWrites(old(cache.view), start, old(Lh())))
    {
      outstanding := outstanding - 1;
      ok := true;
      if outstanding == 0 {
        committing := true;
        ok := Commit();
        if ok {
          committing := false;
        }
      }
    }
  }
}
