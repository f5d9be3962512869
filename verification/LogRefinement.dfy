/** The log's code takes the steps of its runs: a log together with the state of a run, which every call
    moves along by steps of that run. */
module LogRefinement {
  import opened Params
  import opened Blocks
  import opened Collections
  import opened BufferCache
  import opened Recovery
  import opened RedoLog
  import opened LogRuns
  import opened CrashSafety
  import opened FullLog

  /** A recovery under way can be finished, with the disk that its writes leave. */
  lemma {:induction false} RecoverySteps(im: Image, s: State, k: nat) returns (s': State)
    requires Reachable(im, s) && s.mode.Recovering? && s.mode.written == k && LogOk(s.mode.d0, im.start)
    requires InRange(RecoveryWrites(s.mode.d0, im.start), |s.mode.d0|) && k <= |RecoveryWrites(s.mode.d0, im.start)|
    requires s.disk == Apply(s.mode.d0, RecoveryWrites(s.mode.d0, im.start)[..k])
    ensures Reachable(im, s') && s'.mode == Running(s'.disk, [], map[])
    ensures s'.disk == Apply(s.mode.d0, RecoveryWrites(s.mode.d0, im.start)) && s'.begun == s.begun
    decreases |RecoveryWrites(s.mode.d0, im.start)| - k
  {
    hide Reachable, Apply;
    var ws := RecoveryWrites(s.mode.d0, im.start);
    if k == |ws| {
      assert ws[..k] == ws;
      s' := s.(mode := Running(s.disk, [], map[]));
      StepReaches(im, s, s', RecoverReturn);
    } else {
      var w := RecoveryWrite(s.mode.d0, im.start, k);
      assert ws[k] == w;
      ApplyNext(s.mode.d0, ws, k);
      var s1 := s.(disk := s.disk[w.bno := w.data], mode := s.mode.(written := k + 1));
      StepReaches(im, s, s1, RecoverWriteStep);
      s' := RecoverySteps(im, s1, k + 1);
    }
  }

  /** A commit under way that does not panic can be finished, with the disk that its writes leave. */
  lemma {:induction false} CommitSteps(im: Image, s: State, k: nat) returns (s': State)
    requires Reachable(im, s) && s.mode.Committing? && s.mode.done == k && s.mode.clh != [] && |s.mode.clh| < NBUF
    requires LogFits(im.start, |s.mode.cview|) && LogList(s.mode.clh, im.start, |s.mode.cview|) && |s.mode.base| == |s.mode.cview|
    requires InRange(CommitWrites(s.mode.cview, im.start, s.mode.clh), |s.mode.base|)
    requires k <= |CommitWrites(s.mode.cview, im.start, s.mode.clh)|
    requires s.disk == Apply(s.mode.base, CommitWrites(s.mode.cview, im.start, s.mode.clh)[..k])
    ensures Reachable(im, s') && s'.mode == Running(s'.disk, [], map[]) && s'.begun == s.begun && s'.issued == s.issued
    ensures s'.disk == Apply(s.mode.base, CommitWrites(s.mode.cview, im.start, s.mode.clh))
    ensures s'.groups == if k <= |s.mode.clh| then s.groups + [s.cur] else s.groups
    decreases |CommitWrites(s.mode.cview, im.start, s.mode.clh)| - k
  {
    hide Reachable, Apply, LogList, LogFits;
    var ws := CommitWrites(s.mode.cview, im.start, s.mode.clh);
    if k == |ws| {
      assert ws[..k] == ws;
      s' := s.(mode := Running(s.disk, [], map[]));
      StepReaches(im, s, s', CommitReturn);
    } else {
      var s1 := CommitStep(im, s, k);
      s' := CommitSteps(im, s1, k + 1);
    }
  }

  lemma CommitStep(im: Image, s: State, k: nat) returns (s1: State)
    requires Reachable(im, s) && s.mode.Committing? && s.mode.done == k && s.mode.clh != [] && |s.mode.clh| < NBUF
    requires LogFits(im.start, |s.mode.cview|) && LogList(s.mode.clh, im.start, |s.mode.cview|) && |s.mode.base| == |s.mode.cview|
    requires InRange(CommitWrites(s.mode.cview, im.start, s.mode.clh), |s.mode.base|)
    requires k < |CommitWrites(s.mode.cview, im.start, s.mode.clh)|
    requires s.disk == Apply(s.mode.base, CommitWrites(s.mode.cview, im.start, s.mode.clh)[..k])
    ensures Reachable(im, s1) && s1.mode == s.mode.(done := k + 1) && s1.begun == s.begun && s1.issued == s.issued
    ensures s1.disk == Apply(s.mode.base, CommitWrites(s.mode.cview, im.start, s.mode.clh)[..k + 1])
    ensures s1.groups == (if k == |s.mode.clh| then s.groups + [s.cur] else s.groups) && (k != |s.mode.clh| ==> s1.cur == s.cur)
  {
    hide Reachable, Apply, LogList, LogFits;
    var ws, w := CommitWrites(s.mode.cview, im.start, s.mode.clh), CommitWrite(s.mode.cview, im.start, s.mode.clh, k);
    assert ws[k] == w;
    ApplyNext(s.mode.base, ws, k);
    s1 := s.(disk := s.disk[w.bno := w.data], mode := s.mode.(done := k + 1));
    if k == |s.mode.clh| {
      s1 := s1.(groups := s.groups + [s.cur], cur := []);
    }
    StepReaches(im, s, s1, CommitWriteStep);
  }

  /** The last end_op of a group. */
  lemma LastEnd(im: Image, t: State, op: nat, ok: bool) returns (s: State)
    requires Reachable(im, t) && t.mode.Running? && op in t.mode.ops && t.mode.ops - {op} == map[]
    requires ok <==> |t.mode.lh| < NBUF
    ensures Reachable(im, s)
    ensures LogFits(im.start, |t.mode.view|) && LogList(t.mode.lh, im.start, |t.mode.view|)
    ensures InRange(CommitWrites(t.mode.view, im.start, t.mode.lh), |t.disk|)
    ensures ok ==>
      && s.mode == Running(s.disk, [], map[]) && s.disk == Apply(t.disk, CommitWrites(t.mode.view, im.start, t.mode.lh))
      && s.groups == if t.mode.lh == [] then t.groups else t.groups + [t.cur]
    ensures !ok ==> s.mode.Off? && s.groups == t.groups
  {
    hide Reachable, Apply, Inv, Whole;
    LogParts(im, t);
    CommitInRange(t.mode.view, im.start, t.mode.lh);
    var s1 := t.(mode := Committing(t.disk, t.mode.view, t.mode.lh, 0));
    StepReaches(im, t, s1, LogRuns.End(op));
    if t.mode.lh == [] {
      NothingToCommit(t.disk, t.mode.view, im.start);
      s := s1.(mode := Running(s1.disk, [], map[]));
      StepReaches(im, s1, s, CommitReturn);
    } else if ok {
      ApplyNone(t.disk, CommitWrites(t.mode.view, im.start, t.mode.lh));
      s := CommitSteps(im, s1, 0);
    } else {
      s := s1.(mode := Off, cur := []);
      StepReaches(im, s1, s, CommitWriteStep);
    }
  }

  lemma ApplyNone(d: seq<Block>, ws: seq<Write>)
    requires InRange(ws, |d|)
    ensures Apply(d, ws[..0]) == d
  {
    assert ws[..0] == [];
  }

  /** With nothing logged, map and disk are the same. */
  lemma NoPinsSame(log: Log)
    requires log.Valid() && log.n == 0
    ensures log.cache.view == log.cache.disk && log.Lh() == []
  {
  }

  class TracedLog {
    const log: Log
    ghost const im: Image
    ghost var s: State

    /** The log is in the state that some run has reached. */
    ghost predicate Agrees()
      reads this, log, log.cache
    {
      && log.Valid() && !log.committing && im.start == log.start && Reachable(im, s)
      && s.mode.Running? && s.mode.view == log.cache.view && s.mode.lh == log.Lh()
      && s.disk == log.cache.disk && |s.mode.ops| == log.outstanding
    }

    /** What a crash at this moment would leave: the state after the committed groups. */
    lemma CrashNow()
      requires Agrees()
      ensures StandsFor(log.cache.disk, im.start, ReplayGroups(im.home, s.groups))
    {
      hide Reachable, StandsFor, ReplayGroups;
      ReachableInv(im, s);
    }

    constructor (cache: BCache, start: nat, ghost home: seq<Block>)
      requires cache.Valid() && cache.view == cache.disk && StandsFor(cache.disk, start, home)
      requires forall i | 0 <= i < NBUF :: cache.pins[i] == cache.waits[i] == 0 && !cache.buf[i].locked
      modifies cache
      ensures Agrees() && log.cache == cache && im == Image(start, home) && s.begun == {} && s.mode.ops == map[]
    {
      ghost var d0 := cache.disk;
      log := new Log(cache, start);
      im := Image(start, home);
      ghost var s0 := State(d0, Off, {}, [], [], []);
      ghost var s1 := s0.(mode := Recovering(d0, 0));
      StartReaches(Image(start, home), s0);
      StepReaches(Image(start, home), s0, s1, Boot);
      assert RecoveryWrites(d0, start)[..0] == [];
      ghost var s2 := RecoverySteps(Image(start, home), s1, 0);
      s := s2;
    }

    /** begin_op is Begin, or no step. */
    method Begin(ghost op: nat) returns (admitted: bool)
      requires Agrees() && op !in s.begun
      modifies this`s, log`outstanding
      ensures Agrees()
      ensures admitted ==> s == old(s).(mode := old(s).mode.(ops := old(s).mode.ops[op := MAXOPBLOCKS]), begun := old(s).begun + {op})
      ensures !admitted ==> s == old(s)
    {
      hide Reachable;
      ghost var t := s;
      ReachableInv(im, s);
      admitted := log.BeginOp();
      if admitted {
        s := s.(mode := s.mode.(ops := s.mode.ops[op := MAXOPBLOCKS]), begun := s.begun + {op});
        StepReaches(im, t, s, LogRuns.Begin(op));
        assert s.mode.ops.Keys == t.mode.ops.Keys + {op};
      }
    }

    /** bread, changing a buffer and brelse are no steps. */
    method Read(bno: nat) returns (r: Got)
      requires Agrees() && bno < |log.cache.view|
      requires forall i | 0 <= i < NBUF && Caches(log.cache.buf[i], ROOTDEV, bno) :: !log.cache.buf[i].locked
      modifies log.cache`waits, log.cache`buf
      ensures Agrees()
      ensures r.Found? ==>
        && r.i < NBUF && Caches(log.cache.buf[r.i], ROOTDEV, bno)
        && log.cache.buf[r.i].locked && log.cache.buf[r.i].valid && log.cache.buf[r.i].data == log.cache.view[bno]
    {
      hide Reachable;
      r := log.OpRead(bno);
    }

    method Set(b: nat, data: Block)
      requires Agrees() && b < NBUF && log.cache.buf[b].locked && log.cache.buf[b].valid
      modifies log.cache`buf
      ensures Agrees() && log.cache.buf == old(log.cache.buf)[b := old(log.cache.buf[b]).(data := data)]
    {
      hide Reachable;
      log.OpSet(b, data);
    }

    method Release(b: nat)
      requires Agrees() && b < NBUF && log.cache.buf[b].locked
      requires log.cache.buf[b].dev == ROOTDEV && log.cache.buf[b].valid ==>
        log.cache.buf[b].blockno < |log.cache.view| && log.cache.buf[b].data == log.cache.view[log.cache.buf[b].blockno]
      modifies log.cache`waits, log.cache`order, log.cache`buf
      ensures Agrees()
    {
      hide Reachable;
      log.OpRelease(b);
    }

    /** log_write is one event of the operation, or the panic of the run. */
    method Write(ghost op: nat, b: nat) returns (r: LogWriteResult)
      requires Agrees() && op in s.mode.ops && b < NBUF && log.cache.buf[b].locked && log.cache.buf[b].valid
      requires log.cache.buf[b].dev == ROOTDEV && IsHome(log.start, log.cache.buf[b].blockno)
      requires log.cache.buf[b].blockno in s.mode.lh || s.mode.ops[op] > 0
      modifies this`s, log`n, log`block, log`slot, log.cache`pins, log.cache`view, log.cache`buf
      ensures Reachable(im, s)
      ensures r.Logged? ==>
        && Agrees() && s.groups == old(s).groups
        && s.issued == old(s).issued + [Event(op, old(log.cache.buf[b].blockno), old(log.cache.buf[b].data))]
      ensures !r.Logged? ==> r.TooBig? && s.mode.Off? && s.groups == old(s).groups
    {
      hide Reachable;
      log.InBounds(b);
      ghost var t, e := s, Event(op, log.cache.buf[b].blockno, log.cache.buf[b].data);
      assert log.outstanding >= 1;
      r := log.LogWrite(b);
      s := if r.Logged? then
             t.(mode := Running(t.mode.view[e.bno := e.data], Record(t.mode.lh, e.bno),
                                if e.bno in t.mode.lh then t.mode.ops else t.mode.ops[op := t.mode.ops[op] - 1]),
                issued := t.issued + [e], cur := t.cur + [e])
           else t.(mode := Off, cur := []);
      StepReaches(im, t, s, LogWrite(e));
      assert r.Logged? ==> s.mode.ops.Keys == t.mode.ops.Keys;
    }

    /** end_op is End, and for the last operation all the steps of a commit, or the panic of the run. */
    method End(ghost op: nat) returns (ok: bool)
      requires Agrees() && op in s.mode.ops && (log.outstanding == 1 ==> log.NobodyHolds())
      modifies this`s, log`n, log`slot, log`outstanding, log`committing, log.cache
      ensures Reachable(im, s)
      ensures ok ==> Agrees()
      ensures ok && log.outstanding > 0 ==> s == old(s).(mode := old(s).mode.(ops := old(s).mode.ops - {op}))
      ensures ok && log.outstanding == 0 && old(s).mode.lh != [] ==> s.groups == old(s).groups + [old(s).cur]
      ensures !ok ==> s.mode.Off? && s.groups == old(s).groups
    {
      hide Reachable;
      ghost var t, view, disk, lh := s, log.cache.view, log.cache.disk, log.Lh();
      ghost var ops := t.mode.ops - {op};
      assert t.mode.ops.Keys == ops.Keys + {op};
      ok := log.EndOp();
      if ops != map[] {
        s := t.(mode := t.mode.(ops := ops));
        StepReaches(im, t, s, LogRuns.End(op));
      } else {
        s := LastEnd(im, t, op, ok);
        if ok {
          NoPinsSame(log);
        }
      }
    }
  }
}
