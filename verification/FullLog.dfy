/** Runs in which the log fills up, and the two panics they end in. */
module FullLog {
  import opened Params
  import opened Blocks
  import opened Collections
  import opened BufferCache
  import opened Recovery
  import opened RedoLog
  import opened LogRuns
  import opened CrashSafety

  /** Some run ends in the state. */
  ghost predicate Reachable(im: Image, s: State) {
    exists run, steps :: Run(im, run, steps) && run[|steps|] == s
  }

  lemma StartReaches(im: Image, s: State)
    requires Init(im, s)
    ensures Reachable(im, s)
  {
    assert Run(im, [s], []) && [s][0] == s;
  }

  lemma StepReaches(im: Image, s: State, s': State, step: Step)
    requires Reachable(im, s) && Next(im, s, s', step)
    ensures Reachable(im, s')
  {
    hide Next, Init;
    var run, steps :| Run(im, run, steps) && run[|steps|] == s;
    var run', steps' := run + [s'], steps + [step];
    forall i | 0 <= i < |steps'| ensures Next(im, run'[i], run'[i + 1], steps'[i]) {
      if i < |steps| {
        assert Next(im, run[i], run[i + 1], steps[i]);
      }
    }
    assert Run(im, run', steps') && run'[|steps'|] == s';
  }

  lemma ReachableInv(im: Image, s: State)
    requires Reachable(im, s)
    ensures Inv(im, s) && Whole(s)
  {
    hide Inv, Whole, Next, Init;
    var run, steps :| Run(im, run, steps) && run[|steps|] == s;
    RunInv(im, run, steps, |steps|);
  }

  lemma LogParts(im: Image, s: State)
    requires Reachable(im, s) && s.mode.Running?
    ensures LogFits(im.start, |s.mode.view|) && LogList(s.mode.lh, im.start, |s.mode.view|) && |s.disk| == |s.mode.view| == |im.home|
  {
    hide Reachable, StandsFor, ReplayGroups, Replay, SameHome;
    ReachableInv(im, s);
  }

  /** Recovery can always be finished. */
  lemma {:induction false} RecoveryReaches(im: Image, s: State) returns (s': State)
    requires Reachable(im, s) && s.mode.Recovering? && LogOk(s.mode.d0, im.start)
    requires |s.disk| == |s.mode.d0| && s.mode.written <= |HeaderOf(s.mode.d0[im.start])| + 1
    ensures Reachable(im, s') && s'.mode == Running(s'.disk, [], map[]) && |s'.disk| == |s.disk| && s'.begun == s.begun
    decreases |HeaderOf(s.mode.d0[im.start])| + 1 - s.mode.written
  {
    if s.mode.written == |HeaderOf(s.mode.d0[im.start])| + 1 {
      s' := s.(mode := Running(s.disk, [], map[]));
      StepReaches(im, s, s', RecoverReturn);
    } else {
      var w := RecoveryWrite(s.mode.d0, im.start, s.mode.written);
      var s1 := s.(disk := s.disk[w.bno := w.data], mode := s.mode.(written := s.mode.written + 1));
      StepReaches(im, s, s1, RecoverWriteStep);
      s' := RecoveryReaches(im, s1);
    }
  }

  /** What operation j may still add after k blocks, when each of three operations adds its ten in turn. */
  function Left(k: nat, j: nat): nat {
    if k <= j * MAXOPBLOCKS then MAXOPBLOCKS else if k >= (j + 1) * MAXOPBLOCKS then 0 else (j + 1) * MAXOPBLOCKS - k
  }

  function Allowances(k: nat): map<nat, nat> {
    map[0 := Left(k, 0), 1 := Left(k, 1), 2 := Left(k, 2)]
  }

  /** Three operations at work, the first k of the blocks logged. */
  ghost predicate Filling(im: Image, s: State, bs: seq<nat>, k: nat) {
    && Reachable(im, s) && s.mode.Running? && k <= |bs| == LOGBLOCKS && |s.mode.view| == |s.disk|
    && LogList(bs, im.start, |s.disk|) && s.mode.lh == bs[..k] && s.mode.ops == Allowances(k)
  }

  /** Three operations begin. */
  lemma BeginThree(im: Image, s: State, bs: seq<nat>) returns (s': State)
    requires Reachable(im, s) && s.mode == Running(s.disk, [], map[]) && s.begun == {}
    requires LogList(bs, im.start, |s.disk|) && |bs| == LOGBLOCKS
    ensures Filling(im, s', bs, 0)
  {
    var s1 := s.(mode := s.mode.(ops := map[0 := MAXOPBLOCKS]), begun := {0});
    var s2 := s.(mode := s.mode.(ops := map[0 := MAXOPBLOCKS, 1 := MAXOPBLOCKS]), begun := {0, 1});
    s' := s.(mode := s.mode.(ops := map[0 := MAXOPBLOCKS, 1 := MAXOPBLOCKS, 2 := MAXOPBLOCKS]), begun := {0, 1, 2});
    StepReaches(im, s, s1, Begin(0));
    StepReaches(im, s1, s2, Begin(1));
    StepReaches(im, s2, s', Begin(2));
  }

  lemma {:induction false} FillRest(im: Image, s: State, bs: seq<nat>, k: nat) returns (s': State)
    requires Filling(im, s, bs, k)
    ensures Filling(im, s', bs, LOGBLOCKS)
    decreases LOGBLOCKS - k
  {
    if k == LOGBLOCKS {
      s' := s;
    } else {
      var s1 := FillOne(im, s, bs, k);
      s' := FillRest(im, s1, bs, k + 1);
    }
  }

  lemma FillOne(im: Image, s: State, bs: seq<nat>, k: nat) returns (s': State)
    requires Filling(im, s, bs, k) && k < LOGBLOCKS
    ensures Filling(im, s', bs, k + 1)
  {
    hide Reachable;
    var op := k / MAXOPBLOCKS;
    var e := Event(op, bs[k], ZeroBlock());
    assert bs[k] !in bs[..k];
    s' := s.(mode := Running(s.mode.view[bs[k] := ZeroBlock()], bs[..k + 1], s.mode.ops[op := s.mode.ops[op] - 1]),
             issued := s.issued + [e], cur := s.cur + [e]);
    assert Record(bs[..k], bs[k]) == bs[..k + 1];
    assert s.mode.ops[op := s.mode.ops[op] - 1] == Allowances(k + 1);
    StepReaches(im, s, s', LogWrite(e));
  }

  /** On every image with thirty home blocks, from every start, the log can be filled. */
  lemma LogFills(im: Image, s0: State, bs: seq<nat>) returns (s: State)
    requires Init(im, s0) && LogList(bs, im.start, |s0.disk|) && |bs| == LOGBLOCKS
    ensures Filling(im, s, bs, LOGBLOCKS)
  {
    hide Reachable, Filling;
    StartReaches(im, s0);
    var s1 := s0.(mode := Recovering(s0.disk, 0));
    StepReaches(im, s0, s1, Boot);
    var s2 := RecoveryReaches(im, s1);
    var s3 := BeginThree(im, s2, bs);
    s := FillRest(im, s3, bs, 0);
  }

  /** From there a log_write of a block that is logged already panics. */
  lemma AbsorptionPanics(im: Image, s0: State, bs: seq<nat>) returns (s: State, s': State, e: Event)
    requires Init(im, s0) && LogList(bs, im.start, |s0.disk|) && |bs| == LOGBLOCKS
    ensures Reachable(im, s) && s.mode.Running? && e.bno in s.mode.lh && e.op in s.mode.ops
    ensures Next(im, s, s', LogWrite(e)) && s'.mode.Off?
  {
    hide Reachable;
    s := LogFills(im, s0, bs);
    e := Event(0, bs[0], ZeroBlock());
    assert bs[..LOGBLOCKS] == bs;
    s' := s.(mode := Off, cur := []);
  }

  /** Or all three operations end, and the commit panics before its first write, so all three are lost. */
  lemma CommitPanics(im: Image, s0: State, bs: seq<nat>) returns (s: State, s': State)
    requires Init(im, s0) && LogList(bs, im.start, |s0.disk|) && |bs| == LOGBLOCKS
    ensures Reachable(im, s) && s.mode.Committing? && s.mode.done == 0 && |s.mode.clh| == NBUF
    ensures Next(im, s, s', CommitWriteStep) && s'.mode.Off? && s'.disk == s.disk && s'.groups == s.groups && s'.cur == []
  {
    hide Reachable, Inv;
    var f := LogFills(im, s0, bs);
    FilledSizes(im, f, bs);
    var two: map<nat, nat>, one: map<nat, nat> := map[1 := 0, 2 := 0], map[2 := 0];
    var s1, s2 := f.(mode := f.mode.(ops := two)), f.(mode := f.mode.(ops := one));
    s := f.(mode := Committing(f.disk, f.mode.view, f.mode.lh, 0));
    assert f.mode.ops - {0} == two && 1 in two && two - {1} == one && 2 in one && one - {2} == map[];
    StepReaches(im, f, s1, End(0));
    StepReaches(im, s1, s2, End(1));
    StepReaches(im, s2, s, End(2));
    s' := s.(mode := Off, cur := []);
  }

  lemma FilledSizes(im: Image, s: State, bs: seq<nat>)
    requires Filling(im, s, bs, LOGBLOCKS)
    ensures s.mode.lh == bs && s.mode.ops == map[0 := 0, 1 := 0, 2 := 0]
    ensures LogFits(im.start, |s.mode.view|) && LogList(s.mode.lh, im.start, |s.mode.view|)
  {
    hide Reachable;
    ReachableInv(im, s);
    assert bs[..LOGBLOCKS] == bs;
  }

  /** A disk of 100 zero blocks with its log at block 2 is such an image. */
  lemma SmallDisk() returns (im: Image, s0: State, bs: seq<nat>)
    ensures Init(im, s0) && LogList(bs, im.start, |s0.disk|) && |bs| == LOGBLOCKS
  {
    var disk := seq(100, _ => ZeroBlock());
    im := Image(2, disk);
    s0 := State(disk, Off, {}, [], [], []);
    bs := seq(LOGBLOCKS, i => 40 + i);
    EmptyLogStands(disk, 2, disk);
  }

  /** So both panics happen. */
  lemma PanicsHappen() returns (im: Image, s: State, s': State, e: Event, t: State, t': State)
    ensures Reachable(im, s) && s.mode.Running? && e.bno in s.mode.lh && Next(im, s, s', LogWrite(e)) && s'.mode.Off?
    ensures Reachable(im, t) && t.mode.Committing? && Next(im, t, t', CommitWriteStep) && t'.mode.Off?
  {
    hide Reachable, Next;
    var s0, bs;
    im, s0, bs := SmallDisk();
    s, s', e := AbsorptionPanics(im, s0, bs);
    t, t' := CommitPanics(im, s0, bs);
  }
}
