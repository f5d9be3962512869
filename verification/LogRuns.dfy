/** The steps of runs of the logging system: any number of operations interleaved in any way,
    commits that write one block at a time, crashes at any point, and recoveries that crash in turn.

    `Running` is the kernel between block writes of a commit: the cache holds `view`, the group
    so far has logged the blocks `lh`, and each operation in progress has an allowance of blocks
    it may still add. The events of a group and the committed groups are kept for the statements.
 */
module LogRuns {
  import opened Params
  import opened Blocks
  import opened Collections
  import opened BufferCache
  import opened Recovery
  import opened RedoLog

  /** One log_write: the operation that made it, the block and what it then contained. */
  datatype Event = Event(op: nat, bno: nat, data: Block)

  datatype Mode =
    | Running(view: seq<Block>, lh: seq<nat>, ops: map<nat, nat>)
    | Committing(base: seq<Block>, cview: seq<Block>, clh: seq<nat>, done: nat)
    | Off
    | Recovering(d0: seq<Block>, written: nat)

  datatype State = State(
    disk: seq<Block>, mode: Mode,
    begun: set<nat>, issued: seq<Event>, cur: seq<Event>, groups: seq<seq<Event>>)

  datatype Step =
    | Begin(op: nat)
    | LogWrite(e: Event)
    | End(op: nat)
    | CommitWriteStep
    | CommitReturn
    | Crash
    | Boot
    | RecoverWriteStep
    | RecoverReturn

  /** The image mkfs made: where the log is, and the home blocks. */
  datatype Image = Image(start: nat, home: seq<Block>)

  ghost function Replay(home: seq<Block>, es: seq<Event>): (r: seq<Block>)
    ensures |r| == |home|
  {
    if es == [] then home
    else
      var h := Replay(home, es[..|es| - 1]);
      var e := es[|es| - 1];
      if e.bno < |h| then h[e.bno := e.data] else h
  }

  /** The home state after the committed groups, in order. */
  ghost function ReplayGroups(home: seq<Block>, gs: seq<seq<Event>>): (r: seq<Block>)
    ensures |r| == |home|
  {
    if gs == [] then home else Replay(ReplayGroups(home, gs[..|gs| - 1]), gs[|gs| - 1])
  }

  ghost function OpEvents(es: seq<Event>, op: nat): seq<Event> {
    if es == [] then []
    else OpEvents(es[..|es| - 1], op) + if es[|es| - 1].op == op then [es[|es| - 1]] else []
  }

  ghost predicate Touches(es: seq<Event>, op: nat) {
    OpEvents(es, op) != []
  }

  ghost function Sum(m: map<nat, nat>): nat {
    if m == map[] then 0 else var x :| x in m; m[x] + Sum(m - {x})
  }

  ghost predicate Init(im: Image, s: State) {
    && |im.home| == |s.disk|
    && s == State(s.disk, Off, {}, [], [], [])
    && StandsFor(s.disk, im.start, im.home)
  }

  /** log_write as the code does it: the check for room comes first, even for a block that is
      already in the group. The caller keeps to its allowance of new blocks. */
  ghost predicate LogWriteStep(im: Image, s: State, s': State, e: Event) {
    && s.mode.Running? && e.op in s.mode.ops && e.bno < |s.disk| && IsHome(im.start, e.bno)
    && (e.bno in s.mode.lh || s.mode.ops[e.op] > 0)
    && if |s.mode.lh| >= LOGBLOCKS then
         s' == s.(mode := Off, cur := [])
       else
         && e.bno < |s.mode.view|
         && s' == s.(
              mode := Running(s.mode.view[e.bno := e.data], Record(s.mode.lh, e.bno),
                              if e.bno in s.mode.lh then s.mode.ops
                              else s.mode.ops[e.op := s.mode.ops[e.op] - 1]),
              issued := s.issued + [e], cur := s.cur + [e])
  }

  ghost predicate Next(im: Image, s: State, s': State, step: Step) {
    match step
    case Begin(op) =>
      && s.mode.Running? && op !in s.begun
      && |s.mode.lh| + (|s.mode.ops| + 1) * MAXOPBLOCKS <= LOGBLOCKS
      && s' == s.(mode := s.mode.(ops := s.mode.ops[op := MAXOPBLOCKS]), begun := s.begun + {op})
    case LogWrite(e) => LogWriteStep(im, s, s', e)
    case End(op) =>
      && s.mode.Running? && op in s.mode.ops
      && var ops := s.mode.ops - {op};
         s' == s.(mode := if ops == map[] then Committing(s.disk, s.mode.view, s.mode.lh, 0)
                          else s.mode.(ops := ops))
    case CommitWriteStep =>  // bget panics if the group has pinned every buffer
      && s.mode.Committing? && s.mode.clh != [] && s.mode.done < 2 * |s.mode.clh| + 2
      && LogFits(im.start, |s.mode.cview|) && LogList(s.mode.clh, im.start, |s.mode.cview|)
      && if |s.mode.clh| >= NBUF then s' == s.(mode := Off, cur := []) else
         var w := CommitWrite(s.mode.cview, im.start, s.mode.clh, s.mode.done);
         && w.bno < |s.disk|
         && var s1 := s.(disk := s.disk[w.bno := w.data], mode := s.mode.(done := s.mode.done + 1));
            s' == if s.mode.done == |s.mode.clh| then s1.(groups := s.groups + [s.cur], cur := []) else s1
    case CommitReturn =>
      && s.mode.Committing? && s.mode.done == (if s.mode.clh == [] then 0 else 2 * |s.mode.clh| + 2)
      && s' == s.(mode := Running(s.disk, [], map[]))
    case Crash => s' == s.(mode := Off, cur := [])
    case Boot =>
      s.mode.Off? && s' == s.(mode := Recovering(s.disk, 0))
    case RecoverWriteStep =>
      && s.mode.Recovering? && LogOk(s.mode.d0, im.start)
      && s.mode.written <= |HeaderOf(s.mode.d0[im.start])|
      && var w := RecoveryWrite(s.mode.d0, im.start, s.mode.written);
      && w.bno < |s.disk|
      && s' == s.(disk := s.disk[w.bno := w.data], mode := s.mode.(written := s.mode.written + 1))
    case RecoverReturn =>
      && s.mode.Recovering? && LogOk(s.mode.d0, im.start)
      && s.mode.written == |HeaderOf(s.mode.d0[im.start])| + 1
      && s' == s.(mode := Running(s.disk, [], map[]))
  }

  /** What every reachable state satisfies. First, the disk always stands for the home state
      after the committed groups. */
  ghost predicate Inv(im: Image, s: State) {
    var done := ReplayGroups(im.home, s.groups);
    && |s.disk| == |im.home|
    && StandsFor(s.disk, im.start, done)
    && match s.mode
       case Running(view, lh, ops) => RunningInv(im, s.disk, view, lh, ops, s.cur, done)
       case Committing(base, view, lh, k) => CommittingInv(im, s.disk, base, view, lh, k, s.cur, done)
       case Off => s.cur == []
       case Recovering(d0, k) =>
         RecoveryPhase(s.disk, d0, im.start, k) && StandsFor(d0, im.start, done) && s.cur == []
  }

  ghost predicate RunningInv(im: Image, disk: seq<Block>, view: seq<Block>, lh: seq<nat>, ops: map<nat, nat>,
                             cur: seq<Event>, done: seq<Block>) {
    && LogFits(im.start, |view|) && LogList(lh, im.start, |view|)
    && |disk| == |view| && disk[im.start] == view[im.start] && Word(disk[im.start], 0) == 0
    && (forall bno | 0 <= bno < |view| && IsHome(im.start, bno) && bno !in lh :: disk[bno] == view[bno])
    && SameHome(disk, done, im.start)
    && SameHome(view, Replay(done, cur), im.start)
    && (lh == [] ==> cur == [])
    && (forall op | op in ops :: ops[op] <= MAXOPBLOCKS)
    && |lh| + Sum(ops) <= LOGBLOCKS
  }

  ghost predicate CommittingInv(im: Image, disk: seq<Block>, base: seq<Block>, view: seq<Block>, lh: seq<nat>, k: nat,
                                cur: seq<Event>, done: seq<Block>) {
    if lh == [] then
      k == 0 && cur == [] && SameHome(disk, done, im.start) && LogFits(im.start, |disk|) && Word(disk[im.start], 0) == 0
    else
      && CommitPhase(disk, base, view, im.start, lh, k)
      && if k <= |lh| then SameHome(base, done, im.start) && SameHome(view, Replay(done, cur), im.start)
         else cur == [] && SameHome(view, done, im.start)
  }

  /** No operation is split: every event of an operation that reached a committed group is in
      that group, and in no other. */
  ghost predicate Whole(s: State) {
    && (forall i, op | 0 <= i < |s.groups| && Touches(s.groups[i], op) ::
          OpEvents(s.groups[i], op) == OpEvents(s.issued, op) && op !in Active(s) && !Touches(s.cur, op))
    && (forall i, j, op | 0 <= i < j < |s.groups| :: !(Touches(s.groups[i], op) && Touches(s.groups[j], op)))
    && (forall op | Touches(s.cur, op) || op in Active(s) :: OpEvents(s.cur, op) == OpEvents(s.issued, op))
    && (forall op | Touches(s.issued, op) || op in Active(s) :: op in s.begun)
  }

  ghost function Active(s: State): set<nat> {
    if s.mode.Running? then s.mode.ops.Keys else {}
  }

  lemma {:induction false} SumSplit(m: map<nat, nat>, x: nat)
    requires x in m
    ensures Sum(m) == m[x] + Sum(m - {x})
  {
    var y :| y in m && Sum(m) == m[y] + Sum(m - {y});
    if x != y {
      SumSplit(m - {y}, x);
      SumSplit(m - {x}, y);
      assert m - {y} - {x} == m - {x} - {y};
    }
  }

  lemma SumUpdate(m: map<nat, nat>, x: nat, v: nat)
    ensures Sum(m[x := v]) == v + Sum(m) - if x in m then m[x] else 0
  {
    SumSplit(m[x := v], x);
    if x in m {
      SumSplit(m, x);
      assert m[x := v] - {x} == m - {x};
    } else {
      assert m[x := v] - {x} == m;
    }
  }

  lemma {:induction false} SumBound(m: map<nat, nat>)
    requires forall x | x in m :: m[x] <= MAXOPBLOCKS
    ensures Sum(m) <= MAXOPBLOCKS * |m|
  {
    if m != map[] {
      var x :| x in m;
      SumSplit(m, x);
      SumBound(m - {x});
      assert |m| == |m - {x}| + 1 by { assert m.Keys == (m - {x}).Keys + {x}; }
    }
  }

  /** The reservation rule: an operation that has allowance left finds room for a new block, so
      log_write does not panic on it; on a block already logged it panics exactly when the log
      is full. */
  lemma LogWriteRoom(im: Image, s: State, s': State, e: Event)
    requires Inv(im, s) && LogWriteStep(im, s, s', e)
    ensures s'.mode.Off? <==> |s.mode.lh| == LOGBLOCKS
    ensures e.bno !in s.mode.lh ==> s'.mode.Running?
  {
    SumSplit(s.mode.ops, e.op);
  }

  /** A disk whose log is empty stands for its own home blocks. */
  lemma EmptyLogStands(d: seq<Block>, start: nat, home: seq<Block>)
    requires LogFits(start, |d|) && Word(d[start], 0) == 0 && SameHome(d, home, start)
    ensures StandsFor(d, start, home)
  {
    assert HeaderOf(d[start]) == [];
  }

  lemma ReplaySnoc(home: seq<Block>, es: seq<Event>, e: Event)
    requires e.bno < |home|
    ensures Replay(home, es + [e]) == Replay(home, es)[e.bno := e.data]
  {
    assert (es + [e])[..|es|] == es;
  }

  lemma GroupsSnoc(home: seq<Block>, gs: seq<seq<Event>>, g: seq<Event>)
    ensures ReplayGroups(home, gs + [g]) == Replay(ReplayGroups(home, gs), g)
  {
    assert (gs + [g])[..|gs|] == gs;
  }

  lemma BeginKeeps(im: Image, s: State, s': State, op: nat)
    requires Inv(im, s) && Next(im, s, s', Begin(op)) && op !in s.mode.ops
    ensures Inv(im, s')
  {
    SumUpdate(s.mode.ops, op, MAXOPBLOCKS);
    SumBound(s.mode.ops);
  }

  lemma LogWriteKeeps(im: Image, s: State, s': State, e: Event)
    requires Inv(im, s) && LogWriteStep(im, s, s', e)
    ensures Inv(im, s')
  {
    if s'.mode.Running? {
      var done := ReplayGroups(im.home, s.groups);
      ReplaySnoc(done, s.cur, e);
      if e.bno !in s.mode.lh {
        SumUpdate(s.mode.ops, e.op, s.mode.ops[e.op] - 1);
        SumSplit(s.mode.ops, e.op);
      }
    }
  }

  lemma EndKeeps(im: Image, s: State, s': State, op: nat)
    requires Inv(im, s) && Next(im, s, s', End(op))
    ensures Inv(im, s')
  {
    SumSplit(s.mode.ops, op);
    if s'.mode.Committing? && s.mode.lh != [] {
      CommitBegins(s.disk, s.mode.view, im.start, s.mode.lh);
    }
  }

  lemma StandsForSame(d: seq<Block>, start: nat, home: seq<Block>, home': seq<Block>)
    requires StandsFor(d, start, home) && SameHome(home, home', start)
    ensures StandsFor(d, start, home')
  {
  }

  lemma CommitKeeps(im: Image, s: State, s': State)
    requires Inv(im, s) && Next(im, s, s', CommitWriteStep)
    ensures Inv(im, s')
  {
    hide CommitPhase, StandsFor, SameHome, Replay, ReplayGroups, CommitWrite;
    if s'.mode.Committing? {
      var Committing(base, view, lh, k) := s.mode;
      CommitAdvances(s.disk, base, view, im.start, lh, k);
      CommitPhaseStands(s'.disk, base, view, im.start, lh, k + 1);
      GroupsSnoc(im.home, s.groups, s.cur);
      StandsForSame(s'.disk, im.start, if k + 1 <= |lh| then base else view, ReplayGroups(im.home, s'.groups));
    }
  }

  lemma CommitReturnKeeps(im: Image, s: State, s': State)
    requires Inv(im, s) && Next(im, s, s', CommitReturn)
    ensures Inv(im, s')
  {
    if s.mode.clh != [] {
      CommitPhaseStands(s.disk, s.mode.base, s.mode.cview, im.start, s.mode.clh, s.mode.done);
    }
  }

  lemma RecoveryKeeps(im: Image, s: State, s': State, step: Step)
    requires Inv(im, s) && Next(im, s, s', step)
    requires step.Boot? || step.RecoverWriteStep? || step.RecoverReturn?
    ensures Inv(im, s')
  {
    var done := ReplayGroups(im.home, s.groups);
    match step
    case Boot => RecoveryBegins(s.disk, im.start);
    case RecoverWriteStep =>
      RecoveryAdvances(s.disk, s.mode.d0, im.start, s.mode.written);
      RecoveryPhaseStands(s'.disk, s.mode.d0, im.start, s.mode.written + 1, done);
    case RecoverReturn =>
      RecoveryPhaseStands(s.disk, s.mode.d0, im.start, s.mode.written, done);
  }

  lemma OpEventsSnoc(es: seq<Event>, e: Event, op: nat)
    ensures OpEvents(es + [e], op) == OpEvents(es, op) + if e.op == op then [e] else []
  {
    assert (es + [e])[..|es|] == es;
  }

  lemma LogWriteWhole(im: Image, s: State, s': State, e: Event)
    requires Whole(s) && LogWriteStep(im, s, s', e)
    ensures Whole(s')
  {
    hide OpEvents, LogList, StandsFor;
    if s'.mode.Running? {
      forall op
        ensures OpEvents(s'.issued, op) == OpEvents(s.issued, op) + if e.op == op then [e] else []
        ensures OpEvents(s'.cur, op) == OpEvents(s.cur, op) + if e.op == op then [e] else []
      {
        OpEventsSnoc(s.issued, e, op);
        OpEventsSnoc(s.cur, e, op);
      }
    } else {
      CrashWhole(s, s');
    }
  }

  /** Losing the current group loses all of each operation in it. */
  lemma CrashWhole(s: State, s': State)
    requires Whole(s) && s' == s.(mode := Off, cur := [])
    ensures Whole(s')
  {
    hide OpEvents;
    NothingTouches();
  }

  lemma CommitWhole(im: Image, s: State, s': State)
    requires Whole(s) && Next(im, s, s', CommitWriteStep)
    ensures Whole(s')
  {
    hide OpEvents, LogList, LogFits, CommitWrite;
    if s'.mode.Off? {
      CrashWhole(s, s');
    } else if s'.groups != s.groups {
      assert s'.groups == s.groups + [s.cur];
      assert forall op :: !Touches([], op) by { NothingTouches(); }
    }
  }

  lemma NothingTouches()
    ensures forall op :: !Touches([], op)
  {
  }

  lemma NextWhole(im: Image, s: State, s': State, step: Step)
    requires Whole(s) && Next(im, s, s', step)
    ensures Whole(s')
  {
    hide OpEvents, LogList, LogOk, RecoveryWrite;
    match step
    case Begin(op) => assert !Touches(s.issued, op) && !Touches(s.cur, op);
    case LogWrite(e) => LogWriteWhole(im, s, s', e);
    case CommitWriteStep => CommitWhole(im, s, s');
    case Crash => CrashWhole(s, s');
    case _ => QuietWhole(s, s');
  }

  /** A step without events that starts no operation. */
  lemma QuietWhole(s: State, s': State)
    requires Whole(s) && s'.groups == s.groups && s'.cur == s.cur && s'.issued == s.issued && s'.begun == s.begun
    requires Active(s') <= Active(s)
    ensures Whole(s')
  {
    hide OpEvents, Touches;
  }

  /** Committed groups stay committed. */
  lemma NextKeepsGroups(im: Image, s: State, s': State, step: Step)
    requires Next(im, s, s', step)
    ensures s.groups <= s'.groups
  {
  }

  lemma NextKeepsInv(im: Image, s: State, s': State, step: Step)
    requires Inv(im, s) && Whole(s) && Next(im, s, s', step)
    ensures Inv(im, s')
  {
    match step
    case Begin(op) => BeginKeeps(im, s, s', op);
    case LogWrite(e) => LogWriteKeeps(im, s, s', e);
    case End(op) => EndKeeps(im, s, s', op);
    case CommitWriteStep => CommitKeeps(im, s, s');
    case CommitReturn => CommitReturnKeeps(im, s, s');
    case Crash =>
    case _ => RecoveryKeeps(im, s, s', step);
  }
}
