/** Fork, exit and wait as a state machine over the regions that wait_lock and the process locks
    protect. Each region under one process lock is one step; the hand-off from wait_lock to the
    process lock inside sleep, and the one from wait_lock to the scheduler inside exit, are steps of
    their own.
 */
module ExitWait {
  import opened Params
  import opened Collections

  const INIT := 0

  datatype St = UNUSED | USED | SLEEPING | RUNNABLE | RUNNING | ZOMBIE

  /** What a process sleeps on: a process (kwait sleeps on itself) or anything else. */
  datatype Chan = NoChan | ProcChan(p: nat) | OtherChan

  /** Where a process is. The comments name what it holds. */
  datatype Pc =
    | User                              // nothing
    | ForkLink(np: nat)                 // nothing; a slot is allocated, its parent not set
    | ForkRun(np: nat)                  // nothing; the parent is set
    | Reparent(k: nat)                  // wait_lock, at slot k
    | ReparentWake(k: nat, j: nat)      // wait_lock, in wakeup(initproc) at slot j
    | ExitWake(j: nat)                  // wait_lock, in wakeup(p->parent) at slot j
    | ExitZombie                        // wait_lock
    | ExitUnlock                        // wait_lock and own lock
    | ExitSched                         // own lock
    | Dead                              // nothing, never to run again
    | Scan(k: nat, kids: bool)          // wait_lock, at slot k
    | ScanDone(kids: bool)              // wait_lock
    | SleepLock                         // wait_lock, in sleep
    | SleepUnlock                       // wait_lock and own lock, in sleep
    | GoSleep                           // own lock, in sleep
    | Asleep                            // nothing, in sleep
    | Reacquire                         // nothing, in sleep

  /** `xstate` is the status of a zombie; `got` is what the process's last kwait brought: the child and its
      status, or nothing where kwait returned -1. */
  datatype P = P(st: St, chan: Chan, parent: Option<nat>, killed: bool, pc: Pc, locked: bool, xstate: int, got: Option<(nat, int)>)

  const NOPROC := P(UNUSED, NoChan, None, false, User, false, 0, None)

  /** The process table and the holder of wait_lock. */
  datatype Sys = Sys(proc: seq<P>, wl: Option<nat>)

  predicate HoldsWaitLock(pc: Pc) {
    pc.Reparent? || pc.ReparentWake? || pc.ExitWake? || pc.ExitZombie? || pc.ExitUnlock?
    || pc.Scan? || pc.ScanDone? || pc.SleepLock? || pc.SleepUnlock?
  }

  predicate HoldsOwnLock(pc: Pc) {
    pc.ExitUnlock? || pc.ExitSched? || pc.SleepUnlock? || pc.GoSleep?
  }

  predicate Exiting(pc: Pc) {
    pc.Reparent? || pc.ReparentWake? || pc.ExitWake? || pc.ExitZombie? || pc.ExitUnlock? || pc.ExitSched? || pc.Dead?
  }

  function With(s: Sys, p: nat, q: P): Sys
    requires p < |s.proc|
  {
    s.(proc := s.proc[p := q])
  }

  /** The region of wakeup for one slot: it needs the slot's lock. */
  ghost predicate WakeOne(s: Sys, s': Sys, p: nat, j: nat, chan: Chan, pc': Pc)
    requires |s.proc| == NPROC && p < NPROC && j < NPROC
  {
    var q := s.proc[j];
    if j == p then s' == With(s, p, s.proc[p].(pc := pc'))
    else
      && !q.locked
      && s' == With(With(s, p, s.proc[p].(pc := pc')), j,
                    if q.st.SLEEPING? && q.chan == chan then q.(st := RUNNABLE) else q)
  }

  datatype Step =
    | Dispatch(p: nat) | Preempt(p: nat) | SleepOther(p: nat) | WakeOther(p: nat) | Kill(p: nat)
    | Fork(p: nat, np: nat) | ForkFails(p: nat) | ForkLinks(p: nat) | ForkRuns(p: nat)
    | Exit(p: nat) | Reparents(p: nat) | WakesInit(p: nat) | WakesParent(p: nat) | TurnsZombie(p: nat, status: int)
    | ExitUnlocks(p: nat) | ExitSwitches(p: nat)
    | Wait(p: nat) | Scans(p: nat, copied: bool) | Decides(p: nat) | SleepLocks(p: nat) | SleepUnlocks(p: nat) | Sleeps(p: nat)
    | Reacquires(p: nat)

  /** scheduler() up to the release of p->lock; a sleeper tidies up its channel. */
  ghost predicate DoDispatch(s: Sys, s': Sys, p: nat)
    requires |s.proc| == NPROC && p < NPROC
  {
    var me := s.proc[p];
    me.st.RUNNABLE? && !me.locked
    && s' == With(s, p, me.(st := RUNNING, chan := NoChan, pc := if me.pc.Asleep? then Reacquire else me.pc))
  }

  ghost predicate DoPreempt(s: Sys, s': Sys, p: nat)
    requires |s.proc| == NPROC && p < NPROC
  {
    var me := s.proc[p];
    me.st.RUNNING? && !HoldsWaitLock(me.pc) && !HoldsOwnLock(me.pc) && s' == With(s, p, me.(st := RUNNABLE))
  }

  ghost predicate DoSleepOther(s: Sys, s': Sys, p: nat)
    requires |s.proc| == NPROC && p < NPROC
  {
    var me := s.proc[p];
    me.st.RUNNING? && me.pc.User? && s' == With(s, p, me.(st := SLEEPING, chan := OtherChan))
  }

  ghost predicate DoWakeOther(s: Sys, s': Sys, p: nat)
    requires |s.proc| == NPROC && p < NPROC
  {
    var me := s.proc[p];
    me.st.SLEEPING? && me.chan.OtherChan? && !me.locked && s' == With(s, p, me.(st := RUNNABLE))
  }

  ghost predicate DoKill(s: Sys, s': Sys, p: nat)
    requires |s.proc| == NPROC && p < NPROC
  {
    var me := s.proc[p];
    !me.locked && s' == With(s, p, me.(killed := true, st := if me.st.SLEEPING? then RUNNABLE else me.st))
  }

  /** allocproc takes a free slot. */
  ghost predicate DoFork(s: Sys, s': Sys, p: nat, np: nat)
    requires |s.proc| == NPROC && p < NPROC
  {
    var me := s.proc[p];
    me.st.RUNNING? && me.pc.User? && np < NPROC && s.proc[np].st.UNUSED?
    && s' == With(With(s, p, me.(pc := ForkLink(np))), np, s.proc[np].(st := USED))
  }

  /** uvmcopy fails: freeproc. */
  ghost predicate DoForkFails(s: Sys, s': Sys, p: nat)
    requires |s.proc| == NPROC && p < NPROC
  {
    var me := s.proc[p];
    me.st.RUNNING? && me.pc.ForkLink? && me.pc.np < NPROC
    && s' == With(With(s, p, me.(pc := User)), me.pc.np, NOPROC)
  }

  ghost predicate DoForkLinks(s: Sys, s': Sys, p: nat)
    requires |s.proc| == NPROC && p < NPROC
  {
    var me := s.proc[p];
    me.st.RUNNING? && me.pc.ForkLink? && s.wl.None? && me.pc.np < NPROC
    && s' == With(With(s, p, me.(pc := ForkRun(me.pc.np))), me.pc.np, s.proc[me.pc.np].(parent := Some(p)))
  }

  ghost predicate DoForkRuns(s: Sys, s': Sys, p: nat)
    requires |s.proc| == NPROC && p < NPROC
  {
    var me := s.proc[p];
    me.st.RUNNING? && me.pc.ForkRun? && me.pc.np < NPROC
    && s' == With(With(s, p, me.(pc := User)), me.pc.np, s.proc[me.pc.np].(st := RUNNABLE))
  }

  /** init panics instead. */
  ghost predicate DoExit(s: Sys, s': Sys, p: nat)
    requires |s.proc| == NPROC && p < NPROC
  {
    var me := s.proc[p];
    me.st.RUNNING? && me.pc.User? && s.wl.None? && p != INIT
    && s' == With(s, p, me.(pc := Reparent(0))).(wl := Some(p))
  }

  ghost predicate DoReparents(s: Sys, s': Sys, p: nat)
    requires |s.proc| == NPROC && p < NPROC
  {
    var me := s.proc[p];
    me.pc.Reparent?
    && if me.pc.k >= NPROC then s' == With(s, p, me.(pc := ExitWake(0)))
       else if s.proc[me.pc.k].parent == Some(p) then
         s' == With(With(s, p, me.(pc := ReparentWake(me.pc.k, 0))), me.pc.k, s.proc[me.pc.k].(parent := Some(INIT)))
       else s' == With(s, p, me.(pc := Reparent(me.pc.k + 1)))
  }

  ghost predicate DoWakesInit(s: Sys, s': Sys, p: nat)
    requires |s.proc| == NPROC && p < NPROC
  {
    var me := s.proc[p];
    me.pc.ReparentWake?
    && if me.pc.j >= NPROC then s' == With(s, p, me.(pc := Reparent(me.pc.k + 1)))
       else WakeOne(s, s', p, me.pc.j, ProcChan(INIT), ReparentWake(me.pc.k, me.pc.j + 1))
  }

  ghost predicate DoWakesParent(s: Sys, s': Sys, p: nat)
    requires |s.proc| == NPROC && p < NPROC
  {
    var me := s.proc[p];
    me.pc.ExitWake?
    && if me.pc.j >= NPROC || me.parent.None? then s' == With(s, p, me.(pc := ExitZombie))
       else WakeOne(s, s', p, me.pc.j, ProcChan(me.parent.value), ExitWake(me.pc.j + 1))
  }

  ghost predicate DoTurnsZombie(s: Sys, s': Sys, p: nat, status: int)
    requires |s.proc| == NPROC && p < NPROC
  {
    var me := s.proc[p];
    me.pc.ExitZombie? && !me.locked && s' == With(s, p, me.(st := ZOMBIE, xstate := status, locked := true, pc := ExitUnlock))
  }

  ghost predicate DoExitUnlocks(s: Sys, s': Sys, p: nat)
    requires |s.proc| == NPROC && p < NPROC
  {
    var me := s.proc[p];
    me.pc.ExitUnlock? && s' == With(s, p, me.(pc := ExitSched)).(wl := None)
  }

  ghost predicate DoExitSwitches(s: Sys, s': Sys, p: nat)
    requires |s.proc| == NPROC && p < NPROC
  {
    var me := s.proc[p];
    me.pc.ExitSched? && s' == With(s, p, me.(locked := false, pc := Dead))
  }

  ghost predicate DoWait(s: Sys, s': Sys, p: nat)
    requires |s.proc| == NPROC && p < NPROC
  {
    var me := s.proc[p];
    me.st.RUNNING? && me.pc.User? && s.wl.None? && s' == With(s, p, me.(pc := Scan(0, false))).(wl := Some(p))
  }

  ghost predicate DoScans(s: Sys, s': Sys, p: nat, copied: bool)
    requires |s.proc| == NPROC && p < NPROC
  {
    var me := s.proc[p];
    me.pc.Scan?
    && if me.pc.k >= NPROC then s' == With(s, p, me.(pc := ScanDone(me.pc.kids)))
       else if s.proc[me.pc.k].parent != Some(p) then s' == With(s, p, me.(pc := Scan(me.pc.k + 1, me.pc.kids)))
       else
         && !s.proc[me.pc.k].locked
         && if !s.proc[me.pc.k].st.ZOMBIE? then s' == With(s, p, me.(pc := Scan(me.pc.k + 1, true)))
            else if !copied then s' == With(s, p, me.(pc := User, got := None)).(wl := None)
            else s' == With(With(s, p, me.(pc := User, got := Some((me.pc.k, s.proc[me.pc.k].xstate)))), me.pc.k, NOPROC).(wl := None)
  }

  ghost predicate DoDecides(s: Sys, s': Sys, p: nat)
    requires |s.proc| == NPROC && p < NPROC
  {
    var me := s.proc[p];
    me.pc.ScanDone?
    && if !me.pc.kids || me.killed then s' == With(s, p, me.(pc := User, got := None)).(wl := None)
       else s' == With(s, p, me.(pc := SleepLock))
  }

  ghost predicate DoSleepLocks(s: Sys, s': Sys, p: nat)
    requires |s.proc| == NPROC && p < NPROC
  {
    var me := s.proc[p];
    me.pc.SleepLock? && !me.locked && s' == With(s, p, me.(locked := true, pc := SleepUnlock))
  }

  ghost predicate DoSleepUnlocks(s: Sys, s': Sys, p: nat)
    requires |s.proc| == NPROC && p < NPROC
  {
    var me := s.proc[p];
    me.pc.SleepUnlock? && s' == With(s, p, me.(pc := GoSleep)).(wl := None)
  }

  ghost predicate DoSleeps(s: Sys, s': Sys, p: nat)
    requires |s.proc| == NPROC && p < NPROC
  {
    var me := s.proc[p];
    me.pc.GoSleep? && s' == With(s, p, me.(chan := ProcChan(p), st := SLEEPING, locked := false, pc := Asleep))
  }

  ghost predicate DoReacquires(s: Sys, s': Sys, p: nat)
    requires |s.proc| == NPROC && p < NPROC
  {
    var me := s.proc[p];
    me.st.RUNNING? && me.pc.Reacquire? && s.wl.None?
    && s' == With(s, p, me.(pc := Scan(0, false))).(wl := Some(p))
  }

  ghost predicate Next(s: Sys, s': Sys, step: Step)
    requires |s.proc| == NPROC
  {
    && step.p < NPROC
    && match step
       case Dispatch(p) => DoDispatch(s, s', p)
       case Preempt(p) => DoPreempt(s, s', p)
       case SleepOther(p) => DoSleepOther(s, s', p)
       case WakeOther(p) => DoWakeOther(s, s', p)
       case Kill(p) => DoKill(s, s', p)
       case Fork(p, np) => DoFork(s, s', p, np)
       case ForkFails(p) => DoForkFails(s, s', p)
       case ForkLinks(p) => DoForkLinks(s, s', p)
       case ForkRuns(p) => DoForkRuns(s, s', p)
       case Exit(p) => DoExit(s, s', p)
       case Reparents(p) => DoReparents(s, s', p)
       case WakesInit(p) => DoWakesInit(s, s', p)
       case WakesParent(p) => DoWakesParent(s, s', p)
       case TurnsZombie(p, status) => DoTurnsZombie(s, s', p, status)
       case ExitUnlocks(p) => DoExitUnlocks(s, s', p)
       case ExitSwitches(p) => DoExitSwitches(s, s', p)
       case Wait(p) => DoWait(s, s', p)
       case Scans(p, copied) => DoScans(s, s', p, copied)
       case Decides(p) => DoDecides(s, s', p)
       case SleepLocks(p) => DoSleepLocks(s, s', p)
       case SleepUnlocks(p) => DoSleepUnlocks(s, s', p)
       case Sleeps(p) => DoSleeps(s, s', p)
       case Reacquires(p) => DoReacquires(s, s', p)
  }

  /** At boot there is only init, ready to run. */
  ghost predicate Init(s: Sys) {
    && |s.proc| == NPROC && s.wl.None?
    && forall p | 0 <= p < NPROC :: s.proc[p] == if p == INIT then NOPROC.(st := RUNNABLE) else NOPROC
  }

  /** A run: states and the steps between them. */
  ghost predicate Run(run: seq<Sys>, steps: seq<Step>) {
    && |run| == |steps| + 1 && Init(run[0])
    && (forall i | 0 <= i < |run| :: |run[i].proc| == NPROC)
    && forall i | 0 <= i < |steps| :: Next(run[i], run[i + 1], steps[i])
  }

  /** What a process's place says about its state and locks. */
  ghost predicate Placed(s: Sys, p: nat)
    requires p < |s.proc|
  {
    var me := s.proc[p];
    && (HoldsWaitLock(me.pc) <==> s.wl == Some(p))
    && (HoldsOwnLock(me.pc) <==> me.locked)
    && (me.st.ZOMBIE? <==> me.pc.ExitUnlock? || me.pc.ExitSched? || me.pc.Dead?)
    && (me.pc.Asleep? ==> me.chan == ProcChan(p) && (me.st.SLEEPING? || me.st.RUNNABLE?))
    && (me.st.SLEEPING? && !me.pc.Asleep? ==> me.pc.User? && me.chan.OtherChan?)
    && (me.st.UNUSED? || me.st.USED? ==> me.pc.User?)
    && (me.st.UNUSED? ==> me.parent.None?)
    && (Exiting(me.pc) ==> p != INIT)
    && (HoldsWaitLock(me.pc) && !me.pc.ExitUnlock? ==> me.st.RUNNING?)
    && (me.pc.GoSleep? ==> me.st.RUNNING?)
    && (p == INIT ==> !me.st.UNUSED? && !me.st.USED? && me.parent.None?)
  }

  /** A slot being forked belongs to its forker. */
  ghost predicate Forking(s: Sys, p: nat)
    requires p < |s.proc|
  {
    var pc := s.proc[p].pc;
    pc.ForkLink? || pc.ForkRun? ==>
      && pc.np < |s.proc| && s.proc[pc.np].st.USED?
      && (pc.ForkLink? ==> s.proc[pc.np].parent.None?)
      && forall q | 0 <= q < |s.proc| && q != p && (s.proc[q].pc.ForkLink? || s.proc[q].pc.ForkRun?) :: s.proc[q].pc.np != pc.np
  }

  /** Parents are alive. */
  ghost predicate ParentAlive(s: Sys, c: nat)
    requires c < |s.proc|
  {
    s.proc[c].parent.Some? ==>
      var q := s.proc[c].parent.value;
      && q < |s.proc| && q != c
      && !s.proc[q].st.ZOMBIE? && !s.proc[q].st.UNUSED? && !s.proc[q].st.USED?
  }

  /** An exiting process has no children behind the place it has reached. */
  ghost predicate Childless(s: Sys, p: nat)
    requires p < |s.proc|
  {
    var pc := s.proc[p].pc;
    forall c | 0 <= c < |s.proc| && s.proc[c].parent == Some(p) ::
      && !pc.ExitWake? && !pc.ExitZombie?
      && (pc.Reparent? ==> c >= pc.k) && (pc.ReparentWake? ==> c > pc.k)
  }

  /** In sleep, past the point where wait_lock is released, and not woken. */
  predicate Committed(s: Sys, q: nat)
    requires q < |s.proc|
  {
    s.proc[q].pc.GoSleep? || (s.proc[q].pc.Asleep? && s.proc[q].st.SLEEPING?)
  }

  /** The holder of wait_lock is about to wake init. */
  ghost predicate WillWakeInit(s: Sys)
  {
    && s.wl.Some? && s.wl.value < |s.proc| && s.proc[s.wl.value].pc.ReparentWake?
    && s.proc[s.wl.value].pc.j <= INIT
  }

  /** A zombie's parent is not asleep in kwait, unless it is init and about to be woken. */
  ghost predicate Noticed(s: Sys, c: nat)
    requires c < |s.proc|
  {
    s.proc[c].st.ZOMBIE? && s.proc[c].parent.Some? && s.proc[c].parent.value < |s.proc| && Committed(s, s.proc[c].parent.value) ==>
      s.proc[c].parent.value == INIT && WillWakeInit(s)
  }

  /** A process that has woken its parent finds it awake. */
  ghost predicate ParentWoken(s: Sys, p: nat)
    requires p < |s.proc|
  {
    var me := s.proc[p];
    me.parent.Some? && me.parent.value < |s.proc|
    && (me.pc.ExitZombie? || (me.pc.ExitWake? && me.pc.j > me.parent.value)) ==>
      !Committed(s, me.parent.value)
  }

  /** A scan that has found no zombie is right. */
  ghost predicate Scanned(s: Sys, p: nat)
    requires p < |s.proc|
  {
    var pc := s.proc[p].pc;
    forall c | 0 <= c < |s.proc| && s.proc[c].parent == Some(p) && s.proc[c].st.ZOMBIE? ::
      && (pc.Scan? ==> c >= pc.k) && !pc.ScanDone? && !pc.SleepLock? && !pc.SleepUnlock?
  }

  ghost predicate Ok(s: Sys, p: nat)
    requires p < |s.proc|
  {
    && Placed(s, p) && Forking(s, p) && ParentAlive(s, p) && Childless(s, p)
    && Noticed(s, p) && ParentWoken(s, p) && Scanned(s, p)
  }

  ghost predicate Inv(s: Sys) {
    |s.proc| == NPROC && forall p | 0 <= p < NPROC :: Ok(s, p)
  }

  /** A step that changes only the process's own slot, and wait_lock at most by taking or releasing it,
      keeps the invariant of the others if it neither makes nor unmakes a child, and goes to sleep only
      from holding wait_lock and without zombie children. */
  ghost predicate OwnStep(s: Sys, s': Sys, p: nat) {
    && Inv(s) && p < NPROC == |s'.proc|
    && var me, me' := s.proc[p], s'.proc[p];
       && s'.proc == s.proc[p := me'] && me'.parent == me.parent
       && (me'.st.ZOMBIE? <==> me.st.ZOMBIE?) && (me'.st.UNUSED? <==> me.st.UNUSED?) && (me'.st.USED? <==> me.st.USED?)
       && (me'.pc.ForkLink? || me'.pc.ForkRun? ==> me'.pc == me.pc)
       && (s'.wl == s.wl || (s.wl.None? && s'.wl == Some(p)) || (s.wl == Some(p) && s'.wl.None?))
       && (Committed(s', p) ==>
             || Committed(s, p)
             || (s.wl == Some(p) && forall c | 0 <= c < NPROC && s.proc[c].parent == Some(p) :: !s.proc[c].st.ZOMBIE?))
       && (s.wl == Some(p) && WillWakeInit(s) ==> WillWakeInit(s'))
  }

  lemma OwnStepKeeps(s: Sys, s': Sys, p: nat)
    requires OwnStep(s, s', p) && Ok(s', p)
    ensures Inv(s')
  {
    forall q | 0 <= q < NPROC ensures Ok(s', q) {
      if q != p {
        hide Placed, Forking, ParentAlive, Childless, Noticed, ParentWoken, Scanned, OwnStep;
        OwnStepKin(s, s', p, q);
        OwnStepSleepers(s, s', p, q);
      }
    }
  }

  lemma OwnStepKin(s: Sys, s': Sys, p: nat, q: nat)
    requires OwnStep(s, s', p) && q < NPROC && q != p
    ensures Placed(s', q) && Forking(s', q) && ParentAlive(s', q) && Childless(s', q)
  {
    hide Noticed, ParentWoken, Scanned, Committed, WillWakeInit;
    assert Ok(s, p) && Ok(s, q);
  }

  lemma OwnStepSleepers(s: Sys, s': Sys, p: nat, q: nat)
    requires OwnStep(s, s', p) && q < NPROC && q != p
    ensures Noticed(s', q) && ParentWoken(s', q) && Scanned(s', q)
  {
    hide Forking, Childless;
    assert Ok(s, p) && Ok(s, q);
  }

  lemma DispatchKeeps(s: Sys, s': Sys, p: nat)
    requires Inv(s) && p < NPROC && DoDispatch(s, s', p)
    ensures Inv(s')
  {
    assert Ok(s, p);
    OwnStepKeeps(s, s', p);
  }

  lemma PreemptKeeps(s: Sys, s': Sys, p: nat)
    requires Inv(s) && p < NPROC && DoPreempt(s, s', p)
    ensures Inv(s')
  {
    assert Ok(s, p);
    OwnStepKeeps(s, s', p);
  }

  lemma SleepOtherKeeps(s: Sys, s': Sys, p: nat)
    requires Inv(s) && p < NPROC && DoSleepOther(s, s', p)
    ensures Inv(s')
  {
    assert Ok(s, p);
    OwnStepKeeps(s, s', p);
  }

  lemma WakeOtherKeeps(s: Sys, s': Sys, p: nat)
    requires Inv(s) && p < NPROC && DoWakeOther(s, s', p)
    ensures Inv(s')
  {
    assert Ok(s, p);
    OwnStepKeeps(s, s', p);
  }

  lemma KillKeeps(s: Sys, s': Sys, p: nat)
    requires Inv(s) && p < NPROC && DoKill(s, s', p)
    ensures Inv(s')
  {
    assert Ok(s, p);
    OwnStepKeeps(s, s', p);
  }

  lemma ForkKeeps(s: Sys, s': Sys, p: nat, np: nat)
    requires Inv(s) && p < NPROC && DoFork(s, s', p, np)
    ensures Inv(s')
  {
    forall q | 0 <= q < NPROC ensures s.proc[q].pc.ForkLink? || s.proc[q].pc.ForkRun? ==> s.proc[q].pc.np != np {
      assert Ok(s, q);
    }
    forall q | 0 <= q < NPROC ensures Ok(s', q) {
      hide Placed, Forking, ParentAlive, Childless, Noticed, ParentWoken, Scanned;
      SlotKin(s, s', p, np, q);
      SlotSleepers(s, s', p, np, q);
    }
  }

  lemma ForkFailsKeeps(s: Sys, s': Sys, p: nat)
    requires Inv(s) && p < NPROC && DoForkFails(s, s', p)
    ensures Inv(s')
  {
    forall q | 0 <= q < NPROC ensures Ok(s', q) {
      hide Placed, Forking, ParentAlive, Childless, Noticed, ParentWoken, Scanned;
      SlotKin(s, s', p, s.proc[p].pc.np, q);
      SlotSleepers(s, s', p, s.proc[p].pc.np, q);
    }
  }

  /** allocproc and freeproc in kfork. */
  ghost predicate SlotChange(s: Sys, s': Sys, p: nat, np: nat) {
    && Inv(s) && p < NPROC && np < NPROC
    && ((DoFork(s, s', p, np)
         && forall q | 0 <= q < NPROC :: s.proc[q].pc.ForkLink? || s.proc[q].pc.ForkRun? ==> s.proc[q].pc.np != np)
        || (DoForkFails(s, s', p) && s.proc[p].pc.np == np))
  }

  lemma SlotKin(s: Sys, s': Sys, p: nat, np: nat, q: nat)
    requires SlotChange(s, s', p, np) && q < NPROC
    ensures |s'.proc| == NPROC && Placed(s', q) && Forking(s', q) && ParentAlive(s', q) && Childless(s', q)
  {
    hide Noticed, ParentWoken, Scanned, Committed;
    assert Ok(s, p) && Ok(s, np) && Ok(s, q);
  }

  lemma SlotSleepers(s: Sys, s': Sys, p: nat, np: nat, q: nat)
    requires SlotChange(s, s', p, np) && q < NPROC
    ensures |s'.proc| == NPROC && Noticed(s', q) && ParentWoken(s', q) && Scanned(s', q)
  {
    hide Childless;
    assert Ok(s, p) && Ok(s, np) && Ok(s, q);
  }

  lemma OkParts(s: Sys, q: nat)
    requires q < |s.proc| && Placed(s, q) && Forking(s, q) && ParentAlive(s, q) && Childless(s, q)
    requires Noticed(s, q) && ParentWoken(s, q) && Scanned(s, q)
    ensures Ok(s, q)
  {
    hide Placed, Forking, ParentAlive, Childless, Noticed, ParentWoken, Scanned;
  }

  lemma ForkLinksKeeps(s: Sys, s': Sys, p: nat)
    requires Inv(s) && p < NPROC && DoForkLinks(s, s', p)
    ensures Inv(s')
  {
    hide Ok, DoForkLinks;
    ForkLinksKin(s, s', p, INIT);
    forall q | 0 <= q < NPROC ensures Ok(s', q) {
      ForkLinksKin(s, s', p, q);
      ForkLinksSleepers(s, s', p, q);
      OkParts(s', q);
    }
  }

  lemma ForkLinksKin(s: Sys, s': Sys, p: nat, q: nat)
    requires Inv(s) && p < NPROC && q < NPROC && DoForkLinks(s, s', p)
    ensures |s'.proc| == NPROC && Placed(s', q) && Forking(s', q) && ParentAlive(s', q) && Childless(s', q)
  {
    hide Noticed, ParentWoken, Scanned;
    assert Ok(s, p) && Ok(s, INIT) && Ok(s, s.proc[p].pc.np) && Ok(s, q);
  }

  lemma ForkLinksSleepers(s: Sys, s': Sys, p: nat, q: nat)
    requires Inv(s) && p < NPROC && q < NPROC && DoForkLinks(s, s', p)
    ensures |s'.proc| == NPROC && Noticed(s', q) && ParentWoken(s', q) && Scanned(s', q)
  {
    hide Childless;
    assert Ok(s, p) && Ok(s, INIT) && Ok(s, s.proc[p].pc.np) && Ok(s, q);
  }

  lemma ForkRunsKeeps(s: Sys, s': Sys, p: nat)
    requires Inv(s) && p < NPROC && DoForkRuns(s, s', p)
    ensures Inv(s')
  {
    hide Ok, DoForkRuns;
    ForkRunsKin(s, s', p, INIT);
    forall q | 0 <= q < NPROC ensures Ok(s', q) {
      ForkRunsKin(s, s', p, q);
      ForkRunsSleepers(s, s', p, q);
      OkParts(s', q);
    }
  }

  lemma ForkRunsKin(s: Sys, s': Sys, p: nat, q: nat)
    requires Inv(s) && p < NPROC && q < NPROC && DoForkRuns(s, s', p)
    ensures |s'.proc| == NPROC && Placed(s', q) && Forking(s', q) && ParentAlive(s', q) && Childless(s', q)
  {
    hide Noticed, ParentWoken, Scanned;
    assert Ok(s, p) && Ok(s, INIT) && Ok(s, s.proc[p].pc.np) && Ok(s, q);
  }

  lemma ForkRunsSleepers(s: Sys, s': Sys, p: nat, q: nat)
    requires Inv(s) && p < NPROC && q < NPROC && DoForkRuns(s, s', p)
    ensures |s'.proc| == NPROC && Noticed(s', q) && ParentWoken(s', q) && Scanned(s', q)
  {
    hide Childless;
    assert Ok(s, p) && Ok(s, INIT) && Ok(s, s.proc[p].pc.np) && Ok(s, q);
  }

  lemma ExitKeeps(s: Sys, s': Sys, p: nat)
    requires Inv(s) && p < NPROC && DoExit(s, s', p)
    ensures Inv(s')
  {
    assert Ok(s, p);
    OwnStepKeeps(s, s', p);
  }

  lemma ReparentsKeeps(s: Sys, s': Sys, p: nat)
    requires Inv(s) && p < NPROC && DoReparents(s, s', p)
    ensures Inv(s')
  {
    var k := s.proc[p].pc.k;
    if k < NPROC && s.proc[k].parent == Some(p) {
      HandsOver(s, s', p);
    } else {
      assert Ok(s, p);
      OwnStepKeeps(s, s', p);
    }
  }

  /** reparent gives a child to init. */
  lemma HandsOver(s: Sys, s': Sys, p: nat)
    requires Inv(s) && p < NPROC && DoReparents(s, s', p)
    requires s.proc[p].pc.k < NPROC && s.proc[s.proc[p].pc.k].parent == Some(p)
    ensures Inv(s')
  {
    forall q | 0 <= q < NPROC ensures Ok(s', q) {
      hide Placed, Forking, ParentAlive, Childless, Noticed, ParentWoken, Scanned;
      HandsOverKin(s, s', p, q);
      HandsOverSleepers(s, s', p, q);
    }
  }

  lemma HandsOverKin(s: Sys, s': Sys, p: nat, q: nat)
    requires Inv(s) && p < NPROC && q < NPROC && DoReparents(s, s', p)
    requires s.proc[p].pc.k < NPROC && s.proc[s.proc[p].pc.k].parent == Some(p)
    ensures |s'.proc| == NPROC && Placed(s', q) && Forking(s', q) && ParentAlive(s', q) && Childless(s', q)
  {
    hide Noticed, ParentWoken, Scanned, Committed;
    assert Ok(s, p) && Ok(s, INIT) && Ok(s, s.proc[p].pc.k) && Ok(s, q);
  }

  lemma HandsOverSleepers(s: Sys, s': Sys, p: nat, q: nat)
    requires Inv(s) && p < NPROC && q < NPROC && DoReparents(s, s', p)
    requires s.proc[p].pc.k < NPROC && s.proc[s.proc[p].pc.k].parent == Some(p)
    ensures |s'.proc| == NPROC && Noticed(s', q) && ParentWoken(s', q) && Scanned(s', q)
  {
    hide Forking, Childless;
    assert Ok(s, p) && Ok(s, INIT) && Ok(s, s.proc[p].pc.k) && Ok(s, q);
  }

  /** One slot's turn in wakeup, for init or for the parent. */
  ghost predicate Waking(s: Sys, s': Sys, p: nat, j: nat, chan: Chan, pc': Pc) {
    && Inv(s) && p < NPROC && j < NPROC && WakeOne(s, s', p, j, chan, pc')
    && var me := s.proc[p];
       if me.pc.ReparentWake? then me.pc.j == j && pc' == ReparentWake(me.pc.k, j + 1) && chan == ProcChan(INIT)
       else me.pc == ExitWake(j) && pc' == ExitWake(j + 1) && me.parent.Some? && chan == ProcChan(me.parent.value)
  }

  lemma WakeKeeps(s: Sys, s': Sys, p: nat, j: nat, chan: Chan, pc': Pc)
    requires Waking(s, s', p, j, chan, pc')
    ensures Inv(s')
  {
    forall q | 0 <= q < NPROC ensures Ok(s', q) {
      hide Placed, Forking, ParentAlive, Childless, Noticed, ParentWoken, Scanned;
      WakeKin(s, s', p, j, chan, pc', q);
      WakeSleepers(s, s', p, j, chan, pc', q);
    }
  }

  lemma WakeKin(s: Sys, s': Sys, p: nat, j: nat, chan: Chan, pc': Pc, q: nat)
    requires Waking(s, s', p, j, chan, pc') && q < NPROC
    ensures |s'.proc| == NPROC && Placed(s', q) && Forking(s', q) && ParentAlive(s', q) && Childless(s', q)
  {
    hide Waking;
    WakePlaced(s, s', p, j, chan, pc', q);
    WakeParents(s, s', p, j, chan, pc', q);
  }

  lemma WakePlaced(s: Sys, s': Sys, p: nat, j: nat, chan: Chan, pc': Pc, q: nat)
    requires Waking(s, s', p, j, chan, pc') && q < NPROC
    ensures |s'.proc| == NPROC && Placed(s', q)
  {
    hide Noticed, ParentWoken, Scanned, Forking, Childless, ParentAlive;
    assert Ok(s, p) && Ok(s, INIT) && Ok(s, j) && Ok(s, q);
  }

  lemma WakeParents(s: Sys, s': Sys, p: nat, j: nat, chan: Chan, pc': Pc, q: nat)
    requires Waking(s, s', p, j, chan, pc') && q < NPROC
    ensures |s'.proc| == NPROC && Forking(s', q) && ParentAlive(s', q) && Childless(s', q)
  {
    hide Noticed, ParentWoken, Scanned;
    assert Ok(s, p) && Ok(s, INIT) && Ok(s, j) && Ok(s, q);
  }

  lemma WakeSleepers(s: Sys, s': Sys, p: nat, j: nat, chan: Chan, pc': Pc, q: nat)
    requires Waking(s, s', p, j, chan, pc') && q < NPROC
    ensures |s'.proc| == NPROC && Noticed(s', q) && ParentWoken(s', q) && Scanned(s', q)
  {
    hide Forking, Childless;
    assert Ok(s, p) && Ok(s, INIT) && Ok(s, j) && Ok(s, q);
  }

  /** kwait frees a zombie child. */
  lemma ReapKeeps(s: Sys, s': Sys, p: nat)
    requires Inv(s) && p < NPROC && DoScans(s, s', p, true)
    requires s.proc[p].pc.k < NPROC && s.proc[s.proc[p].pc.k].parent == Some(p)
    requires s.proc[s.proc[p].pc.k].st.ZOMBIE?
    ensures Inv(s')
  {
    hide Ok, DoScans;
    ReapKin(s, s', p, INIT);
    forall q | 0 <= q < NPROC ensures Ok(s', q) {
      ReapKin(s, s', p, q);
      ReapSleepers(s, s', p, q);
      OkParts(s', q);
    }
  }

  lemma ReapKin(s: Sys, s': Sys, p: nat, q: nat)
    requires Inv(s) && p < NPROC && q < NPROC && DoScans(s, s', p, true)
    requires s.proc[p].pc.k < NPROC && s.proc[s.proc[p].pc.k].parent == Some(p) && s.proc[s.proc[p].pc.k].st.ZOMBIE?
    ensures |s'.proc| == NPROC && Placed(s', q) && Forking(s', q) && ParentAlive(s', q) && Childless(s', q)
  {
    hide Noticed, ParentWoken, Scanned;
    assert Ok(s, p) && Ok(s, INIT) && Ok(s, s.proc[p].pc.k) && Ok(s, q);
  }

  lemma ReapSleepers(s: Sys, s': Sys, p: nat, q: nat)
    requires Inv(s) && p < NPROC && q < NPROC && DoScans(s, s', p, true)
    requires s.proc[p].pc.k < NPROC && s.proc[s.proc[p].pc.k].parent == Some(p) && s.proc[s.proc[p].pc.k].st.ZOMBIE?
    ensures |s'.proc| == NPROC && Noticed(s', q) && ParentWoken(s', q) && Scanned(s', q)
  {
    hide Childless;
    assert Ok(s, p) && Ok(s, INIT) && Ok(s, s.proc[p].pc.k) && Ok(s, q);
  }

  lemma WakesInitKeeps(s: Sys, s': Sys, p: nat)
    requires Inv(s) && p < NPROC && DoWakesInit(s, s', p)
    ensures Inv(s')
  {
    var me := s.proc[p];
    if me.pc.j < NPROC {
      WakeKeeps(s, s', p, me.pc.j, ProcChan(INIT), ReparentWake(me.pc.k, me.pc.j + 1));
    } else {
      assert Ok(s, p);
      OwnStepKeeps(s, s', p);
    }
  }

  lemma WakesParentKeeps(s: Sys, s': Sys, p: nat)
    requires Inv(s) && p < NPROC && DoWakesParent(s, s', p)
    ensures Inv(s')
  {
    var me := s.proc[p];
    if me.pc.j < NPROC && me.parent.Some? {
      WakeKeeps(s, s', p, me.pc.j, ProcChan(me.parent.value), ExitWake(me.pc.j + 1));
    } else {
      assert Ok(s, p);
      OwnStepKeeps(s, s', p);
    }
  }

  lemma TurnsZombieKeeps(s: Sys, s': Sys, p: nat, status: int)
    requires Inv(s) && p < NPROC && DoTurnsZombie(s, s', p, status)
    ensures Inv(s')
  {
    assert Ok(s, p) && Ok(s, INIT);
    forall q | 0 <= q < NPROC ensures Ok(s', q) {
      assert Ok(s, q);
    }
  }

  lemma ExitUnlocksKeeps(s: Sys, s': Sys, p: nat)
    requires Inv(s) && p < NPROC && DoExitUnlocks(s, s', p)
    ensures Inv(s')
  {
    assert Ok(s, p);
    OwnStepKeeps(s, s', p);
  }

  lemma ExitSwitchesKeeps(s: Sys, s': Sys, p: nat)
    requires Inv(s) && p < NPROC && DoExitSwitches(s, s', p)
    ensures Inv(s')
  {
    assert Ok(s, p);
    OwnStepKeeps(s, s', p);
  }

  lemma WaitKeeps(s: Sys, s': Sys, p: nat)
    requires Inv(s) && p < NPROC && DoWait(s, s', p)
    ensures Inv(s')
  {
    assert Ok(s, p);
    OwnStepKeeps(s, s', p);
  }

  lemma ScansKeeps(s: Sys, s': Sys, p: nat, copied: bool)
    requires Inv(s) && p < NPROC && DoScans(s, s', p, copied)
    ensures Inv(s')
  {
    var k := s.proc[p].pc.k;
    if k < NPROC && s.proc[k].parent == Some(p) && s.proc[k].st.ZOMBIE? && copied {
      ReapKeeps(s, s', p);
    } else {
      ScansOn(s, s', p, copied);
    }
  }

  lemma ScansOn(s: Sys, s': Sys, p: nat, copied: bool)
    requires Inv(s) && p < NPROC && DoScans(s, s', p, copied)
    requires var k := s.proc[p].pc.k; !(k < NPROC && s.proc[k].parent == Some(p) && s.proc[k].st.ZOMBIE? && copied)
    ensures Inv(s')
  {
    assert Ok(s, p);
    OwnStepKeeps(s, s', p);
  }

  lemma DecidesKeeps(s: Sys, s': Sys, p: nat)
    requires Inv(s) && p < NPROC && DoDecides(s, s', p)
    ensures Inv(s')
  {
    assert Ok(s, p);
    OwnStepKeeps(s, s', p);
  }

  lemma SleepLocksKeeps(s: Sys, s': Sys, p: nat)
    requires Inv(s) && p < NPROC && DoSleepLocks(s, s', p)
    ensures Inv(s')
  {
    assert Ok(s, p);
    OwnStepKeeps(s, s', p);
  }

  lemma SleepUnlocksKeeps(s: Sys, s': Sys, p: nat)
    requires Inv(s) && p < NPROC && DoSleepUnlocks(s, s', p)
    ensures Inv(s')
  {
    assert Ok(s, p);
    OwnStepKeeps(s, s', p);
  }

  lemma SleepsKeeps(s: Sys, s': Sys, p: nat)
    requires Inv(s) && p < NPROC && DoSleeps(s, s', p)
    ensures Inv(s')
  {
    assert Ok(s, p);
    OwnStepKeeps(s, s', p);
  }

  lemma ReacquiresKeeps(s: Sys, s': Sys, p: nat)
    requires Inv(s) && p < NPROC && DoReacquires(s, s', p)
    ensures Inv(s')
  {
    assert Ok(s, p);
    OwnStepKeeps(s, s', p);
  }

  lemma StepKeeps(s: Sys, s': Sys, step: Step)
    requires Inv(s) && Next(s, s', step)
    ensures Inv(s')
  {
    match step
    case Dispatch(p) => DispatchKeeps(s, s', p);
    case Preempt(p) => PreemptKeeps(s, s', p);
    case SleepOther(p) => SleepOtherKeeps(s, s', p);
    case WakeOther(p) => WakeOtherKeeps(s, s', p);
    case Kill(p) => KillKeeps(s, s', p);
    case Fork(p, np) => ForkKeeps(s, s', p, np);
    case ForkFails(p) => ForkFailsKeeps(s, s', p);
    case ForkLinks(p) => ForkLinksKeeps(s, s', p);
    case ForkRuns(p) => ForkRunsKeeps(s, s', p);
    case Exit(p) => ExitKeeps(s, s', p);
    case Reparents(p) => ReparentsKeeps(s, s', p);
    case WakesInit(p) => WakesInitKeeps(s, s', p);
    case WakesParent(p) => WakesParentKeeps(s, s', p);
    case TurnsZombie(p, status) => TurnsZombieKeeps(s, s', p, status);
    case ExitUnlocks(p) => ExitUnlocksKeeps(s, s', p);
    case ExitSwitches(p) => ExitSwitchesKeeps(s, s', p);
    case Wait(p) => WaitKeeps(s, s', p);
    case Scans(p, copied) => ScansKeeps(s, s', p, copied);
    case Decides(p) => DecidesKeeps(s, s', p);
    case SleepLocks(p) => SleepLocksKeeps(s, s', p);
    case SleepUnlocks(p) => SleepUnlocksKeeps(s, s', p);
    case Sleeps(p) => SleepsKeeps(s, s', p);
    case Reacquires(p) => ReacquiresKeeps(s, s', p);
  }

  lemma {:induction false} RunKeeps(run: seq<Sys>, steps: seq<Step>, i: nat)
    requires Run(run, steps) && i < |run|
    ensures Inv(run[i])
  {
    if i > 0 {
      RunKeeps(run, steps, i - 1);
      StepKeeps(run[i - 1], run[i], steps[i - 1]);
    }
  }

  /** No lost wakeup: in every run, whenever wait_lock is free, no process asleep in kwait has a zombie
      child and no parent pointer names a zombie or unused slot. */
  lemma NoLostWakeup(run: seq<Sys>, steps: seq<Step>, i: nat, c: nat)
    requires Run(run, steps) && i < |run| && run[i].wl.None? && c < NPROC && run[i].proc[c].parent.Some?
    ensures var s, q := run[i], run[i].proc[c].parent.value;
      && q < NPROC && !s.proc[q].st.ZOMBIE? && !s.proc[q].st.UNUSED?
      && (s.proc[c].st.ZOMBIE? ==> !(s.proc[q].st.SLEEPING? && s.proc[q].chan == ProcChan(q)))
  {
    RunKeeps(run, steps, i);
    var s := run[i];
    var q := s.proc[c].parent.value;
    assert Ok(s, c) && Ok(s, q);
  }

  /** A slot is freed only when its process has switched away from its kernel stack. */
  lemma FreedWhenGone(run: seq<Sys>, steps: seq<Step>, i: nat, c: nat)
    requires Run(run, steps) && i < |steps| && c < NPROC
    requires run[i].proc[c].st.ZOMBIE? && !run[i + 1].proc[c].st.ZOMBIE?
    ensures run[i].proc[c].pc.Dead? && run[i + 1].proc[c] == NOPROC && steps[i].Scans?
  {
    hide ParentAlive, Childless, Noticed, ParentWoken, Scanned;
    RunKeeps(run, steps, i);
    var s := run[i];
    assert Ok(s, c) && Ok(s, steps[i].p);
  }
}
