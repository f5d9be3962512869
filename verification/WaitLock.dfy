/** wait_lock is always given back: whoever holds it can move on, or waits for a process lock whose holder
    can, and has a bounded number of steps to take. */
module WaitLock {
  import opened Params
  import opened Collections
  import opened ExitWait
  import opened Kinship

  /** A process lock that the holder of wait_lock does not hold is held on the way into the scheduler only,
      and that step is open. */
  lemma LockComesFree(s: Sys, p: nat, j: nat) returns (s': Sys, step: Step)
    requires Inv(s) && p < NPROC && j < NPROC && j != p && s.wl == Some(p) && s.proc[j].locked
    ensures |s'.proc| == NPROC && Next(s, s', step) && step.p == j && !s'.proc[j].locked && (step.Sleeps? || step.ExitSwitches?)
  {
    hide Forking, ParentAlive, Childless, Noticed, ParentWoken, Scanned;
    assert Ok(s, j);
    var me := s.proc[j];
    if me.pc.GoSleep? {
      s', step := With(s, j, me.(chan := ProcChan(j), st := SLEEPING, locked := false, pc := Asleep)), Sleeps(j);
    } else {
      s', step := With(s, j, me.(locked := false, pc := Dead)), ExitSwitches(j);
    }
  }

  /** One slot's turn in a wakeup. */
  lemma WakeMoves(s: Sys, p: nat, j: nat, chan: Chan, pc': Pc) returns (s': Sys)
    requires |s.proc| == NPROC && p < NPROC && j < NPROC && (j == p || !s.proc[j].locked)
    ensures |s'.proc| == NPROC && WakeOne(s, s', p, j, chan, pc')
  {
    var q := s.proc[j];
    if j == p {
      s' := With(s, p, s.proc[p].(pc := pc'));
    } else {
      s' := With(With(s, p, s.proc[p].(pc := pc')), j, if q.st.SLEEPING? && q.chan == chan then q.(st := RUNNABLE) else q);
    }
  }

  /** The process lock that the holder of wait_lock needs next, if any. */
  ghost function Wanted(s: Sys, p: nat): Option<nat>
    requires p < |s.proc|
  {
    match s.proc[p].pc
    case ReparentWake(_, j) => if j < |s.proc| && j != p then Some(j) else None
    case ExitWake(j) => if j < |s.proc| && j != p && s.proc[p].parent.Some? then Some(j) else None
    case Scan(k, _) => if k < |s.proc| && s.proc[k].parent == Some(p) then Some(k) else None
    case _ => None
  }

  /** The holder of wait_lock has a step unless the lock it needs is taken. */
  lemma ExitMoves(s: Sys, p: nat) returns (s': Sys, step: Step)
    requires Inv(s) && p < NPROC && s.wl == Some(p) && Exiting(s.proc[p].pc)
    requires Wanted(s, p).Some? ==> !s.proc[Wanted(s, p).value].locked
    ensures |s'.proc| == NPROC && Next(s, s', step) && step.p == p && !step.Kill?
  {
    hide Forking, ParentAlive, Childless, Noticed, ParentWoken, Scanned;
    assert Ok(s, p);
    var me := s.proc[p];
    var pc := me.pc;
    if pc.Reparent? {
      step := Reparents(p);
      s' := if pc.k >= NPROC then With(s, p, me.(pc := ExitWake(0)))
            else if s.proc[pc.k].parent == Some(p) then
              With(With(s, p, me.(pc := ReparentWake(pc.k, 0))), pc.k, s.proc[pc.k].(parent := Some(INIT)))
            else With(s, p, me.(pc := Reparent(pc.k + 1)));
    } else if pc.ReparentWake? && pc.j >= NPROC {
      s', step := With(s, p, me.(pc := Reparent(pc.k + 1))), WakesInit(p);
    } else if pc.ReparentWake? {
      step := WakesInit(p);
      s' := WakeMoves(s, p, pc.j, ProcChan(INIT), ReparentWake(pc.k, pc.j + 1));
    } else if pc.ExitWake? && (pc.j >= NPROC || me.parent.None?) {
      s', step := With(s, p, me.(pc := ExitZombie)), WakesParent(p);
    } else if pc.ExitWake? {
      step := WakesParent(p);
      s' := WakeMoves(s, p, pc.j, ProcChan(me.parent.value), ExitWake(pc.j + 1));
    } else if pc.ExitZombie? {
      s', step := With(s, p, me.(st := ZOMBIE, xstate := 0, locked := true, pc := ExitUnlock)), TurnsZombie(p, 0);
    } else {
      s', step := With(s, p, me.(pc := ExitSched)).(wl := None), ExitUnlocks(p);
    }
  }

  lemma WaitMoves(s: Sys, p: nat) returns (s': Sys, step: Step)
    requires Inv(s) && p < NPROC && s.wl == Some(p) && Waits(s.proc[p].pc)
    requires Wanted(s, p).Some? ==> !s.proc[Wanted(s, p).value].locked
    ensures |s'.proc| == NPROC && Next(s, s', step) && step.p == p && !step.Kill?
  {
    hide Forking, ParentAlive, Childless, Noticed, ParentWoken, Scanned;
    assert Ok(s, p);
    var me := s.proc[p];
    var pc := me.pc;
    if pc.Scan? {
      step := Scans(p, false);
      s' := if pc.k >= NPROC then With(s, p, me.(pc := ScanDone(pc.kids)))
            else if s.proc[pc.k].parent != Some(p) then With(s, p, me.(pc := Scan(pc.k + 1, pc.kids)))
            else if !s.proc[pc.k].st.ZOMBIE? then With(s, p, me.(pc := Scan(pc.k + 1, true)))
            else With(s, p, me.(pc := User, got := None)).(wl := None);
    } else if pc.ScanDone? {
      step := Decides(p);
      s' := if !pc.kids || me.killed then With(s, p, me.(pc := User, got := None)).(wl := None)
            else With(s, p, me.(pc := SleepLock));
    } else if pc.SleepLock? {
      s', step := With(s, p, me.(locked := true, pc := SleepUnlock)), SleepLocks(p);
    } else {
      s', step := With(s, p, me.(pc := GoSleep)).(wl := None), SleepUnlocks(p);
    }
  }

  /** No deadlock: in every state of every run, the holder of wait_lock has a step, or waits for a process lock
      whose holder's next step is open and gives that lock back. */
  lemma HolderMoves(run: seq<Sys>, steps: seq<Step>, i: nat, p: nat) returns (s': Sys, step: Step)
    requires Run(run, steps) && i < |run| && run[i].wl == Some(p)
    ensures p < NPROC && |s'.proc| == NPROC && Next(run[i], s', step) && !step.Kill?
    ensures step.p == p || (Wanted(run[i], p) == Some(step.p) && run[i].proc[step.p].locked && !s'.proc[step.p].locked)
  {
    hide Next, Inv, Run;
    RunKeeps(run, steps, i);
    var s := run[i];
    HolderPlaced(run, steps, i, p);
    var want := Wanted(s, p);
    if want.Some? && s.proc[want.value].locked {
      s', step := LockComesFree(s, p, want.value);
    } else if Exiting(s.proc[p].pc) {
      s', step := ExitMoves(s, p);
    } else {
      s', step := WaitMoves(s, p);
    }
  }

  lemma HolderPlaced(run: seq<Sys>, steps: seq<Step>, i: nat, p: nat)
    requires Run(run, steps) && i < |run| && run[i].wl == Some(p)
    ensures p < NPROC == |run[i].proc| && HoldsWaitLock(run[i].proc[p].pc) && (Wanted(run[i], p).Some? ==> Wanted(run[i], p).value != p)
  {
    RunKeeps(run, steps, i);
    HolderInTable(run, steps, i);
    assert Ok(run[i], p);
  }

  lemma {:induction false} HolderInTable(run: seq<Sys>, steps: seq<Step>, i: nat)
    requires Run(run, steps) && i < |run|
    ensures run[i].wl.Some? ==> run[i].wl.value < NPROC
  {
    if i > 0 {
      HolderInTable(run, steps, i - 1);
      HolderStep(run[i - 1], run[i], steps[i - 1]);
    }
  }

  lemma HolderStep(s: Sys, s': Sys, step: Step)
    requires |s.proc| == NPROC && Next(s, s', step) && (s.wl.Some? ==> s.wl.value < NPROC)
    ensures s'.wl.Some? ==> s'.wl.value < NPROC
  {
  }

  function Rest(k: nat): nat {
    if k < NPROC then NPROC - k else 0
  }

  /** How many steps the holder of wait_lock has at most until it gives it back. */
  ghost function Work(pc: Pc): nat {
    match pc
    case Reparent(k) => 4 + NPROC + Rest(k) * (NPROC + 2)
    case ReparentWake(k, j) => 4 + NPROC + Rest(k + 1) * (NPROC + 2) + 1 + Rest(j)
    case ExitWake(j) => 3 + Rest(j)
    case ExitZombie => 2
    case ExitUnlock => 1
    case Scan(k, _) => 4 + Rest(k)
    case ScanDone(_) => 3
    case SleepLock => 2
    case SleepUnlock => 1
    case _ => 0
  }

  lemma RestStep(k: nat)
    requires k < NPROC
    ensures Rest(k) * (NPROC + 2) == Rest(k + 1) * (NPROC + 2) + NPROC + 2
  {
  }

  lemma WorkShrinks(s: Sys, s': Sys, step: Step)
    requires Inv(s) && Next(s, s', step) && s.wl == s'.wl == Some(step.p) && !step.Kill?
    ensures |s'.proc| == NPROC && Work(s'.proc[step.p].pc) < Work(s.proc[step.p].pc)
  {
    hide Forking, Childless, Noticed, ParentWoken, Scanned;
    assert Ok(s, step.p);
    var pc := s.proc[step.p].pc;
    if pc.Reparent? && pc.k < NPROC {
      RestStep(pc.k);
      assert Ok(s, pc.k);
    }
  }

  lemma WorkBound(pc: Pc)
    ensures Work(pc) <= 4 + NPROC + NPROC * (NPROC + 2)
  {
    if pc.Reparent? {
      RestAtMost(pc.k);
    } else if pc.ReparentWake? {
      RestAtMost(pc.k + 1);
    }
  }

  lemma RestAtMost(k: nat)
    ensures Rest(k) * (NPROC + 2) <= NPROC * (NPROC + 2) && (k > 0 ==> Rest(k) * (NPROC + 2) + NPROC + 2 <= NPROC * (NPROC + 2))
  {
  }

  /** The steps of p itself from i up to j. */
  ghost function Own(steps: seq<Step>, p: nat, i: nat, j: nat): nat
    requires i <= j <= |steps|
    decreases j
  {
    if i == j then 0 else Own(steps, p, i, j - 1) + if steps[j - 1].p == p && !steps[j - 1].Kill? then 1 else 0
  }

  ghost predicate Held(run: seq<Sys>, p: nat, i: nat, j: nat) {
    i <= j < |run| && forall k | i <= k <= j :: run[k].wl == Some(p)
  }

  lemma {:induction false} WorkUsed(run: seq<Sys>, steps: seq<Step>, p: nat, i: nat, j: nat)
    requires Run(run, steps) && p < NPROC && Held(run, p, i, j)
    ensures Own(steps, p, i, j) + Work(run[j].proc[p].pc) <= Work(run[i].proc[p].pc)
    decreases j
  {
    hide Next, Inv, Work;
    if i < j {
      WorkUsed(run, steps, p, i, j - 1);
      RunKeeps(run, steps, j - 1);
      WorkStep(run[j - 1], run[j], steps[j - 1], p);
    }
  }

  lemma WorkStep(s: Sys, s': Sys, step: Step, p: nat)
    requires Inv(s) && Next(s, s', step) && p < NPROC && s.wl == s'.wl == Some(p)
    ensures |s'.proc| == NPROC
    ensures Work(s'.proc[p].pc) + (if step.p == p && !step.Kill? then 1 else 0) <= Work(s.proc[p].pc)
  {
    hide Next, Inv, Work;
    if step.p != p {
      KidsKept(s, s', step, p, p);
    } else if step.Kill? {
      KillMovesNobody(s, s', step);
    } else {
      WorkShrinks(s, s', step);
    }
  }

  lemma KillMovesNobody(s: Sys, s': Sys, step: Step)
    requires Inv(s) && Next(s, s', step) && step.Kill?
    ensures |s.proc| == |s'.proc| == NPROC && s'.proc[step.p].pc == s.proc[step.p].pc
  {
  }

  /** However the others interleave, whoever holds wait_lock gives it back after a bounded number of its own
      steps. */
  lemma GivenBack(run: seq<Sys>, steps: seq<Step>, p: nat, i: nat, j: nat)
    requires Run(run, steps) && p < NPROC && Held(run, p, i, j)
    ensures Own(steps, p, i, j) <= 4 + NPROC + NPROC * (NPROC + 2)
  {
    hide Next, Inv, Work;
    WorkUsed(run, steps, p, i, j);
    WorkBound(run[i].proc[p].pc);
  }
}
