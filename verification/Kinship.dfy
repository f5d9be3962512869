/** Whose child a process is, and what fork, wait, exit and kill come to, over whole runs. The statements
    are about the states of a run and the names of the steps between them. */
module Kinship {
  import opened Params
  import opened Collections
  import opened ExitWait

  /** The slot is freed between two states. */
  ghost predicate Freed(s: Sys, s': Sys, c: nat)
    requires c < |s.proc| && c < |s'.proc|
  {
    !s.proc[c].st.UNUSED? && s'.proc[c] == NOPROC
  }

  /** How a parent pointer may change: a fork sets it, an exit of the parent hands the child to init, and
      freeing the slot clears it. */
  ghost predicate ParentMay(s: Sys, s': Sys, step: Step, c: nat)
    requires c < |s.proc| && c < |s'.proc|
  {
    var was, now := s.proc[c].parent, s'.proc[c].parent;
    || now == was
    || (step.ForkLinks? && was.None? && now == Some(step.p))
    || (step.Reparents? && was == Some(step.p) && now == Some(INIT))
    || (now.None? && Freed(s, s', c))
  }

  lemma ParentStep(s: Sys, s': Sys, step: Step, c: nat)
    requires Inv(s) && Next(s, s', step) && c < NPROC
    ensures |s'.proc| == NPROC && ParentMay(s, s', step, c)
  {
    hide ParentAlive, Childless, Noticed, ParentWoken, Scanned;
    assert Ok(s, c) && Ok(s, step.p);
    if step.ForkLinks? || step.ForkFails? {
      assert Ok(s, s.proc[step.p].pc.np);
    }
  }

  lemma ParentChanges(run: seq<Sys>, steps: seq<Step>, i: nat, c: nat)
    requires Run(run, steps) && i < |steps| && c < NPROC
    ensures ParentMay(run[i], run[i + 1], steps[i], c)
  {
    hide Inv, Next;
    RunKeeps(run, steps, i);
    ParentStep(run[i], run[i + 1], steps[i], c);
  }

  /** The child leaves its parent at step k: it is freed, or the exiting parent hands it to init. */
  ghost predicate Leaves(run: seq<Sys>, steps: seq<Step>, k: nat, p: nat, c: nat)
    requires k < |steps| && |run| == |steps| + 1 && c < |run[k].proc| && c < |run[k + 1].proc|
  {
    || Freed(run[k], run[k + 1], c)
    || (steps[k] == Reparents(p) && run[k + 1].proc[c].parent == Some(INIT))
  }

  /** A child stays its parent's until it is freed or the parent's own exit hands it over. */
  lemma {:induction false} ChildStays(run: seq<Sys>, steps: seq<Step>, t: nat, u: nat, p: nat, c: nat)
    requires Run(run, steps) && t <= u < |run| && c < NPROC && run[t].proc[c].parent == Some(p)
    ensures run[u].proc[c].parent == Some(p) || exists k :: t <= k < u && Leaves(run, steps, k, p, c)
    decreases u - t
  {
    hide Next, Init;
    if t < u {
      ChildStays(run, steps, t, u - 1, p, c);
      if run[u - 1].proc[c].parent == Some(p) {
        ParentChanges(run, steps, u - 1, c);
        assert run[u].proc[c].parent == Some(p) || Leaves(run, steps, u - 1, p, c);
      }
    }
  }

  /** p has taken slot np at step u and not yet made it its child, nor given it up, up to step t. */
  ghost predicate Forks(steps: seq<Step>, u: nat, t: nat, p: nat, np: nat) {
    && u < t <= |steps| && steps[u] == Fork(p, np)
    && forall k | u < k < t :: steps[k] != ForkLinks(p) && steps[k] != ForkFails(p)
  }

  /** Nobody else moves a forking process on. */
  lemma ForkingStep(s: Sys, s': Sys, step: Step, p: nat)
    requires Inv(s) && Next(s, s', step) && p < NPROC && s.proc[p].pc.ForkLink?
    requires step != ForkLinks(p) && step != ForkFails(p)
    ensures |s'.proc| == NPROC && s'.proc[p].pc == s.proc[p].pc
  {
    hide ParentAlive, Childless, Noticed, ParentWoken, Scanned;
    assert Ok(s, p) && Ok(s, step.p);
    if step.ForkLinks? || step.ForkFails? || step.ForkRuns? {
      assert Ok(s, s.proc[step.p].pc.np);
    }
  }

  lemma {:induction false} StillForking(run: seq<Sys>, steps: seq<Step>, u: nat, t: nat, p: nat, np: nat)
    requires Run(run, steps) && Forks(steps, u, t, p, np)
    ensures p < NPROC && np < NPROC && run[t].proc[p].pc == ForkLink(np)
    decreases t
  {
    RunKeeps(run, steps, t - 1);
    assert Next(run[t - 1], run[t], steps[t - 1]);
    if t - 1 > u {
      StillForking(run, steps, u, t - 1, p, np);
      ForkingStep(run[t - 1], run[t], steps[t - 1], p);
    } else {
      ForkTaken(run[u], run[t], p, np);
    }
  }

  lemma ForkTaken(s: Sys, s': Sys, p: nat, np: nat)
    requires Inv(s) && Next(s, s', Fork(p, np))
    ensures p < NPROC && np < NPROC && |s'.proc| == NPROC && s'.proc[p].pc == ForkLink(np)
  {
    hide ParentAlive, Childless, Noticed, ParentWoken, Scanned, Forking;
    assert Ok(s, p);
  }

  /** A forked process is the child of the process that forked it. */
  lemma ForkedChild(run: seq<Sys>, steps: seq<Step>, u: nat, t: nat, p: nat, np: nat)
    requires Run(run, steps) && Forks(steps, u, t, p, np) && t < |steps| && steps[t] == ForkLinks(p)
    ensures np < NPROC && run[t + 1].proc[np].parent == Some(p)
  {
    hide Inv;
    StillForking(run, steps, u, t, p, np);
    RunKeeps(run, steps, t);
    assert Next(run[t], run[t + 1], steps[t]);
    Linked(run[t], run[t + 1], p);
  }

  lemma Linked(s: Sys, s': Sys, p: nat)
    requires Inv(s) && Next(s, s', ForkLinks(p)) && s.proc[p].pc.ForkLink?
    ensures s.proc[p].pc.np < NPROC == |s'.proc| && s'.proc[s.proc[p].pc.np].parent == Some(p)
  {
  }

  /** A fork that fails gives the slot back. */
  lemma FailedForkFrees(run: seq<Sys>, steps: seq<Step>, u: nat, t: nat, p: nat, np: nat)
    requires Run(run, steps) && Forks(steps, u, t, p, np) && t < |steps| && steps[t] == ForkFails(p)
    ensures np < NPROC && run[t + 1].proc[np] == NOPROC
  {
    hide Inv;
    StillForking(run, steps, u, t, p, np);
    assert Next(run[t], run[t + 1], steps[t]);
  }

  /** A process past the link of its fork is the parent of the slot it took. */
  ghost predicate ForkedOwn(s: Sys, p: nat)
    requires p < |s.proc|
  {
    s.proc[p].pc.ForkRun? ==> s.proc[p].pc.np < |s.proc| && s.proc[s.proc[p].pc.np].parent == Some(p)
  }

  lemma ForkedOwnStep(s: Sys, s': Sys, step: Step, p: nat)
    requires Inv(s) && Next(s, s', step) && p < NPROC && ForkedOwn(s, p)
    ensures |s'.proc| == NPROC && ForkedOwn(s', p)
  {
    hide Next, Inv;
    ParentStep(s, s', step, p);
    if step.p == p {
      ForkedOwnMine(s, s', step);
    } else {
      ForkedOwnOther(s, s', step, p);
    }
  }

  lemma ForkedOwnMine(s: Sys, s': Sys, step: Step)
    requires Inv(s) && Next(s, s', step) && ForkedOwn(s, step.p) && |s'.proc| == NPROC
    ensures ForkedOwn(s', step.p)
  {
    hide ParentAlive, Childless, Noticed, ParentWoken, Scanned;
    assert Ok(s, step.p);
  }

  lemma ForkedOwnOther(s: Sys, s': Sys, step: Step, p: nat)
    requires Inv(s) && Next(s, s', step) && p < NPROC && ForkedOwn(s, p) && step.p != p && |s'.proc| == NPROC
    ensures ForkedOwn(s', p)
  {
    hide ParentAlive, Childless, Noticed, ParentWoken, Scanned;
    assert Ok(s, p) && Ok(s, step.p);
  }

  lemma {:induction false} RunForkedOwn(run: seq<Sys>, steps: seq<Step>, i: nat, p: nat)
    requires Run(run, steps) && i < |run| && p < NPROC
    ensures ForkedOwn(run[i], p)
  {
    hide Next, Inv;
    if i > 0 {
      RunForkedOwn(run, steps, i - 1, p);
      RunKeeps(run, steps, i - 1);
      ForkedOwnStep(run[i - 1], run[i], steps[i - 1], p);
    }
  }

  /** The last step of a fork makes a child of the caller, kept from the scheduler until then, runnable. */
  lemma ForkedRuns(run: seq<Sys>, steps: seq<Step>, i: nat, p: nat)
    requires Run(run, steps) && i < |steps| && steps[i] == ForkRuns(p)
    ensures exists np :: 0 <= np < NPROC && run[i].proc[np].parent == Some(p)
                         && run[i].proc[np].st.USED? && run[i + 1].proc[np].st.RUNNABLE?
  {
    RunKeeps(run, steps, i);
    assert Next(run[i], run[i + 1], steps[i]) && Ok(run[i], p);
    RunForkedOwn(run, steps, i, p);
    var np := run[i].proc[p].pc.np;
    assert run[i].proc[np].parent == Some(p);
  }

  ghost predicate HasChild(s: Sys, p: nat, k: nat) {
    exists c :: 0 <= c < k && c < |s.proc| && s.proc[c].parent == Some(p)
  }

  /** A scan in kwait knows whether it has passed a child. */
  ghost predicate KidsRight(s: Sys, p: nat)
    requires p < |s.proc|
  {
    && (s.proc[p].pc.Scan? ==> (s.proc[p].pc.kids <==> HasChild(s, p, s.proc[p].pc.k)))
    && (s.proc[p].pc.ScanDone? ==> (s.proc[p].pc.kids <==> HasChild(s, p, NPROC)))
    && (s.proc[p].pc.SleepLock? || s.proc[p].pc.SleepUnlock? ==> HasChild(s, p, NPROC))
  }

  /** While p holds wait_lock nobody else's step changes its children. */
  lemma KidsKept(s: Sys, s': Sys, step: Step, p: nat, c: nat)
    requires Inv(s) && Next(s, s', step) && p < NPROC && c < NPROC && step.p != p && s.wl == Some(p)
    ensures |s'.proc| == NPROC && s'.proc[p].pc == s.proc[p].pc
    ensures s'.proc[c].parent == Some(p) <==> s.proc[c].parent == Some(p)
  {
    hide Childless, Noticed, ParentWoken, Scanned;
    assert Ok(s, c) && Ok(s, p) && Ok(s, step.p);
    if step.ForkLinks? || step.ForkFails? || step.ForkRuns? {
      assert Ok(s, s.proc[step.p].pc.np);
    }
  }

  lemma SameKids(s: Sys, s': Sys, p: nat)
    requires |s.proc| == |s'.proc| && forall c | 0 <= c < |s.proc| :: s'.proc[c].parent == Some(p) <==> s.proc[c].parent == Some(p)
    ensures forall k: nat :: HasChild(s', p, k) <==> HasChild(s, p, k)
  {
  }

  lemma OneMoreSlot(s: Sys, p: nat, k: nat)
    requires k < |s.proc|
    ensures HasChild(s, p, k + 1) <==> HasChild(s, p, k) || s.proc[k].parent == Some(p)
    ensures !HasChild(s, p, 0) && forall j: nat | j >= |s.proc| :: HasChild(s, p, j) <==> HasChild(s, p, |s.proc|)
  {
  }

  predicate Waits(pc: Pc) {
    pc.Scan? || pc.ScanDone? || pc.SleepLock? || pc.SleepUnlock?
  }

  /** A step that leads on in kwait changes no parent pointer. */
  lemma WaitSteps(s: Sys, s': Sys, step: Step, c: nat)
    requires Inv(s) && Next(s, s', step) && c < NPROC && |s'.proc| == NPROC && Waits(s'.proc[step.p].pc)
    ensures s'.proc[c].parent == s.proc[c].parent
  {
    hide Childless, Noticed, ParentWoken, Scanned, ParentAlive, Forking;
    assert Ok(s, step.p);
  }

  /** p's own steps in kwait. */
  lemma KidsOwn(s: Sys, s': Sys, step: Step)
    requires Inv(s) && Next(s, s', step) && KidsRight(s, step.p) && |s.proc| == |s'.proc| == NPROC && step.p < NPROC
    ensures KidsRight(s', step.p)
  {
    hide Next, Inv, HasChild;
    var p := step.p;
    if Waits(s'.proc[p].pc) {
      forall c | 0 <= c < NPROC ensures s'.proc[c].parent == s.proc[c].parent {
        WaitSteps(s, s', step, c);
      }
      SameKids(s, s', p);
      PlaceMoves(s, s', step);
    }
  }

  /** How a scan counts. */
  lemma PlaceMoves(s: Sys, s': Sys, step: Step)
    requires |s.proc| == |s'.proc| == NPROC && Next(s, s', step) && KidsRight(s, step.p) && Waits(s'.proc[step.p].pc)
    requires forall k: nat :: HasChild(s', step.p, k) <==> HasChild(s, step.p, k)
    ensures KidsRight(s', step.p)
  {
    hide HasChild;
    var p := step.p;
    OneMoreSlot(s, p, if s.proc[p].pc.Scan? && s.proc[p].pc.k < NPROC then s.proc[p].pc.k else 0);
  }

  /** No other process moves one on in kwait. */
  lemma OtherPc(s: Sys, s': Sys, step: Step, p: nat)
    requires Inv(s) && Next(s, s', step) && p < NPROC && step.p != p
    ensures |s'.proc| == NPROC && (s'.proc[p].pc == s.proc[p].pc || s'.proc[p].pc.User?)
  {
    hide Childless, Noticed, ParentWoken, Scanned, ParentAlive;
    assert Ok(s, step.p);
  }

  lemma KidsStep(s: Sys, s': Sys, step: Step, p: nat)
    requires Inv(s) && Next(s, s', step) && p < NPROC && KidsRight(s, p)
    ensures |s'.proc| == NPROC && KidsRight(s', p)
  {
    hide Next, HasChild, Ok;
    ParentStep(s, s', step, p);
    if step.p == p {
      KidsOwn(s, s', step);
    } else {
      OtherPc(s, s', step, p);
      if Waits(s'.proc[p].pc) {
        WaiterHolds(s, p);
        forall c | 0 <= c < NPROC ensures s'.proc[c].parent == Some(p) <==> s.proc[c].parent == Some(p) {
          KidsKept(s, s', step, p, c);
        }
        SameKids(s, s', p);
      }
    }
  }

  lemma WaiterHolds(s: Sys, p: nat)
    requires Inv(s) && p < NPROC && Waits(s.proc[p].pc)
    ensures s.wl == Some(p)
  {
    assert Ok(s, p);
  }

  lemma {:induction false} RunKids(run: seq<Sys>, steps: seq<Step>, i: nat, p: nat)
    requires Run(run, steps) && i < |run| && p < NPROC
    ensures KidsRight(run[i], p)
  {
    hide Next, Inv;
    if i > 0 {
      RunKids(run, steps, i - 1, p);
      RunKeeps(run, steps, i - 1);
      KidsStep(run[i - 1], run[i], steps[i - 1], p);
    }
  }

  ghost predicate ZombieChild(s: Sys, p: nat, c: nat) {
    c < |s.proc| && s.proc[c].parent == Some(p) && s.proc[c].st.ZOMBIE?
  }

  /** How a call of kwait by p may end: it brings a zombie child with its status and frees the slot, or it
      fails because there is no child, p was killed, or the status could not be copied out. */
  ghost predicate Ends(s: Sys, s': Sys, step: Step, p: nat)
    requires p < |s.proc| && |s.proc| == |s'.proc|
  {
    match s'.proc[p].got
    case Some(child) => ZombieChild(s, p, child.0) && s'.proc[child.0] == NOPROC && child.1 == s.proc[child.0].xstate
    case None =>
      || (forall c | 0 <= c < |s.proc| :: s.proc[c].parent != Some(p))
      || s.proc[p].killed
      || (step == Scans(p, false) && exists c: nat :: ZombieChild(s, p, c))
  }

  lemma WaitEnds(run: seq<Sys>, steps: seq<Step>, i: nat, p: nat)
    requires Run(run, steps) && i < |steps| && p < NPROC && Waits(run[i].proc[p].pc) && run[i + 1].proc[p].pc.User?
    ensures Ends(run[i], run[i + 1], steps[i], p)
  {
    RunKeeps(run, steps, i);
    RunKids(run, steps, i, p);
    EndStep(run[i], run[i + 1], steps[i], p);
  }

  lemma EndStep(s: Sys, s': Sys, step: Step, p: nat)
    requires Inv(s) && Next(s, s', step) && p < NPROC && Waits(s.proc[p].pc) && KidsRight(s, p)
    requires |s'.proc| == NPROC && s'.proc[p].pc.User?
    ensures Ends(s, s', step, p)
  {
    hide Childless, Noticed, ParentWoken, Scanned;
    WaiterHolds(s, p);
    if step.p != p {
      KidsKept(s, s', step, p, p);
    } else if step.Scans? {
      assert Ok(s, s.proc[p].pc.k) && ZombieChild(s, p, s.proc[p].pc.k);
    } else if step.Decides? && !s.proc[p].pc.kids {
      assert !HasChild(s, p, NPROC);
    }
  }

  /** At the end of a scan no child is a zombie, and kwait goes on to sleep exactly when there is a child
      and the caller was not killed. */
  lemma WaitDecides(run: seq<Sys>, steps: seq<Step>, i: nat, p: nat)
    requires Run(run, steps) && i < |steps| && steps[i] == Decides(p)
    ensures p < NPROC && !exists c: nat :: ZombieChild(run[i], p, c)
    ensures run[i + 1].proc[p].pc.User? || run[i + 1].proc[p].pc.SleepLock?
    ensures run[i + 1].proc[p].pc.SleepLock? <==> HasChild(run[i], p, NPROC) && !run[i].proc[p].killed
  {
    RunKeeps(run, steps, i);
    assert Next(run[i], run[i + 1], steps[i]) && Ok(run[i], p);
    RunKids(run, steps, i, p);
  }

  /** The last step of falling asleep in kwait leaves the process asleep on its own channel, and a process
      asleep there has no zombie child once wait_lock is free. */
  lemma SleepsOwnChannel(run: seq<Sys>, steps: seq<Step>, i: nat, p: nat, j: nat, c: nat)
    requires Run(run, steps) && i < |steps| && steps[i] == Sleeps(p)
    requires i < j < |run| && p < NPROC && run[j].proc[p] == run[i + 1].proc[p] && run[j].wl.None?
    ensures run[i + 1].proc[p].st.SLEEPING? && run[i + 1].proc[p].chan == ProcChan(p) && !ZombieChild(run[j], p, c)
  {
    assert Next(run[i], run[i + 1], steps[i]);
    if ZombieChild(run[j], p, c) {
      NoLostWakeup(run, steps, j, c);
    }
  }

  /** An exited process is a zombie that keeps its status and, but for a new parent, all else, and only its
      parent's kwait ends that: it frees the slot and brings the parent the child and its status. */
  ghost predicate ZombieNext(s: Sys, s': Sys, step: Step, c: nat)
    requires c < |s.proc| && |s'.proc| == |s.proc|
  {
    || (s'.proc[c].st.ZOMBIE? && s'.proc[c].xstate == s.proc[c].xstate)
    || (step.Scans? && step.copied && s.proc[c].parent == Some(step.p) && s'.proc[c] == NOPROC
        && step.p < |s'.proc| && s'.proc[step.p].got == Some((c, s.proc[c].xstate)))
  }

  lemma ZombieStep(s: Sys, s': Sys, step: Step, c: nat)
    requires Inv(s) && Next(s, s', step) && c < NPROC && |s'.proc| == NPROC
    ensures step.TurnsZombie? && step.p == c ==>
      s'.proc[c].st.ZOMBIE? && s'.proc[c].xstate == step.status && s'.proc[c].parent == s.proc[c].parent
    ensures s.proc[c].st.ZOMBIE? ==> ZombieNext(s, s', step, c)
  {
    hide Childless, Noticed, ParentWoken, Scanned;
    assert Ok(s, c) && Ok(s, step.p);
  }

  /** As long as an exited process is a zombie it has the status it gave. */
  lemma {:induction false} ZombieStays(run: seq<Sys>, steps: seq<Step>, t: nat, u: nat, c: nat)
    requires Run(run, steps) && t < u < |run| && c < NPROC && steps[t].TurnsZombie? && steps[t].p == c
    requires forall k | t < k < u :: run[k].proc[c].st.ZOMBIE?
    ensures run[u].proc[c].st.ZOMBIE? ==> run[u].proc[c].xstate == steps[t].status
    decreases u
  {
    hide Inv, Next, Init;
    RunKeeps(run, steps, u - 1);
    assert Next(run[u - 1], run[u], steps[u - 1]);
    ZombieStep(run[u - 1], run[u], steps[u - 1], c);
    if u - 1 > t {
      ZombieStays(run, steps, t, u - 1, c);
    }
  }

  /** The exit status reaches the parent: the first step that ends the zombie is a kwait of its parent, which
      returns the child with the status it exited with. */
  lemma StatusDelivered(run: seq<Sys>, steps: seq<Step>, t: nat, u: nat, c: nat)
    requires Run(run, steps) && t < u < |steps| && c < NPROC && steps[t].TurnsZombie? && steps[t].p == c
    requires (forall k | t < k <= u :: run[k].proc[c].st.ZOMBIE?) && !run[u + 1].proc[c].st.ZOMBIE?
    ensures steps[u].Scans? && run[u].proc[c].parent == Some(steps[u].p) && run[u + 1].proc[c] == NOPROC
    ensures run[u + 1].proc[steps[u].p].got == Some((c, steps[t].status))
  {
    hide Inv;
    ZombieStays(run, steps, t, u, c);
    RunKeeps(run, steps, u);
    assert Next(run[u], run[u + 1], steps[u]);
    ZombieStep(run[u], run[u + 1], steps[u], c);
  }

  /** A kill marks the process, ends its sleep, and holds until the slot is freed. */
  lemma KillSticks(run: seq<Sys>, steps: seq<Step>, i: nat, c: nat)
    requires Run(run, steps) && i < |steps| && c < NPROC
    ensures steps[i] == Kill(c) ==> run[i + 1].proc[c].killed && !run[i + 1].proc[c].st.SLEEPING?
    ensures run[i].proc[c].killed ==> run[i + 1].proc[c].killed || run[i + 1].proc[c] == NOPROC
  {
    KillStep(run[i], run[i + 1], steps[i], c);
  }

  lemma KillStep(s: Sys, s': Sys, step: Step, c: nat)
    requires |s.proc| == |s'.proc| == NPROC && Next(s, s', step) && c < NPROC
    ensures step == Kill(c) ==> s'.proc[c].killed && !s'.proc[c].st.SLEEPING?
    ensures s.proc[c].killed ==> s'.proc[c].killed || s'.proc[c] == NOPROC
  {
  }
}
