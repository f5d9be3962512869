/** What holds over whole runs of the logging system, crashes and recoveries included. */
module CrashSafety {
  import opened Blocks
  import opened Recovery
  import opened LogRuns

  /** A run: states and the steps between them. */
  ghost predicate Run(im: Image, run: seq<State>, steps: seq<Step>) {
    && |run| == |steps| + 1 && Init(im, run[0])
    && forall i | 0 <= i < |steps| :: Next(im, run[i], run[i + 1], steps[i])
  }

  lemma InitInv(im: Image, s: State)
    requires Init(im, s)
    ensures Inv(im, s) && Whole(s)
  {
  }

  lemma {:induction false} RunInv(im: Image, run: seq<State>, steps: seq<Step>, i: nat)
    requires Run(im, run, steps) && i < |run|
    ensures Inv(im, run[i]) && Whole(run[i])
  {
    hide Init, Next, Inv, Whole;
    if i == 0 {
      InitInv(im, run[0]);
    } else {
      RunInv(im, run, steps, i - 1);
      NextKeepsInv(im, run[i - 1], run[i], steps[i - 1]);
      NextWhole(im, run[i - 1], run[i], steps[i - 1]);
    }
  }

  lemma {:induction false} RunKeepsGroups(im: Image, run: seq<State>, steps: seq<Step>, i: nat, j: nat)
    requires Run(im, run, steps) && i <= j < |run|
    ensures run[i].groups <= run[j].groups
  {
    hide Init, Next;
    if i < j {
      RunKeepsGroups(im, run, steps, i, j - 1);
      NextKeepsGroups(im, run[j - 1], run[j], steps[j - 1]);
    }
  }

  /** Crash atomicity. Wherever the machine stopped, and however often, once recovery has returned
      the home blocks are the state after a whole number of committed groups. Every group that was
      committed at an earlier point of the run is among them, and every operation is wholly inside
      one of them or has no effect at all. */
  lemma CrashAtomicity(im: Image, run: seq<State>, steps: seq<Step>, i: nat, j: nat)
    requires Run(im, run, steps) && 0 < i <= j < |run| && steps[j - 1].RecoverReturn?
    ensures SameHome(run[j].disk, ReplayGroups(im.home, run[j].groups), im.start)
    ensures run[i].groups <= run[j].groups
    ensures forall k, op | 0 <= k < |run[j].groups| && Touches(run[j].groups[k], op) ::
              OpEvents(run[j].groups[k], op) == OpEvents(run[j].issued, op)
  {
    hide Init, OpEvents, Touches, Replay, ReplayGroups, SameHome, StandsFor;
    RunInv(im, run, steps, j);
    RunKeepsGroups(im, run, steps, i, j);
    assert Next(im, run[j - 1], run[j], steps[j - 1]);
  }

  /** The group of an end_op that has returned is committed, and the home blocks hold it. */
  lemma ReturnedIsCommitted(im: Image, run: seq<State>, steps: seq<Step>, j: nat)
    requires Run(im, run, steps) && 0 < j < |run| && steps[j - 1].CommitReturn?
    ensures run[j].cur == []
    ensures SameHome(run[j].disk, ReplayGroups(im.home, run[j].groups), im.start)
  {
    hide Init, Replay, ReplayGroups, StandsFor;
    RunInv(im, run, steps, j);
    assert Next(im, run[j - 1], run[j], steps[j - 1]);
  }

  /** The last end_op of a group starts its commit at step i, and the commit returns at step j. */
  ghost predicate Commits(run: seq<State>, steps: seq<Step>, i: nat, j: nat) {
    && |run| == |steps| + 1 && 0 < i < j <= |steps|
    && steps[i - 1].End? && run[i].mode.Committing? && steps[j - 1].CommitReturn?
    && forall t | i <= t < j - 1 :: steps[t].CommitWriteStep?
  }

  lemma {:induction false} GroupSoFar(im: Image, run: seq<State>, steps: seq<Step>, i: nat, j: nat, t: nat)
    requires Run(im, run, steps) && Commits(run, steps, i, j) && i <= t < j && run[t].mode.Committing?
    ensures run[t].mode.clh == run[i].mode.clh
    ensures if run[t].mode.done <= |run[t].mode.clh| then run[t].groups == run[i].groups && run[t].cur == run[i].cur
            else run[t].groups == run[i].groups + [run[i].cur]
  {
    hide Init, CommitWrite, LogList, LogFits;
    if t == i {
      assert Next(im, run[i - 1], run[i], steps[i - 1]);
    } else {
      assert Next(im, run[t - 1], run[t], steps[t - 1]) && steps[t - 1].CommitWriteStep?;
      GroupSoFar(im, run, steps, i, j, t - 1);
    }
  }

  /** A group whose committing end_op returned is never lost: from then on, in every state of the run,
      crashes and recoveries included, it is among the committed groups the disk stands for. */
  lemma CommittedForever(im: Image, run: seq<State>, steps: seq<Step>, i: nat, j: nat, u: nat)
    requires Run(im, run, steps) && Commits(run, steps, i, j) && j <= u < |run| && run[i].cur != []
    ensures |run[i].groups| < |run[u].groups| && run[u].groups[|run[i].groups|] == run[i].cur
    ensures StandsFor(run[u].disk, im.start, ReplayGroups(im.home, run[u].groups))
  {
    hide Init, Replay, ReplayGroups, StandsFor, Whole, LogList, LogFits, CommitWrite;
    assert Next(im, run[j - 1], run[j], steps[j - 1]);
    GroupSoFar(im, run, steps, i, j, j - 1);
    RunInv(im, run, steps, i);
    RunInv(im, run, steps, u);
    RunKeepsGroups(im, run, steps, j, u);
  }
}
