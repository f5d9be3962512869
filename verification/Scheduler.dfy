/** The two-pass priority scheduler on one CPU, against an environment that may change the state and
    the priority of any process between two steps of the scheduler.
 */
module Scheduler {
  import opened Params

  /** Above every valid priority number. */
  const NONE := 9999

  /** What the scheduler reads and writes of a process: RUNNABLE or not, the priority number (small is
      urgent), how often it was dispatched. */
  datatype P = P(pid: nat, ready: bool, prio: int, runs: nat)

  /** Where the scheduler is: the first pass looks for the smallest number among the ready, the second
      dispatches the ready ones that have it. */
  datatype Pc = Pass1(i: nat, best: int) | Pass2(i: nat, best: int)

  datatype Cpu = Cpu(proc: seq<P>, pc: Pc)

  /** allocproc and set_priority give out no other numbers. */
  predicate Ranged(proc: seq<P>) {
    forall q | 0 <= q < |proc| :: 0 <= proc[q].prio <= 19
  }

  /** The environment changes states and priorities and lets processes come and go; the count of
      dispatches of a process is the scheduler's alone. */
  ghost predicate Env(proc: seq<P>, proc': seq<P>) {
    |proc| == |proc'| == NPROC && Ranged(proc') && forall q | 0 <= q < NPROC && proc'[q].pid == proc[q].pid :: proc'[q].runs == proc[q].runs
  }

  /** The second pass is at a ready process that has the best priority. */
  predicate Dispatches(s: Cpu)
    requires |s.proc| == NPROC
  {
    s.pc.Pass2? && s.pc.i < NPROC && s.proc[s.pc.i].ready && s.proc[s.pc.i].prio == s.pc.best
  }

  /** One scheduler step: one slot's turn in a pass, or the turn from one pass to the next. */
  ghost predicate Next(s: Cpu, s': Cpu)
    requires |s.proc| == NPROC
  {
    match s.pc
    case Pass1(i, best) =>
      && Env(s.proc, s'.proc)
      && s'.pc == if i >= NPROC then Pass2(0, best)
                  else Pass1(i + 1, if s.proc[i].ready && s.proc[i].prio < best then s.proc[i].prio else best)
    case Pass2(i, best) =>
      && Env(if Dispatches(s) then s.proc[i := s.proc[i].(runs := s.proc[i].runs + 1)] else s.proc, s'.proc)
      && s'.pc == if i >= NPROC then Pass1(0, NONE) else Pass2(i + 1, best)
  }

  ghost predicate Run(run: seq<Cpu>) {
    && |run| > 0 && (forall t | 0 <= t < |run| :: |run[t].proc| == NPROC) && Ranged(run[0].proc)
    && forall t | 0 <= t < |run| - 1 :: Next(run[t], run[t + 1])
  }

  /** No round ends from u to t. */
  ghost predicate SameRound(run: seq<Cpu>, u: nat, t: nat) {
    u <= t < |run| && forall k | u <= k < t :: !(run[k].pc.Pass2? && run[k + 1].pc.Pass1?)
  }

  /** The first pass is at a process that is ready with this priority. */
  ghost predicate Sees(s: Cpu, pr: int) {
    s.pc.Pass1? && s.pc.i < |s.proc| == NPROC && s.proc[s.pc.i].ready && s.proc[s.pc.i].prio == pr
  }

  lemma {:induction false} BestBelow(run: seq<Cpu>, u: nat, t: nat, pr: int)
    requires Run(run) && u < t && SameRound(run, u, t) && Sees(run[u], pr)
    ensures run[t].pc.best <= pr
    decreases t
  {
    assert Next(run[t - 1], run[t]);
    if t - 1 > u {
      BestBelow(run, u, t - 1, pr);
    }
  }

  /** A dispatched process's number is no larger than that of any process the first pass of the round found
      ready. */
  lemma DispatchesBest(run: seq<Cpu>, u: nat, t: nat)
    requires Run(run) && u < t && SameRound(run, u, t) && Dispatches(run[t])
    requires run[u].pc.Pass1? && run[u].pc.i < NPROC && run[u].proc[run[u].pc.i].ready
    ensures run[t].proc[run[t].pc.i].prio <= run[u].proc[run[u].pc.i].prio
  {
    BestBelow(run, u, t, run[u].proc[run[u].pc.i].prio);
  }

  ghost predicate SeenBefore(run: seq<Cpu>, t: nat, pr: int) {
    exists u :: 0 <= u < t && SameRound(run, u, t) && Sees(run[u], pr)
  }

  lemma BestStep(s: Cpu, s': Cpu)
    requires |s.proc| == NPROC && Next(s, s')
    ensures
      || s'.pc.best == NONE
      || (s'.pc.best == s.pc.best && !(s.pc.Pass2? && s'.pc.Pass1?))
      || (s.pc.Pass1? && Sees(s, s'.pc.best))
  {
  }

  lemma SeenLater(run: seq<Cpu>, t: nat, pr: int)
    requires t + 1 < |run| && SeenBefore(run, t, pr) && !(run[t].pc.Pass2? && run[t + 1].pc.Pass1?)
    ensures SeenBefore(run, t + 1, pr)
  {
    var u :| 0 <= u < t && SameRound(run, u, t) && Sees(run[u], pr);
    assert SameRound(run, u, t + 1);
  }

  lemma {:induction false} BestSeen(run: seq<Cpu>, t: nat)
    requires Run(run) && run[0].pc == Pass1(0, NONE) && t < |run|
    ensures run[t].pc.best == NONE || SeenBefore(run, t, run[t].pc.best)
  {
    hide Next, SeenBefore, Sees, SameRound;
    if t > 0 && run[t].pc.best != NONE {
      BestSeen(run, t - 1);
      BestStep(run[t - 1], run[t]);
      if run[t].pc.best == run[t - 1].pc.best && !(run[t - 1].pc.Pass2? && run[t].pc.Pass1?) {
        SeenLater(run, t - 1, run[t].pc.best);
      } else {
        SeenNow(run, t, run[t].pc.best);
      }
    }
  }

  lemma SeenNow(run: seq<Cpu>, t: nat, pr: int)
    requires 0 < t < |run| && Sees(run[t - 1], pr)
    ensures SeenBefore(run, t, pr)
  {
    assert SameRound(run, t - 1, t);
  }

  /** A dispatched process's number was found in the first pass of its round. */
  lemma DispatchesSeen(run: seq<Cpu>, t: nat)
    requires Run(run) && run[0].pc == Pass1(0, NONE) && t < |run| && Dispatches(run[t])
    ensures exists u :: 0 <= u < t && SameRound(run, u, t) && Sees(run[u], run[t].proc[run[t].pc.i].prio)
  {
    BestSeen(run, t);
    RunRanged(run, t);
  }

  lemma {:induction false} RunRanged(run: seq<Cpu>, t: nat)
    requires Run(run) && t < |run|
    ensures Ranged(run[t].proc)
  {
    if t > 0 {
      assert Next(run[t - 1], run[t]);
    }
  }

  /** One process in the slot, ready throughout, with one priority. */
  ghost predicate Steady(run: seq<Cpu>, p: nat, pr: int) {
    && p < NPROC && |run| > 0 && |run[0].proc| == NPROC
    && forall t | 0 <= t < |run| && |run[t].proc| == NPROC ::
         run[t].proc[p].ready && run[t].proc[p].prio == pr && run[t].proc[p].pid == run[0].proc[p].pid
  }

  /** 1 if the second pass with this priority is past the slot. */
  function Done(s: Cpu, p: nat, pr: int): int {
    if s.pc.Pass2? && s.pc.best == pr && s.pc.i > p then 1 else 0
  }

  /** Per step, dispatches of a steady process are accounted for by Done, up to the rounds in which the
      second pass has this priority. */
  ghost function Rounds(s: Cpu, s': Cpu, pr: int): int {
    if s.pc.Pass2? && s.pc.best == pr && s'.pc.Pass1? then 1 else 0
  }

  lemma StepCounts(s: Cpu, s': Cpu, p: nat, pr: int)
    requires |s.proc| == NPROC == |s'.proc| && Next(s, s') && p < NPROC && s.pc.i <= NPROC
    requires s.proc[p].ready && s.proc[p].prio == pr && s'.proc[p].pid == s.proc[p].pid
    ensures s'.proc[p].runs - Done(s', p, pr) == s.proc[p].runs - Done(s, p, pr) + Rounds(s, s', pr)
    ensures s'.pc.i <= NPROC
  {
  }

  lemma {:induction false} CountsAgree(run: seq<Cpu>, a: nat, b: nat, pr: int, t: nat)
    requires Run(run) && run[0].pc.i <= NPROC && Steady(run, a, pr) && Steady(run, b, pr) && t < |run|
    ensures run[t].pc.i <= NPROC
    ensures (run[t].proc[a].runs - Done(run[t], a, pr)) - (run[t].proc[b].runs - Done(run[t], b, pr))
         == (run[0].proc[a].runs - Done(run[0], a, pr)) - (run[0].proc[b].runs - Done(run[0], b, pr))
  {
    if t > 0 {
      CountsAgree(run, a, b, pr, t - 1);
      StepCounts(run[t - 1], run[t], a, pr);
      StepCounts(run[t - 1], run[t], b, pr);
    }
  }

  /** Fairness: two processes that are always ready with the same priority are dispatched equally
      often, up to one, over any stretch of a run. */
  lemma {:induction false} EqualShares(run: seq<Cpu>, a: nat, b: nat, pr: int, t: nat, u: nat)
    requires Run(run) && run[0].pc.i <= NPROC && Steady(run, a, pr) && Steady(run, b, pr) && t <= u < |run|
    ensures -1 <= (run[u].proc[a].runs - run[t].proc[a].runs) - (run[u].proc[b].runs - run[t].proc[b].runs) <= 1
  {
    CountsAgree(run, a, b, pr, t);
    CountsAgree(run, a, b, pr, u);
  }

  /** Ready throughout with one priority, and no other ready process has a smaller number, or, unless `ties`,
      the same one. */
  ghost predicate Urgent(run: seq<Cpu>, p: nat, pr: int, ties: bool) {
    && Steady(run, p, pr) && pr < NONE
    && forall t, q | 0 <= t < |run| && |run[t].proc| == NPROC && 0 <= q < NPROC && q != p ::
         run[t].proc[q].ready ==> run[t].proc[q].prio > pr || (ties && run[t].proc[q].prio == pr)
  }

  /** The round under way will dispatch p. */
  ghost predicate Coming(s: Cpu, p: nat, pr: int) {
    match s.pc
    case Pass1(i, best) => if i <= p then best >= pr else best == pr
    case Pass2(i, best) => i <= p && best == pr
  }

  /** How many other processes may still be dispatched before p: in the round that dispatches p those with
      its number, and before that the rest of a round that does not. */
  ghost function Budget(s: Cpu, p: nat, pr: int, ties: bool): nat {
    var equals := if ties then p else 0;
    if Coming(s, p, pr) then (if ties && s.pc.Pass2? then p - s.pc.i else equals)
    else if s.pc.Pass1? then NPROC - 1 + equals
    else if s.pc.i >= NPROC then equals
    else if s.pc.i <= p then NPROC - 1 - s.pc.i + equals
    else NPROC - s.pc.i + equals
  }

  /** How many steps until p is dispatched. */
  ghost function Left(s: Cpu, p: nat, pr: int): int {
    match s.pc
    case Pass1(i, _) => if Coming(s, p, pr) then (NPROC - i) + 1 + p else (NPROC - i) + 1 + NPROC + 1 + NPROC + 1 + p
    case Pass2(i, _) => if Coming(s, p, pr) then p - i else (NPROC - i) + 1 + NPROC + 1 + p
  }

  lemma StepToward(s: Cpu, s': Cpu, p: nat, pr: int, ties: bool)
    requires |s.proc| == NPROC == |s'.proc| && Next(s, s') && p < NPROC && s.pc.i <= NPROC && pr < NONE
    requires s.proc[p].ready && s.proc[p].prio == pr
    requires forall q | 0 <= q < NPROC && q != p :: s.proc[q].ready ==> s.proc[q].prio > pr || (ties && s.proc[q].prio == pr)
    requires !(Dispatches(s) && s.pc.i == p)
    ensures s'.pc.i <= NPROC && 0 <= Left(s', p, pr) < Left(s, p, pr)
    ensures Budget(s', p, pr, ties) + (if Dispatches(s) then 1 else 0) <= Budget(s, p, pr, ties)
  {
  }

  /** The number of dispatches in the first t steps. */
  ghost function Count(run: seq<Cpu>, t: nat): nat
    requires Run(run) && t < |run|
  {
    if t == 0 then 0 else Count(run, t - 1) + if Dispatches(run[t - 1]) then 1 else 0
  }

  ghost predicate Waits(run: seq<Cpu>, p: nat) {
    forall t | 0 <= t < |run| - 1 && |run[t].proc| == NPROC :: !(Dispatches(run[t]) && run[t].pc.i == p)
  }

  lemma {:induction false} WaitBounded(run: seq<Cpu>, p: nat, pr: int, ties: bool, t: nat)
    requires Run(run) && run[0].pc.i <= NPROC && Urgent(run, p, pr, ties) && Waits(run, p) && t < |run|
    ensures run[t].pc.i <= NPROC && Left(run[t], p, pr) <= Left(run[0], p, pr) - t
    ensures 0 < t ==> 0 <= Left(run[t], p, pr)
    ensures Count(run, t) + Budget(run[t], p, pr, ties) <= Budget(run[0], p, pr, ties)
  {
    if t > 0 {
      WaitBounded(run, p, pr, ties, t - 1);
      StepToward(run[t - 1], run[t], p, pr, ties);
    }
  }

  /** No starvation of the most urgent: while a process that stays ready with the best priority is not
      dispatched, the wait ends within four passes, and fewer than NPROC others are dispatched, or fewer
      than twice as many if others may have the same priority. */
  lemma {:induction false} MostUrgentRuns(run: seq<Cpu>, p: nat, pr: int, ties: bool)
    requires Run(run) && run[0].pc.i <= NPROC && Urgent(run, p, pr, ties) && Waits(run, p)
    ensures Count(run, |run| - 1) <= NPROC - 1 + if ties then p else 0
    ensures |run| <= 4 * (NPROC + 1)
  {
    WaitBounded(run, p, pr, ties, |run| - 1);
  }

  class ProcTable {
    var proc: seq<P>

    constructor (proc: seq<P>)
      ensures this.proc == proc
    {
      this.proc := proc;
    }

    /** set_priority: the first slot with the pid gets the priority, if it is in range. */
    method SetPriority(pid: nat, priority: int) returns (r: int)
      requires |proc| == NPROC
      modifies this
      ensures old(Ranged(proc)) ==> Ranged(proc)
      ensures r == 0 <==> 0 <= priority <= 19 && exists q :: 0 <= q < NPROC && old(proc)[q].pid == pid
      ensures r == 0 || (r == -1 && proc == old(proc))
      ensures r == 0 ==> exists q ::
        && 0 <= q < NPROC && old(proc)[q].pid == pid && (forall j | 0 <= j < q :: old(proc)[j].pid != pid)
        && proc == old(proc)[q := old(proc)[q].(prio := priority)]
    {
      if priority < 0 || priority > 19 {
        return -1;
      }
      var p := 0;
      while p < NPROC
        invariant 0 <= p <= NPROC && proc == old(proc)
        invariant forall j | 0 <= j < p :: proc[j].pid != pid
      {
        if proc[p].pid == pid {
          proc := proc[p := proc[p].(prio := priority)];
          return 0;
        }
        p := p + 1;
      }
      return -1;
    }
  }
}
