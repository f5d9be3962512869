/** Whole runs of the virtio disk: driver calls, interrupts and device steps interleaved in any way. */
module VirtioRuns {
  import opened Collections
  import opened Virtio
  import opened VirtioDisk

  /** The steps, each a region under vdisk_lock or an action of the device. */
  datatype Step =
    | PostStep(h: nat, d1: nat, d2: nat, buf: nat, blockno: nat, write: bool)
    | RetryStep(desc: seq<Desc>)
    | TakeStep
    | CompleteStep(c: nat)
    | SeeStep
    | FinishStep(f: nat)

  /** A call of virtio_disk_rw holds the buffer, so no other call is under way for it. A call that finds
      too few descriptors may have cleared free ones. */
  ghost predicate Next(s: State, s': State, step: Step) {
    && Sizes(s)
    && match step
       case PostStep(h, d1, d2, buf, blockno, write) =>
         && h < NUM && d1 < NUM && d2 < NUM && h != d1 && h != d2 && d1 != d2
         && s.m.free[h] && s.m.free[d1] && s.m.free[d2] && (forall g | g in s.g.reqs :: s.g.reqs[g].buf != buf)
         && s' == Post(s, h, d1, d2, buf, blockno, write)
       case RetryStep(desc) =>
         && |desc| == NUM && (forall k | 0 <= k < NUM && !s.m.free[k] :: desc[k] == s.m.desc[k])
         && s' == s.(m := s.m.(desc := desc))
       case TakeStep => s.g.availQ != [] && s.g.availQ[0] in s.g.reqs && s' == Take(s)
       case CompleteStep(h) => h in s.dev.working && h in s.g.reqs && h < NUM && s' == Complete(s, h)
       case SeeStep => s.g.usedQ != [] && s.g.usedQ[0] in s.g.reqs && s' == See(s)
       case FinishStep(h) =>
         && h < NUM && h in s.g.reqs && s.g.reqs[h].d1 < NUM && s.g.reqs[h].d2 < NUM && s.g.reqs[h].buf !in s.m.busy
         && s' == Finish(s, h)
  }

  ghost predicate Init(s: State) {
    Inv(s) && s.g.reqs == map[] && s.g.nextId == 0 && s.g.finished == []
  }

  ghost predicate Run(run: seq<State>, steps: seq<Step>) {
    && |run| == |steps| + 1 && Init(run[0])
    && forall t | 0 <= t < |steps| :: Next(run[t], run[t + 1], steps[t])
  }

  lemma NextKeeps(s: State, s': State, step: Step)
    requires Inv(s) && Next(s, s', step)
    ensures Inv(s')
  {
    hide Split, Chains, Rings, Phases, Numbered, Post, Take, Complete, See, Finish;
    match step
    case PostStep(h, d1, d2, buf, blockno, write) => PostKeeps(s, h, d1, d2, buf, blockno, write);
    case RetryStep(desc) => FreeDescKeeps(s, desc);
    case TakeStep => TakeKeeps(s);
    case CompleteStep(h) => CompleteKeeps(s, h);
    case SeeStep => SeeKeeps(s);
    case FinishStep(h) =>
      HeadFacts(s, h);
      FinishKeeps(s, h);
  }

  lemma {:induction false} RunKeeps(run: seq<State>, steps: seq<Step>, t: nat)
    requires Run(run, steps) && t < |run|
    ensures Inv(run[t])
  {
    hide Next, Inv;
    if t > 0 {
      RunKeeps(run, steps, t - 1);
      NextKeeps(run[t - 1], run[t], steps[t - 1]);
    }
  }

  /** Request number n is for this buffer, block and direction, wherever it shows up, and it shows up. */
  ghost predicate Tracks(s: State, n: nat, buf: nat, blockno: nat, write: bool) {
    && (Pending(s, n) || Completed(s, n))
    && (forall h | h in s.g.reqs && s.g.reqs[h].id == n ::
          s.g.reqs[h].buf == buf && s.g.reqs[h].blockno == blockno && s.g.reqs[h].write == write)
    && (forall k | 0 <= k < |s.g.finished| && s.g.finished[k].0 == n :: s.g.finished[k] == (n, buf))
  }

  lemma PostTracks(s: State, s': State, step: Step)
    requires Inv(s) && Next(s, s', step) && step.PostStep?
    ensures Tracks(s', s.g.nextId, step.buf, step.blockno, step.write) && s.g.nextId < s'.g.nextId
  {
    hide Split, Chains, Rings, Phases;
    assert step.h in s'.g.reqs && s'.g.reqs[step.h].id == s.g.nextId;
  }

  ghost predicate SameRequest(r: Req, r': Req) {
    r'.id == r.id && r'.buf == r.buf && r'.blockno == r.blockno && r'.write == r.write
  }

  /** A completion is that of a request in flight. */
  ghost predicate FromFlight(s: State, e: (nat, nat)) {
    exists h :: h in s.g.reqs && s.g.reqs[h].id == e.0 && s.g.reqs[h].buf == e.1
  }

  /** What a step does to the books: requests in flight keep what they are for, new ones get the next
      number, only completed ones leave, and completions are added for requests in flight. */
  ghost predicate Books(s: State, s': State) {
    && s.g.finished <= s'.g.finished && s.g.nextId <= s'.g.nextId
    && (forall g | g in s'.g.reqs :: (g in s.g.reqs && SameRequest(s.g.reqs[g], s'.g.reqs[g])) || s'.g.reqs[g].id == s.g.nextId)
    && (forall g | g in s.g.reqs :: (g in s'.g.reqs && SameRequest(s.g.reqs[g], s'.g.reqs[g])) || Completed(s, s.g.reqs[g].id))
    && (forall k | |s.g.finished| <= k < |s'.g.finished| :: FromFlight(s, s'.g.finished[k]))
  }

  lemma NextBooks(s: State, s': State, step: Step)
    requires Inv(s) && Next(s, s', step)
    ensures Books(s, s')
  {
    hide Split, Chains, Rings, Phases, Numbered, Completed;
    match step
    case PostStep(h, d1, d2, buf, blockno, write) => FreshHead(s, h);
    case SeeStep => SeeKeeps(s);
    case FinishStep(h) =>
      HeadFacts(s, h);
      FinishKeeps(s, h);
    case _ =>
  }

  lemma BooksTrack(s: State, s': State, n: nat, buf: nat, blockno: nat, write: bool)
    requires Numbered(s) && Books(s, s') && Tracks(s, n, buf, blockno, write)
    ensures Tracks(s', n, buf, blockno, write)
  {
    assert n < s.g.nextId;
    if Completed(s, n) {
      assert Completed(s', n);
    } else {
      var h :| h in s.g.reqs && s.g.reqs[h].id == n;
      assert Pending(s', n);
    }
  }

  lemma KeepsNumbers(s: State, s': State)
    requires Inv(s) && Books(s, s')
    ensures Numbered(s) && s.g.nextId <= s'.g.nextId && s.g.finished <= s'.g.finished
  {
  }

  /** Whatever else happens, a posted request stays the one it was posted as. */
  lemma {:induction false} RunTracks(run: seq<State>, steps: seq<Step>, t: nat, u: nat)
    requires Run(run, steps) && t < |steps| && steps[t].PostStep? && t < u < |run|
    ensures Tracks(run[u], run[t].g.nextId, steps[t].buf, steps[t].blockno, steps[t].write)
    ensures run[t].g.nextId < run[u].g.nextId
  {
    hide Next, Inv, Init, Tracks, Books;
    RunKeeps(run, steps, u - 1);
    if u == t + 1 {
      PostTracks(run[t], run[u], steps[t]);
    } else {
      RunTracks(run, steps, t, u - 1);
      NextBooks(run[u - 1], run[u], steps[u - 1]);
      KeepsNumbers(run[u - 1], run[u]);
      BooksTrack(run[u - 1], run[u], run[t].g.nextId, steps[t].buf, steps[t].blockno, steps[t].write);
    }
  }

  lemma {:induction false} RunFinished(run: seq<State>, steps: seq<Step>, t: nat, u: nat)
    requires Run(run, steps) && t <= u < |run|
    ensures run[t].g.finished <= run[u].g.finished
  {
    hide Next, Inv, Init, Books;
    if t < u {
      RunFinished(run, steps, t, u - 1);
      RunKeeps(run, steps, u - 1);
      NextBooks(run[u - 1], run[u], steps[u - 1]);
      KeepsNumbers(run[u - 1], run[u]);
    }
  }

  /** The k-th completion is the one and only completion of request n, and for this buffer. */
  ghost predicate CompletedOnce(s: State, k: nat, n: nat, buf: nat) {
    && k < |s.g.finished| && s.g.finished[k] == (n, buf)
    && forall j | 0 <= j < |s.g.finished| && s.g.finished[j].0 == n :: j == k
  }

  /** A virtio_disk_rw call that posted its request at step t and returned at step u has been completed
      exactly once, against its own buffer, whatever happened before, between and since. */
  lemma ExactlyOnce(run: seq<State>, steps: seq<Step>, t: nat, u: nat, w: nat)
    requires Run(run, steps) && t < u < |steps| && u < w < |run| && steps[t].PostStep? && steps[u].FinishStep?
    requires steps[u].f in run[u].g.reqs && run[u].g.reqs[steps[u].f].id == run[t].g.nextId
    ensures exists k :: CompletedOnce(run[w], k, run[t].g.nextId, steps[t].buf)
  {
    hide Inv, Init, Books, Tracks, Split, Chains, Rings, Phases, Numbered;
    RunKeeps(run, steps, u);
    RunKeeps(run, steps, w);
    RunTracks(run, steps, t, w);
    RunFinished(run, steps, u, w);
    assert Next(run[u], run[u + 1], steps[u]);
    Returned(run[u], steps[u].f);
    OnlyOnce(run[u], run[w], run[t].g.nextId, steps[t].buf, steps[t].blockno, steps[t].write);
  }

  lemma Returned(s: State, h: nat)
    requires Inv(s) && h in s.g.reqs && s.g.reqs[h].buf !in s.m.busy
    ensures Completed(s, s.g.reqs[h].id)
  {
    hide Split, Chains, Rings, Phases, Numbered;
    HeadFacts(s, h);
    FinishKeeps(s, h);
  }

  lemma OnlyOnce(s: State, s': State, n: nat, buf: nat, blockno: nat, write: bool)
    requires Completed(s, n) && s.g.finished <= s'.g.finished && Inv(s') && Tracks(s', n, buf, blockno, write)
    ensures exists k :: CompletedOnce(s', k, n, buf)
  {
    hide Split, Chains, Rings, Phases;
    var k :| 0 <= k < |s.g.finished| && s.g.finished[k].0 == n;
    assert s'.g.finished[k] == s.g.finished[k];
    assert CompletedOnce(s', k, n, buf);
  }
}
