/** A transaction of the file layer as an operation of the log: the blocks it logs are home blocks, and
    there are no more of them than the log reserves for an operation. */
module FileTransactions {
  import opened Params
  import opened Collections
  import opened BlockMap
  import opened FileLayer
  import opened Recovery
  import opened RedoLog
  import opened LogRuns
  import opened CrashSafety
  import opened FullLog

  /** The image has its log before its inodes, as mkfs lays it out. */
  ghost predicate LogBeforeInodes(im: Image, sb: Super) {
    im.start + LOGBLOCKS < sb.inodestart && |im.home| == sb.size
  }

  /** The events of one operation on a set of blocks. */
  ghost predicate Events(es: seq<Event>, op: nat, blocks: set<nat>) {
    forall k | 0 <= k < |es| :: es[k].op == op && es[k].bno in blocks
  }

  ghost predicate HomeBlocks(im: Image, blocks: set<nat>) {
    forall b | b in blocks :: b < |im.home| && IsHome(im.start, b)
  }

  /** The operation may still add what of the blocks is not logged yet. */
  ghost predicate Allowed(s: State, op: nat, blocks: set<nat>) {
    s.mode.Running? && op in s.mode.ops && |blocks - Elems(s.mode.lh)| <= s.mode.ops[op]
  }

  /** A panic at the k-th event: the log is full, and the block is in it already. */
  ghost predicate FullAt(im: Image, t: State, es: seq<Event>, k: nat) {
    && k < |es| && Reachable(im, t) && t.mode.Running?
    && |t.mode.lh| == LOGBLOCKS && es[k].bno in t.mode.lh
  }

  lemma OneEvent(im: Image, s: State, op: nat, e: Event, blocks: set<nat>) returns (s': State)
    requires Reachable(im, s) && Allowed(s, op, blocks) && HomeBlocks(im, blocks) && e.op == op && e.bno in blocks
    ensures Reachable(im, s')
    ensures s'.mode.Off? ==> |s.mode.lh| == LOGBLOCKS && e.bno in s.mode.lh
    ensures !s'.mode.Off? ==> Allowed(s', op, blocks) && s'.issued == s.issued + [e] && s'.cur == s.cur + [e]
  {
    hide Reachable, Inv, Whole;
    ReachableInv(im, s);
    LogParts(im, s);
    var left := blocks - Elems(s.mode.lh);
    if e.bno !in s.mode.lh {
      assert e.bno in left;
      assert left - {e.bno} == blocks - Elems(s.mode.lh + [e.bno]);
    }
    s' := if |s.mode.lh| >= LOGBLOCKS then s.(mode := Off, cur := [])
          else s.(mode := Running(s.mode.view[e.bno := e.data], Record(s.mode.lh, e.bno),
                                  if e.bno in s.mode.lh then s.mode.ops else s.mode.ops[e.op := s.mode.ops[e.op] - 1]),
                  issued := s.issued + [e], cur := s.cur + [e]);
    LogWriteRoom(im, s, s', e);
    StepReaches(im, s, s', LogWrite(e));
  }

  /** An operation on blocks it is allowed runs to its end, unless it logs a block again while the log is
      full. */
  lemma {:induction false} OperationRuns(im: Image, s: State, op: nat, es: seq<Event>, blocks: set<nat>)
    returns (s': State, t: State, k: nat)
    requires Reachable(im, s) && Allowed(s, op, blocks) && HomeBlocks(im, blocks) && Events(es, op, blocks)
    ensures Reachable(im, s')
    ensures s'.mode.Off? ==> FullAt(im, t, es, k)
    ensures !s'.mode.Off? ==> s'.mode.Running? && s'.issued == s.issued + es && s'.cur == s.cur + es
    decreases |es|
  {
    hide Reachable;
    s', t, k := s, s, 0;
    if es != [] {
      var s1 := OneEvent(im, s, op, es[0], blocks);
      if s1.mode.Off? {
        s' := s1;
      } else {
        s', t, k := OperationRuns(im, s1, op, es[1..], blocks);
        assert [es[0]] + es[1..] == es;
        k := k + 1;
      }
    }
  }

  /** Every transaction of filewrite, with the blocks it logged in any order and any number of times, is
      an operation that the log admits. */
  lemma ChunkRuns(im: Image, sb: Super, s: State, op: nat, es: seq<Event>, logged: set<nat>)
    returns (s': State, t: State, k: nat)
    requires LogBeforeInodes(im, sb) && PastLog(sb, logged) && |logged| <= MAXOPBLOCKS && Events(es, op, logged)
    requires Reachable(im, s) && s.mode.Running? && op !in s.begun
    requires |s.mode.lh| + (|s.mode.ops| + 1) * MAXOPBLOCKS <= LOGBLOCKS
    ensures Reachable(im, s')
    ensures s'.mode.Off? ==> FullAt(im, t, es, k)
    ensures !s'.mode.Off? ==> s'.mode.Running? && s'.issued == s.issued + es && s'.cur == s.cur + es
  {
    hide Reachable;
    var s1 := s.(mode := s.mode.(ops := s.mode.ops[op := MAXOPBLOCKS]), begun := s.begun + {op});
    StepReaches(im, s, s1, Begin(op));
    SubsetSize(logged - Elems(s.mode.lh), logged);
    s', t, k := OperationRuns(im, s1, op, es, logged);
  }
}
