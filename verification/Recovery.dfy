/** What the block writes of a commit and of a recovery do to a disk, after each prefix.

    `Logical` is the home state a disk stands for: the home blocks with the blocks named
    in the on-disk log header taken from the log instead. One write of a commit changes
    it, the header write, and no write of a recovery does.
 */
module Recovery {
  import opened Params
  import opened Blocks
  import opened Collections
  import opened BufferCache

  /** The log occupies its header block and the LOGBLOCKS blocks after it. */
  predicate IsHome(start: nat, bno: nat) {
    !(start <= bno <= start + LOGBLOCKS)
  }

  /** Where the contents of the i-th logged block go. */
  function LogBlock(start: nat, i: nat): nat {
    start + 1 + i
  }

  ghost predicate LogFits(start: nat, size: nat) {
    start + LOGBLOCKS < size <= WORD_LIMIT
  }

  /** A list of logged block numbers: distinct home blocks that fit in the log. */
  ghost predicate LogList(lh: seq<nat>, start: nat, size: nat) {
    && |lh| <= LOGBLOCKS
    && Distinct(lh)
    && forall i | 0 <= i < |lh| :: lh[i] < size && IsHome(start, lh[i])
  }

  /** A header block after its count and its first k entries have been stored. */
  function PutHead(b: Block, lh: seq<nat>, k: nat): Block
    requires k <= |lh| <= LOGBLOCKS
  {
    if k == 0 then SetWord(b, 0, |lh|) else SetWord(PutHead(b, lh, k - 1), k, lh[k - 1])
  }

  function Head(b: Block, lh: seq<nat>): Block
    requires |lh| <= LOGBLOCKS
  {
    PutHead(b, lh, |lh|)
  }

  /** The block numbers a header block names. */
  function HeaderOf(b: Block): seq<nat>
    requires Word(b, 0) <= LOGBLOCKS
  {
    seq(Word(b, 0), i requires 0 <= i < Word(b, 0) => Word(b, 1 + i))
  }

  lemma {:induction false} PutHeadWords(b: Block, lh: seq<nat>, k: nat, j: nat)
    requires k <= |lh| <= LOGBLOCKS && forall i | 0 <= i < |lh| :: lh[i] < WORD_LIMIT
    requires j <= k
    ensures Word(PutHead(b, lh, k), j) == if j == 0 then |lh| else lh[j - 1]
  {
    if k == 0 {
      WordOfSetWord(b, 0, |lh|, 0);
    } else {
      WordOfSetWord(PutHead(b, lh, k - 1), k, lh[k - 1], j);
      if j < k {
        PutHeadWords(b, lh, k - 1, j);
      }
    }
  }

  /** The header written for a list reads back as that list, whatever was in the block. */
  lemma HeadRoundTrip(b: Block, lh: seq<nat>)
    requires |lh| <= LOGBLOCKS && forall i | 0 <= i < |lh| :: lh[i] < WORD_LIMIT
    ensures Word(Head(b, lh), 0) == |lh| && HeaderOf(Head(b, lh)) == lh
  {
    PutHeadWords(b, lh, |lh|, 0);
    forall i | 0 <= i < |lh| ensures Word(Head(b, lh), 1 + i) == lh[i] {
      PutHeadWords(b, lh, |lh|, 1 + i);
    }
  }

  /** A disk whose log header is one the kernel can recover from. */
  ghost predicate LogOk(d: seq<Block>, start: nat) {
    && LogFits(start, |d|)
    && Word(d[start], 0) <= LOGBLOCKS
    && LogList(HeaderOf(d[start]), start, |d|)
  }

  ghost function IndexOf(lh: seq<nat>, bno: nat): (i: nat)
    requires bno in lh
    ensures i < |lh| && lh[i] == bno
  {
    var i :| 0 <= i < |lh| && lh[i] == bno;
    i
  }

  /** The home contents of a block that the disk stands for. */
  ghost function Logical(d: seq<Block>, start: nat, bno: nat): Block
    requires LogOk(d, start) && bno < |d|
  {
    var lh := HeaderOf(d[start]);
    if bno in lh then d[LogBlock(start, IndexOf(lh, bno))] else d[bno]
  }

  ghost predicate SameHome(d: seq<Block>, e: seq<Block>, start: nat) {
    |d| == |e| && forall bno | 0 <= bno < |d| && IsHome(start, bno) :: d[bno] == e[bno]
  }

  /** The disk stands for the given home state. */
  ghost predicate StandsFor(d: seq<Block>, start: nat, home: seq<Block>) {
    && LogOk(d, start)
    && |home| == |d|
    && forall bno | 0 <= bno < |d| && IsHome(start, bno) :: Logical(d, start, bno) == home[bno]
  }

  ghost predicate InRange(ws: seq<Write>, size: nat) {
    forall i | 0 <= i < |ws| :: ws[i].bno < size
  }

  ghost function Apply(d: seq<Block>, ws: seq<Write>): (r: seq<Block>)
    requires InRange(ws, |d|)
    ensures |r| == |d|
  {
    if ws == [] then d
    else Apply(d, ws[..|ws| - 1])[ws[|ws| - 1].bno := ws[|ws| - 1].data]
  }

  /** k of the writes `ws` have been appended to a history and applied to a map and a disk. */
  ghost predicate Progress(h0: seq<Write>, v0: seq<Block>, d0: seq<Block>, ws: seq<Write>, k: nat,
                           h: seq<Write>, v: seq<Block>, d: seq<Block>) {
    && |v0| == |d0| && InRange(ws, |v0|) && k <= |ws|
    && h == h0 + ws[..k] && v == Apply(v0, ws[..k]) && d == Apply(d0, ws[..k])
  }

  lemma ProgressNext(h0: seq<Write>, v0: seq<Block>, d0: seq<Block>, ws: seq<Write>, k: nat,
                     h: seq<Write>, v: seq<Block>, d: seq<Block>)
    requires Progress(h0, v0, d0, ws, k, h, v, d) && k < |ws|
    ensures Progress(h0, v0, d0, ws, k + 1,
                     h + [ws[k]], v[ws[k].bno := ws[k].data], d[ws[k].bno := ws[k].data])
  {
    ApplyNext(v0, ws, k);
    ApplyNext(d0, ws, k);
    assert ws[..k + 1] == ws[..k] + [ws[k]];
  }

  lemma ProgressMeans(h0: seq<Write>, v0: seq<Block>, d0: seq<Block>, ws: seq<Write>, k: nat,
                      h: seq<Write>, v: seq<Block>, d: seq<Block>)
    requires Progress(h0, v0, d0, ws, k, h, v, d)
    ensures |v0| == |d0| && InRange(ws, |v0|) && k <= |ws|
    ensures h == h0 + ws[..k] && v == Apply(v0, ws[..k]) && d == Apply(d0, ws[..k])
  {
  }

  lemma ProgressZero(h0: seq<Write>, v0: seq<Block>, d0: seq<Block>, ws: seq<Write>)
    requires |v0| == |d0| && InRange(ws, |v0|)
    ensures Progress(h0, v0, d0, ws, 0, h0, v0, d0)
  {
    assert ws[..0] == [];
  }

  lemma ApplyOne(d: seq<Block>, w: Write)
    requires w.bno < |d|
    ensures Apply(d, [w]) == d[w.bno := w.data]
  {
    assert [w][..0] == [];
  }

  /** The k-th block write of a commit of `lh` when the cache holds `view`: the logged blocks
      go to the log, then the header, then the blocks to their homes, then the empty header. */
  ghost function CommitWrite(view: seq<Block>, start: nat, lh: seq<nat>, k: nat): Write
    requires LogFits(start, |view|) && LogList(lh, start, |view|) && k < 2 * |lh| + 2
  {
    if k < |lh| then Write(LogBlock(start, k), view[lh[k]])
    else if k == |lh| then Write(start, Head(view[start], lh))
    else if k <= 2 * |lh| then Write(lh[k - |lh| - 1], view[lh[k - |lh| - 1]])
    else Write(start, Head(Head(view[start], lh), []))
  }

  ghost function CommitWrites(view: seq<Block>, start: nat, lh: seq<nat>): (r: seq<Write>)
    requires LogFits(start, |view|) && LogList(lh, start, |view|)
  {
    seq(if lh == [] then 0 else 2 * |lh| + 2,
        k requires 0 <= k < 2 * |lh| + 2 => CommitWrite(view, start, lh, k))
  }

  /** Copies of the logged blocks into the log, in list order. */
  ghost function LogCopies(view: seq<Block>, start: nat, lh: seq<nat>): (r: seq<Write>)
    requires LogFits(start, |view|) && LogList(lh, start, |view|)
    ensures InRange(r, |view|)
  {
    seq(|lh|, i requires 0 <= i < |lh| => Write(LogBlock(start, i), view[lh[i]]))
  }

  /** Copies of the log's blocks to their home locations, in list order. */
  ghost function Installs(d: seq<Block>, start: nat, lh: seq<nat>): (r: seq<Write>)
    requires LogFits(start, |d|) && LogList(lh, start, |d|)
    ensures InRange(r, |d|)
  {
    seq(|lh|, i requires 0 <= i < |lh| => Write(lh[i], d[LogBlock(start, i)]))
  }

  /** The k-th block write of a recovery, which depends only on the disk it starts from. */
  ghost function RecoveryWrite(d: seq<Block>, start: nat, k: nat): Write
    requires LogOk(d, start) && k <= |HeaderOf(d[start])|
  {
    var lh := HeaderOf(d[start]);
    if k < |lh| then Write(lh[k], d[LogBlock(start, k)]) else Write(start, Head(d[start], []))
  }

  ghost function RecoveryWrites(d: seq<Block>, start: nat): (r: seq<Write>)
    requires LogOk(d, start)
  {
    seq(|HeaderOf(d[start])| + 1,
        k requires 0 <= k <= |HeaderOf(d[start])| => RecoveryWrite(d, start, k))
  }

  ghost predicate DistinctTargets(ws: seq<Write>) {
    forall i, j | 0 <= i < j < |ws| :: ws[i].bno != ws[j].bno
  }

  /** A block after writes to distinct blocks. */
  lemma {:induction false} ApplyAt(d: seq<Block>, ws: seq<Write>, bno: nat)
    requires InRange(ws, |d|) && DistinctTargets(ws) && bno < |d|
    ensures forall i | 0 <= i < |ws| && ws[i].bno == bno :: Apply(d, ws)[bno] == ws[i].data
    ensures (forall i | 0 <= i < |ws| :: ws[i].bno != bno) ==> Apply(d, ws)[bno] == d[bno]
  {
    if ws != [] {
      ApplyAt(d, ws[..|ws| - 1], bno);
    }
  }

  lemma {:induction false} ApplyAppend(d: seq<Block>, a: seq<Write>, b: seq<Write>)
    requires InRange(a, |d|) && InRange(b, |d|)
    ensures InRange(a + b, |d|)
    ensures Apply(d, a + b) == Apply(Apply(d, a), b)
  {
    if b == [] {
      assert a + b == a;
    } else {
      assert (a + b)[..|a + b| - 1] == a + b[..|b| - 1];
      ApplyAppend(d, a, b[..|b| - 1]);
    }
  }

  lemma ApplyFour(d: seq<Block>, a: seq<Write>, x: Write, b: seq<Write>, y: Write)
    requires InRange(a, |d|) && InRange(b, |d|) && x.bno < |d| && y.bno < |d|
    ensures InRange(a + [x] + b + [y], |d|)
    ensures Apply(d, a + [x] + b + [y]) == Apply(Apply(d, a)[x.bno := x.data], b)[y.bno := y.data]
  {
    ApplyAppend(d, a, [x]);
    ApplyAppend(d, a + [x], b);
    ApplyAppend(d, a + [x] + b, [y]);
    ApplyOne(Apply(d, a), x);
    ApplyOne(Apply(d, a + [x] + b), y);
  }

  lemma LogCopiesEffect(v: seq<Block>, start: nat, lh: seq<nat>)
    requires LogFits(start, |v|) && LogList(lh, start, |v|)
    ensures var v1 := Apply(v, LogCopies(v, start, lh));
            v1[start] == v[start] && forall i | 0 <= i < |lh| :: v1[LogBlock(start, i)] == v[lh[i]]
  {
    var ws := LogCopies(v, start, lh);
    ApplyAt(v, ws, start);
    forall i | 0 <= i < |lh| ensures Apply(v, ws)[LogBlock(start, i)] == v[lh[i]] {
      ApplyAt(v, ws, LogBlock(start, i));
      assert ws[i].bno == LogBlock(start, i);
    }
  }

  lemma InstallsEffect(v: seq<Block>, start: nat, lh: seq<nat>)
    requires LogFits(start, |v|) && LogList(lh, start, |v|)
    ensures Apply(v, Installs(v, start, lh))[start] == v[start]
  {
    ApplyAt(v, Installs(v, start, lh), start);
  }

  /** The four steps of commit, as the map looks at each, issue exactly the commit's writes. */
  lemma CommitComposes(v0: seq<Block>, v1: seq<Block>, v2: seq<Block>, v3: seq<Block>, start: nat, lh: seq<nat>)
    requires LogFits(start, |v0|) && LogList(lh, start, |v0|) && lh != []
    requires v1 == Apply(v0, LogCopies(v0, start, lh))
    requires v2 == v1[start := Head(v1[start], lh)]
    requires v3 == Apply(v2, Installs(v2, start, lh))
    ensures CommitWrites(v0, start, lh)
         == LogCopies(v0, start, lh) + [Write(start, v2[start])] + Installs(v2, start, lh)
            + [Write(start, Head(v3[start], []))]
  {
    LogCopiesEffect(v0, start, lh);
    InstallsEffect(v2, start, lh);
    CommitPieces(v0, start, lh, LogCopies(v0, start, lh), Installs(v2, start, lh));
  }

  /** Map and disk, taken through the four steps of commit together, both end as the commit's
      writes leave them. */
  lemma CommitChain(v0: seq<Block>, v1: seq<Block>, v2: seq<Block>, v3: seq<Block>, v4: seq<Block>,
                    d0: seq<Block>, d1: seq<Block>, d2: seq<Block>, d3: seq<Block>, d4: seq<Block>,
                    start: nat, lh: seq<nat>)
    requires LogFits(start, |v0|) && LogList(lh, start, |v0|) && lh != [] && |d0| == |v0|
    requires v1 == Apply(v0, LogCopies(v0, start, lh)) && d1 == Apply(d0, LogCopies(v0, start, lh))
    requires v2 == v1[start := Head(v1[start], lh)] && d2 == d1[start := Head(v1[start], lh)]
    requires v3 == Apply(v2, Installs(v2, start, lh)) && d3 == Apply(d2, Installs(v2, start, lh))
    requires v4 == v3[start := Head(v3[start], [])] && d4 == d3[start := Head(v3[start], [])]
    ensures InRange(CommitWrites(v0, start, lh), |v0|)
    ensures CommitWrites(v0, start, lh)
         == LogCopies(v0, start, lh) + [Write(start, v2[start])] + Installs(v2, start, lh) + [Write(start, v4[start])]
    ensures v4 == Apply(v0, CommitWrites(v0, start, lh)) && d4 == Apply(d0, CommitWrites(v0, start, lh))
  {
    var copies, installs := LogCopies(v0, start, lh), Installs(v2, start, lh);
    CommitComposes(v0, v1, v2, v3, start, lh);
    ApplyFour(v0, copies, Write(start, v2[start]), installs, Write(start, v4[start]));
    ApplyFour(d0, copies, Write(start, v2[start]), installs, Write(start, v4[start]));
  }

  lemma RecoveryChain(v0: seq<Block>, v1: seq<Block>, v2: seq<Block>, d0: seq<Block>, d1: seq<Block>, d2: seq<Block>,
                      start: nat, lh: seq<nat>)
    requires LogOk(v0, start) && lh == HeaderOf(v0[start]) && |d0| == |v0|
    requires v1 == Apply(v0, Installs(v0, start, lh)) && d1 == Apply(d0, Installs(v0, start, lh))
    requires v2 == v1[start := Head(v1[start], [])] && d2 == d1[start := Head(v1[start], [])]
    ensures InRange(RecoveryWrites(v0, start), |v0|)
    ensures RecoveryWrites(v0, start) == Installs(v0, start, lh) + [Write(start, v2[start])]
    ensures v2 == Apply(v0, RecoveryWrites(v0, start)) && d2 == Apply(d0, RecoveryWrites(v0, start))
  {
    InstallsEffect(v0, start, lh);
    var installs, w := Installs(v0, start, lh), Write(start, v2[start]);
    assert RecoveryWrites(v0, start) == installs + [w];
    ApplyAppend(v0, installs, [w]);
    ApplyAppend(d0, installs, [w]);
    ApplyOne(v1, w);
    ApplyOne(d1, w);
  }

  lemma NothingToCommit(d: seq<Block>, view: seq<Block>, start: nat)
    requires LogFits(start, |view|)
    ensures CommitWrites(view, start, []) == [] && Apply(d, []) == d
  {
  }

  lemma CommitPieces(v0: seq<Block>, start: nat, lh: seq<nat>, copies: seq<Write>, installs: seq<Write>)
    requires LogFits(start, |v0|) && LogList(lh, start, |v0|) && lh != []
    requires |copies| == |installs| == |lh|
    requires forall i | 0 <= i < |lh| :: copies[i] == Write(LogBlock(start, i), v0[lh[i]])
    requires forall i | 0 <= i < |lh| :: installs[i] == Write(lh[i], v0[lh[i]])
    ensures CommitWrites(v0, start, lh)
         == copies + [Write(start, Head(v0[start], lh))] + installs + [Write(start, Head(Head(v0[start], lh), []))]
  {
  }

  /** The disk a commit has reached after k of its writes. Before it, the log was empty and
      the home blocks were those of `base`. */
  ghost predicate CommitPhase(d: seq<Block>, base: seq<Block>, view: seq<Block>, start: nat, lh: seq<nat>, k: nat) {
    && LogFits(start, |view|) && LogList(lh, start, |view|) && lh != []
    && |d| == |base| == |view|
    && (forall bno | 0 <= bno < |view| && IsHome(start, bno) && bno !in lh :: d[bno] == base[bno] == view[bno])
    && k <= 2 * |lh| + 2
    && d[start] == (if k <= |lh| then view[start]
                    else if k <= 2 * |lh| + 1 then Head(view[start], lh)
                    else Head(Head(view[start], lh), []))
    && Word(view[start], 0) == 0
    && (forall i | 0 <= i < |lh| && i < k :: d[LogBlock(start, i)] == view[lh[i]])
    && (forall i | 0 <= i < |lh| && i < k - |lh| - 1 :: d[lh[i]] == view[lh[i]])
    && (k <= |lh| ==> forall i | 0 <= i < |lh| :: d[lh[i]] == base[lh[i]])
  }

  /** Each write of a commit takes the disk to its next phase. */
  lemma CommitAdvances(d: seq<Block>, base: seq<Block>, view: seq<Block>, start: nat, lh: seq<nat>, k: nat)
    requires CommitPhase(d, base, view, start, lh, k) && k < 2 * |lh| + 2
    ensures var w := CommitWrite(view, start, lh, k);
            w.bno < |d| && CommitPhase(d[w.bno := w.data], base, view, start, lh, k + 1)
  {
  }

  /** Up to the header write the disk stands for the state before the group; from it on,
      for the state after. */
  lemma CommitPhaseStands(d: seq<Block>, base: seq<Block>, view: seq<Block>, start: nat, lh: seq<nat>, k: nat)
    requires CommitPhase(d, base, view, start, lh, k)
    ensures StandsFor(d, start, if k <= |lh| then base else view)
    ensures k == 2 * |lh| + 2 ==> SameHome(d, view, start) && Word(d[start], 0) == 0
  {
    HeadRoundTrip(view[start], lh);
    HeadRoundTrip(Head(view[start], lh), []);
    if k <= |lh| || k == 2 * |lh| + 2 {
      assert HeaderOf(d[start]) == [];
    }
  }

  lemma CommitInRange(view: seq<Block>, start: nat, lh: seq<nat>)
    requires LogFits(start, |view|) && LogList(lh, start, |view|)
    ensures InRange(CommitWrites(view, start, lh), |view|)
  {
    forall k | 0 <= k < |CommitWrites(view, start, lh)|
      ensures CommitWrites(view, start, lh)[k].bno < |view|
    {
      assert CommitWrites(view, start, lh)[k] == CommitWrite(view, start, lh, k);
    }
  }

  ghost predicate CommitStarts(d: seq<Block>, view: seq<Block>, start: nat, lh: seq<nat>) {
    && LogFits(start, |view|) && LogList(lh, start, |view|) && lh != []
    && |d| == |view| && d[start] == view[start] && Word(d[start], 0) == 0
    && forall bno | 0 <= bno < |view| && IsHome(start, bno) && bno !in lh :: d[bno] == view[bno]
  }

  lemma {:induction false} CommitReaches(d: seq<Block>, view: seq<Block>, start: nat, lh: seq<nat>, k: nat)
    requires CommitStarts(d, view, start, lh)
    requires k <= 2 * |lh| + 2 && InRange(CommitWrites(view, start, lh), |d|)
    ensures CommitPhase(Apply(d, CommitWrites(view, start, lh)[..k]), d, view, start, lh, k)
  {
    hide CommitPhase;
    var ws := CommitWrites(view, start, lh);
    if k == 0 {
      assert ws[..0] == [];
      CommitBegins(d, view, start, lh);
    } else {
      CommitReaches(d, view, start, lh, k - 1);
      var w := CommitWrite(view, start, lh, k - 1);
      assert ws[k - 1] == w;
      ApplyNext(d, ws, k - 1);
      CommitAdvances(Apply(d, ws[..k - 1]), d, view, start, lh, k - 1);
    }
  }

  lemma CommitBegins(d: seq<Block>, view: seq<Block>, start: nat, lh: seq<nat>)
    requires CommitStarts(d, view, start, lh)
    ensures CommitPhase(d, d, view, start, lh, 0)
  {
  }

  lemma ApplyNext(d: seq<Block>, ws: seq<Write>, k: nat)
    requires InRange(ws, |d|) && k < |ws|
    ensures Apply(d, ws[..k + 1]) == Apply(d, ws[..k])[ws[k].bno := ws[k].data]
  {
    assert ws[..k + 1][..k] == ws[..k];
  }

  /** For a crash after any number of the writes of a commit, the disk stands for the state
      before the whole group or after the whole group. */
  lemma CommitCrash(d: seq<Block>, view: seq<Block>, start: nat, lh: seq<nat>, k: nat)
    requires CommitStarts(d, view, start, lh)
    requires k <= |CommitWrites(view, start, lh)|
    ensures InRange(CommitWrites(view, start, lh), |d|)
    ensures StandsFor(Apply(d, CommitWrites(view, start, lh)[..k]), start, if k <= |lh| then d else view)
  {
    CommitInRange(view, start, lh);
    CommitReaches(d, view, start, lh, k);
    CommitPhaseStands(Apply(d, CommitWrites(view, start, lh)[..k]), d, view, start, lh, k);
  }

  /** A disk that k writes of a recovery from `d0` lead to. */
  ghost predicate RecoveryPhase(d: seq<Block>, d0: seq<Block>, start: nat, k: nat) {
    && LogOk(d0, start)
    && |d| == |d0|
    && var lh := HeaderOf(d0[start]);
    && k <= |lh| + 1
    && d[start] == (if k <= |lh| then d0[start] else Head(d0[start], []))
    && (forall i | 0 <= i < |lh| :: d[LogBlock(start, i)] == d0[LogBlock(start, i)])
    && (forall i | 0 <= i < |lh| && i < k :: d[lh[i]] == d0[LogBlock(start, i)])
    && (forall bno | 0 <= bno < |d| && IsHome(start, bno) && bno !in lh :: d[bno] == d0[bno])
  }

  lemma RecoveryAdvances(d: seq<Block>, d0: seq<Block>, start: nat, k: nat)
    requires RecoveryPhase(d, d0, start, k) && k <= |HeaderOf(d0[start])|
    ensures var w := RecoveryWrite(d0, start, k);
            w.bno < |d| && RecoveryPhase(d[w.bno := w.data], d0, start, k + 1)
  {
  }

  /** At no point does a recovery change what the disk stands for, and at its end the home
      blocks are that state and the log is empty. */
  lemma RecoveryPhaseStands(d: seq<Block>, d0: seq<Block>, start: nat, k: nat, home: seq<Block>)
    requires RecoveryPhase(d, d0, start, k) && StandsFor(d0, start, home)
    ensures StandsFor(d, start, home)
    ensures k == |HeaderOf(d0[start])| + 1 ==> SameHome(d, home, start) && Word(d[start], 0) == 0
  {
    HeadRoundTrip(d0[start], []);
    var lh := HeaderOf(d0[start]);
    forall bno | 0 <= bno < |d| && IsHome(start, bno)
      ensures Logical(d0, start, bno) == home[bno]
      ensures k > |lh| ==> d[bno] == home[bno]
    {
    }
    if k > |lh| {
      assert HeaderOf(d[start]) == [];
    }
  }

  lemma RecoveryBegins(d: seq<Block>, start: nat)
    requires LogOk(d, start)
    ensures RecoveryPhase(d, d, start, 0)
  {
  }

  lemma {:induction false} RecoveryCrash(d: seq<Block>, start: nat, k: nat, home: seq<Block>)
    requires StandsFor(d, start, home) && k <= |RecoveryWrites(d, start)|
    ensures InRange(RecoveryWrites(d, start), |d|)
    ensures RecoveryPhase(Apply(d, RecoveryWrites(d, start)[..k]), d, start, k)
    ensures StandsFor(Apply(d, RecoveryWrites(d, start)[..k]), start, home)
  {
    hide RecoveryPhase;
    var ws := RecoveryWrites(d, start);
    if k == 0 {
      RecoveryBegins(d, start);
    } else {
      RecoveryCrash(d, start, k - 1, home);
      ApplyNext(d, ws, k - 1);
      RecoveryAdvances(Apply(d, ws[..k - 1]), d, start, k - 1);
    }
    RecoveryPhaseStands(Apply(d, ws[..k]), d, start, k, home);
  }

  /** The disk after recoveries that crash after the given numbers of writes, one after the
      other, and a last one that completes. */
  ghost function Reboots(d: seq<Block>, start: nat, crashes: seq<nat>): (r: seq<Block>)
    requires LogOk(d, start)
    decreases |crashes|
  {
    var ws := RecoveryWrites(d, start);
    if !InRange(ws, |d|) then d
    else if crashes == [] then Apply(d, ws)
    else
      var d' := Apply(d, if crashes[0] <= |ws| then ws[..crashes[0]] else ws);
      if LogOk(d', start) then Reboots(d', start, crashes[1..]) else d'
  }

  /** However often recovery itself is interrupted, and wherever, finishing it leaves the
      home state the disk stood for, with an empty log. */
  lemma {:induction false} RebootsRecover(d: seq<Block>, start: nat, crashes: seq<nat>, home: seq<Block>)
    requires StandsFor(d, start, home)
    ensures var r := Reboots(d, start, crashes);
            SameHome(r, home, start) && Word(r[start], 0) == 0
    decreases |crashes|
  {
    var ws := RecoveryWrites(d, start);
    var n := if crashes == [] || crashes[0] > |ws| then |ws| else crashes[0];
    assert ws[..|ws|] == ws;
    RecoveryCrash(d, start, n, home);
    RecoveryPhaseStands(Apply(d, ws[..n]), d, start, n, home);
    if crashes != [] {
      RebootsRecover(Apply(d, ws[..n]), start, crashes[1..], home);
    }
  }
}
