/** Which inode slot refers to which disk block: the data structure behind bmap and itrunc.

    A file refers to blocks through 12 direct slots, the slot of its indirect block and the 256
    entries of that block. The ghost `owner` names, for every block in use, the one slot that refers
    to it.
 */
module BlockMap {
  import opened Params
  import opened Blocks
  import opened Bitmap

  const NDIRECT := 12
  const NINDIRECT := WORDS
  const MAXFILE := NDIRECT + NINDIRECT
  const IPB := BSIZE / 64
  /** Slots 0..11 are direct, slot 12 is the indirect block, slots 13.. are its entries. */
  const SLOTS := NDIRECT + 1 + NINDIRECT

  datatype Super = Super(size: nat, ninodes: nat, inodestart: nat, bmapstart: nat, datastart: nat)

  /** The order of the parts of the disk, as mkfs lays it out. */
  ghost predicate Layout(sb: Super) {
    && 0 < sb.inodestart && sb.inodestart + sb.ninodes / IPB < sb.bmapstart
    && sb.bmapstart + sb.size / BPB < sb.datastart <= sb.size < WORD_LIMIT
  }

  datatype Inode = Inode(kind: nat, major: nat, minor: nat, nlink: nat, size: nat, addrs: seq<nat>)

  datatype Slot = Slot(inum: nat, k: nat)

  datatype Fs = Fs(disk: seq<Block>, inode: seq<Inode>, owner: map<nat, Slot>)

  ghost predicate DataBlock(sb: Super, b: nat) {
    sb.datastart <= b < sb.size
  }

  ghost predicate InodeOk(n: Inode, sb: Super) {
    && n.kind < 0x1_0000 && n.major < 0x1_0000 && n.minor < 0x1_0000 && n.nlink < 0x1_0000
    && n.size <= MAXFILE * BSIZE && |n.addrs| == NDIRECT + 1
    && forall k | 0 <= k <= NDIRECT :: n.addrs[k] == 0 || DataBlock(sb, n.addrs[k])
  }

  ghost predicate Shape(fs: Fs, sb: Super) {
    && Layout(sb) && |fs.disk| == sb.size && |fs.inode| == sb.ninodes
    && forall i | 0 <= i < sb.ninodes :: InodeOk(fs.inode[i], sb)
  }

  ghost predicate SlotIn(sb: Super, s: Slot) {
    s.inum < sb.ninodes && s.k < SLOTS
  }

  /** The block a slot refers to, or 0. */
  ghost function Addr(fs: Fs, sb: Super, s: Slot): nat
    requires Shape(fs, sb) && SlotIn(sb, s)
  {
    var a := fs.inode[s.inum].addrs;
    assert InodeOk(fs.inode[s.inum], sb);
    if s.k <= NDIRECT then a[s.k]
    else if a[NDIRECT] == 0 then 0
    else Word(fs.disk[a[NDIRECT]], s.k - NDIRECT - 1)
  }

  predicate BitAt(disk: seq<Block>, sb: Super, b: nat) {
    sb.bmapstart + b / BPB < |disk| && Bit(disk[sb.bmapstart + b / BPB], b % BPB)
  }

  /** Slots outside `gone` that refer to a block own it. */
  ghost predicate Owned(fs: Fs, sb: Super, gone: set<Slot>)
    requires Shape(fs, sb)
  {
    forall s | SlotIn(sb, s) && s !in gone && Addr(fs, sb, s) != 0 ::
      Addr(fs, sb, s) in fs.owner && fs.owner[Addr(fs, sb, s)] == s
  }

  ghost predicate Owners(fs: Fs, sb: Super, gone: set<Slot>)
    requires Shape(fs, sb)
  {
    forall b | b in fs.owner ::
      DataBlock(sb, b) && SlotIn(sb, fs.owner[b]) && fs.owner[b] !in gone && Addr(fs, sb, fs.owner[b]) == b
  }

  /** The bits that are set are those of the blocks in use. */
  ghost predicate BitsOk(disk: seq<Block>, sb: Super, used: set<nat>)
    requires Layout(sb) && |disk| == sb.size
  {
    forall b | 0 <= b < sb.size :: BitAt(disk, sb, b) <==> b < sb.datastart || b in used
  }

  /** Blocks and slots correspond, but for blocks just allocated (`extra`) and slots whose block was
      just freed (`gone`). */
  ghost predicate Tied(fs: Fs, sb: Super, extra: set<nat>, gone: set<Slot>) {
    && Shape(fs, sb) && Owned(fs, sb, gone) && Owners(fs, sb, gone)
    && BitsOk(fs.disk, sb, fs.owner.Keys + extra)
    && extra !! fs.owner.Keys && forall b | b in extra :: DataBlock(sb, b)
  }

  /** The slot of the bn-th block of a file. */
  function SlotOf(bn: nat): nat {
    if bn < NDIRECT then bn else bn + 1
  }

  /** Nothing a slot refers to changes, except that empty slots may be filled. */
  ghost predicate Grows(fs: Fs, fs': Fs, sb: Super)
    requires Shape(fs, sb) && Shape(fs', sb)
  {
    && (forall s | SlotIn(sb, s) && Addr(fs, sb, s) != 0 :: Addr(fs', sb, s) == Addr(fs, sb, s))
    && (forall b | b in fs.owner && fs.owner[b].k != NDIRECT && b < sb.size :: fs'.disk[b] == fs.disk[b])
    && (forall b | b in fs.owner :: b in fs'.owner && fs'.owner[b] == fs.owner[b])
    && (forall b | 0 <= b < sb.bmapstart :: fs'.disk[b] == fs.disk[b])
    && (forall i | 0 <= i < sb.ninodes :: fs'.inode[i] == fs.inode[i].(addrs := fs'.inode[i].addrs))
  }

  /** Each block belongs to at most one slot, and its bit is set exactly when some slot refers to it. */
  lemma BlockOwnership(fs: Fs, sb: Super, b: nat, s: Slot, t: Slot)
    requires Tied(fs, sb, {}, {}) && SlotIn(sb, s) && SlotIn(sb, t) && DataBlock(sb, b)
    ensures Addr(fs, sb, s) == b && Addr(fs, sb, t) == b ==> s == t
    ensures BitAt(fs.disk, sb, b) <==> exists u :: SlotIn(sb, u) && Addr(fs, sb, u) == b
  {
    hide Addr, Shape, BitAt;
    ShapeParts(fs, sb);
    if BitAt(fs.disk, sb, b) {
      var u := OwnerOf(fs, sb, b);
    }
  }

  lemma OwnerOf(fs: Fs, sb: Super, b: nat) returns (s: Slot)
    requires Tied(fs, sb, {}, {}) && Shape(fs, sb) && DataBlock(sb, b) && BitAt(fs.disk, sb, b)
    ensures SlotIn(sb, s) && Addr(fs, sb, s) == b
  {
    hide Addr, Shape, BitAt, Owned;
    s := fs.owner[b];
  }

  lemma BitmapBlock(sb: Super, b: nat)
    requires Layout(sb) && b < sb.size
    ensures sb.bmapstart <= sb.bmapstart + b / BPB < sb.datastart
  {
  }

  /** balloc: a clear bit is set and its block zeroed. */
  ghost function Alloced(fs: Fs, sb: Super, b: nat): Fs
    requires Shape(fs, sb) && b < sb.size && !BitAt(fs.disk, sb, b)
  {
    BitmapBlock(sb, b);
    var bb := sb.bmapstart + b / BPB;
    Fs(fs.disk[bb := SetBit(fs.disk[bb], b % BPB)][b := ZeroBlock()], fs.inode, fs.owner)
  }

  /** The bitmap blocks are apart from the others, and one bit changes. */
  lemma BitsAfter(disk: seq<Block>, disk': seq<Block>, sb: Super, b: nat, blk: Block, used: set<nat>, used': set<nat>)
    requires Layout(sb) && |disk| == |disk'| == sb.size && b < sb.size && BitsOk(disk, sb, used)
    requires forall i | sb.bmapstart <= i < sb.datastart :: disk'[i] == if i == sb.bmapstart + b / BPB then blk else disk[i]
    requires forall j | 0 <= j < BPB && j != b % BPB :: Bit(blk, j) <==> Bit(disk[sb.bmapstart + b / BPB], j)
    requires Bit(blk, b % BPB) <==> b < sb.datastart || b in used'
    requires forall c | c != b :: c in used <==> c in used'
    ensures BitsOk(disk', sb, used')
  {
    forall c | 0 <= c < sb.size ensures BitAt(disk', sb, c) <==> c < sb.datastart || c in used' {
      BitmapBlock(sb, c);
      assert BitAt(disk, sb, c) <==> c < sb.datastart || c in used;
    }
  }

  lemma AllocKeeps(fs: Fs, sb: Super, b: nat, extra: set<nat>)
    requires Tied(fs, sb, extra, {}) && b < sb.size && !BitAt(fs.disk, sb, b)
    ensures DataBlock(sb, b) && b !in fs.owner && b !in extra
    ensures Tied(Alloced(fs, sb, b), sb, extra + {b}, {}) && Grows(fs, Alloced(fs, sb, b), sb)
  {
    hide Addr;
    BitmapBlock(sb, b);
    var fs' := Alloced(fs, sb, b);
    BitsAfter(fs.disk, fs'.disk, sb, b, fs'.disk[sb.bmapstart + b / BPB], fs.owner.Keys + extra, fs.owner.Keys + (extra + {b}));
    SameAddrs(fs, fs', sb, {});
  }

  lemma IndirectOwned(fs: Fs, sb: Super, gone: set<Slot>, i: nat)
    requires Shape(fs, sb) && Owned(fs, sb, gone) && i < sb.ninodes && Slot(i, NDIRECT) !in gone
    ensures |fs.inode[i].addrs| == NDIRECT + 1
    ensures var a := fs.inode[i].addrs[NDIRECT];
      a != 0 ==> a in fs.owner && fs.owner[a] == Slot(i, NDIRECT) && a < |fs.disk|
  {
    assert InodeOk(fs.inode[i], sb);
    assert Addr(fs, sb, Slot(i, NDIRECT)) == fs.inode[i].addrs[NDIRECT];
  }

  lemma SameAddrs(fs: Fs, fs': Fs, sb: Super, gone: set<Slot>)
    requires Shape(fs, sb) && Shape(fs', sb) && fs'.inode == fs.inode && Owned(fs, sb, gone)
    requires forall s | s in gone :: s.k != NDIRECT
    requires forall b | b in fs.owner && fs.owner[b].k == NDIRECT && b < sb.size :: fs'.disk[b] == fs.disk[b]
    ensures forall s | SlotIn(sb, s) :: Addr(fs', sb, s) == Addr(fs, sb, s)
  {
    forall s | SlotIn(sb, s) ensures Addr(fs', sb, s) == Addr(fs, sb, s) {
      IndirectOwned(fs, sb, gone, s.inum);
    }
  }

  /** bmap: an empty slot takes a block that was just allocated. */
  ghost function Linked(fs: Fs, sb: Super, s: Slot, b: nat): Fs
    requires Shape(fs, sb) && SlotIn(sb, s) && |fs.inode[s.inum].addrs| == NDIRECT + 1
    requires s.k > NDIRECT ==> fs.inode[s.inum].addrs[NDIRECT] < |fs.disk|
  {
    var n := fs.inode[s.inum];
    if s.k <= NDIRECT then
      Fs(fs.disk, fs.inode[s.inum := n.(addrs := n.addrs[s.k := b])], fs.owner[b := s])
    else
      var ind := n.addrs[NDIRECT];
      Fs(fs.disk[ind := SetWord(fs.disk[ind], s.k - NDIRECT - 1, b)], fs.inode, fs.owner[b := s])
  }

  lemma LinkedShape(fs: Fs, sb: Super, s: Slot, b: nat)
    requires Shape(fs, sb) && SlotIn(sb, s) && DataBlock(sb, b)
    ensures InodeOk(fs.inode[s.inum], sb) && Shape(Linked(fs, sb, s, b), sb)
  {
    assert InodeOk(fs.inode[s.inum], sb);
    var fs' := Linked(fs, sb, s, b);
    forall i | 0 <= i < sb.ninodes ensures InodeOk(fs'.inode[i], sb) {
      assert InodeOk(fs.inode[i], sb);
    }
  }

  lemma LinkedAddrs(fs: Fs, sb: Super, s: Slot, b: nat, t: Slot)
    requires Shape(fs, sb) && Owned(fs, sb, {}) && SlotIn(sb, s) && SlotIn(sb, t) && DataBlock(sb, b)
    requires InodeOk(fs.inode[s.inum], sb) && Shape(Linked(fs, sb, s, b), sb) && Addr(fs, sb, s) == 0
    requires s.k == NDIRECT ==> fs.disk[b] == ZeroBlock()
    requires s.k > NDIRECT ==> fs.inode[s.inum].addrs[NDIRECT] != 0
    ensures Addr(Linked(fs, sb, s, b), sb, t) == if t == s then b else Addr(fs, sb, t)
  {
    assert InodeOk(fs.inode[t.inum], sb);
    var fs' := Linked(fs, sb, s, b);
    if s.k > NDIRECT {
      IndirectOwned(fs, sb, {}, s.inum);
      IndirectOwned(fs, sb, {}, t.inum);
      if t.k > NDIRECT && fs.inode[t.inum].addrs[NDIRECT] == fs.inode[s.inum].addrs[NDIRECT] {
        WordOfSetWord(fs.disk[fs.inode[s.inum].addrs[NDIRECT]], s.k - NDIRECT - 1, b, t.k - NDIRECT - 1);
      }
    }
  }

  lemma LinkKeeps(fs: Fs, sb: Super, s: Slot, b: nat)
    requires Tied(fs, sb, {b}, {}) && SlotIn(sb, s) && Addr(fs, sb, s) == 0
    requires s.k == NDIRECT ==> fs.disk[b] == ZeroBlock()
    requires s.k > NDIRECT ==> |fs.inode[s.inum].addrs| == NDIRECT + 1 && fs.inode[s.inum].addrs[NDIRECT] != 0
    ensures InodeOk(fs.inode[s.inum], sb)
    ensures Tied(Linked(fs, sb, s, b), sb, {}, {}) && Grows(fs, Linked(fs, sb, s, b), sb)
    ensures Addr(Linked(fs, sb, s, b), sb, s) == b
    ensures forall t | SlotIn(sb, t) && t != s :: Addr(Linked(fs, sb, s, b), sb, t) == Addr(fs, sb, t)
  {
    hide Addr, BitsOk, Linked, Shape, Owned, Owners, Grows;
    ShapeParts(fs, sb);
    LinkedShape(fs, sb, s, b);
    var fs' := Linked(fs, sb, s, b);
    forall t | SlotIn(sb, t) ensures Addr(fs', sb, t) == if t == s then b else Addr(fs, sb, t) {
      LinkedAddrs(fs, sb, s, b, t);
    }
    LinkedParts(fs, sb, s, b);
    LinkedGrows(fs, sb, s, b);
    LinkedTied(fs, fs', sb, s, b);
    SameBits(fs.disk, fs'.disk, sb, fs.owner.Keys + {b}, fs'.owner.Keys + {});
  }

  lemma LinkedTied(fs: Fs, fs': Fs, sb: Super, s: Slot, b: nat)
    requires Shape(fs, sb) && Shape(fs', sb) && Owned(fs, sb, {}) && Owners(fs, sb, {}) && SlotIn(sb, s) && DataBlock(sb, b)
    requires b !in fs.owner && fs'.owner == fs.owner[b := s] && Addr(fs, sb, s) == 0
    requires forall t | SlotIn(sb, t) :: Addr(fs', sb, t) == if t == s then b else Addr(fs, sb, t)
    ensures Owned(fs', sb, {}) && Owners(fs', sb, {})
  {
    hide Addr, Shape;
    ShapeParts(fs, sb);
  }

  lemma LinkedParts(fs: Fs, sb: Super, s: Slot, b: nat)
    requires Shape(fs, sb) && SlotIn(sb, s) && InodeOk(fs.inode[s.inum], sb)
    requires s.k > NDIRECT ==> fs.inode[s.inum].addrs[NDIRECT] != 0
    ensures Linked(fs, sb, s, b).owner == fs.owner[b := s] && |Linked(fs, sb, s, b).disk| == |fs.disk|
    ensures forall c | 0 <= c < sb.datastart :: Linked(fs, sb, s, b).disk[c] == fs.disk[c]
    ensures forall i | 0 <= i < sb.ninodes ::
      Linked(fs, sb, s, b).inode[i] == fs.inode[i].(addrs := Linked(fs, sb, s, b).inode[i].addrs)
  {
    hide Shape, SetWord;
    ShapeParts(fs, sb);
  }

  lemma LinkedGrows(fs: Fs, sb: Super, s: Slot, b: nat)
    requires Shape(fs, sb) && Owned(fs, sb, {}) && SlotIn(sb, s) && b !in fs.owner && Addr(fs, sb, s) == 0
    requires InodeOk(fs.inode[s.inum], sb) && Shape(Linked(fs, sb, s, b), sb)
    requires s.k > NDIRECT ==> fs.inode[s.inum].addrs[NDIRECT] != 0
    requires forall t | SlotIn(sb, t) && t != s :: Addr(Linked(fs, sb, s, b), sb, t) == Addr(fs, sb, t)
    ensures Grows(fs, Linked(fs, sb, s, b), sb)
  {
    hide Addr, Shape, Owned, SetWord, InodeOk;
    ShapeParts(fs, sb);
    LinkedParts(fs, sb, s, b);
    IndirectOwned(fs, sb, {}, s.inum);
  }

  lemma ShapeParts(fs: Fs, sb: Super)
    requires Shape(fs, sb)
    ensures Layout(sb) && |fs.disk| == sb.size && |fs.inode| == sb.ninodes
  {
  }

  lemma SameBits(disk: seq<Block>, disk': seq<Block>, sb: Super, used: set<nat>, used': set<nat>)
    requires Layout(sb) && |disk| == |disk'| == sb.size && BitsOk(disk, sb, used) && used' == used
    requires forall i | 0 <= i < sb.datastart :: disk'[i] == disk[i]
    ensures BitsOk(disk', sb, used')
  {
    hide Bit;
    forall c | 0 <= c < sb.size ensures BitAt(disk', sb, c) == BitAt(disk, sb, c) {
      BitmapBlock(sb, c);
    }
  }

  /** bfree: the bit of a block in use is cleared. */
  ghost function Freed(fs: Fs, sb: Super, b: nat): Fs
    requires Shape(fs, sb) && b < sb.size && BitAt(fs.disk, sb, b)
  {
    BitmapBlock(sb, b);
    var bb := sb.bmapstart + b / BPB;
    Fs(fs.disk[bb := ClearBit(fs.disk[bb], b % BPB)], fs.inode, fs.owner - {b})
  }

  /** Only bitmap blocks may differ. */
  ghost predicate SameData(fs: Fs, fs': Fs, sb: Super) {
    && |fs'.disk| == |fs.disk| == sb.size && fs'.inode == fs.inode
    && forall b | 0 <= b < sb.size && (b < sb.bmapstart || sb.datastart <= b) :: fs'.disk[b] == fs.disk[b]
  }

  lemma SameDataAddrs(fs: Fs, fs': Fs, sb: Super)
    requires Shape(fs, sb) && Shape(fs', sb) && SameData(fs, fs', sb)
    ensures forall s | SlotIn(sb, s) :: Addr(fs', sb, s) == Addr(fs, sb, s)
  {
    forall s | SlotIn(sb, s) ensures Addr(fs', sb, s) == Addr(fs, sb, s) {
      assert InodeOk(fs.inode[s.inum], sb);
    }
  }

  /** A block in use can be freed: its bit is set, so "freeing free block" does not happen. */
  lemma InUse(fs: Fs, sb: Super, b: nat, gone: set<Slot>)
    requires Tied(fs, sb, {}, gone) && b in fs.owner
    ensures b < sb.size && BitAt(fs.disk, sb, b)
  {
    hide Addr, Bit;
  }

  lemma FreeKeeps(fs: Fs, fs': Fs, sb: Super, b: nat, gone: set<Slot>)
    requires Tied(fs, sb, {}, gone) && b in fs.owner && b < sb.size && BitAt(fs.disk, sb, b) && fs' == Freed(fs, sb, b)
    ensures Tied(fs', sb, {}, gone + {fs.owner[b]}) && SameData(fs, fs', sb)
  {
    hide Addr, Bit;
    assert fs.owner.Keys + {} == fs.owner.Keys;
    BitmapBlock(sb, b);
    BitsAfter(fs.disk, fs'.disk, sb, b, fs'.disk[sb.bmapstart + b / BPB], fs.owner.Keys, fs'.owner.Keys + {});
    SameDataAddrs(fs, fs', sb);
  }

  /** An entry of the inode is zeroed. */
  ghost function Unset(fs: Fs, sb: Super, s: Slot): Fs
    requires Shape(fs, sb) && SlotIn(sb, s) && s.k <= NDIRECT && |fs.inode[s.inum].addrs| == NDIRECT + 1
  {
    var n := fs.inode[s.inum];
    Fs(fs.disk, fs.inode[s.inum := n.(addrs := n.addrs[s.k := 0])], fs.owner)
  }

  lemma UnsetShape(fs: Fs, sb: Super, s: Slot)
    requires Shape(fs, sb) && SlotIn(sb, s) && s.k <= NDIRECT
    ensures |fs.inode[s.inum].addrs| == NDIRECT + 1 && Shape(Unset(fs, sb, s), sb)
    ensures forall t | SlotIn(sb, t) ::
      Addr(Unset(fs, sb, s), sb, t)
      == if t == s || (s.k == NDIRECT && t.inum == s.inum && t.k > NDIRECT) then 0 else Addr(fs, sb, t)
  {
    assert InodeOk(fs.inode[s.inum], sb);
    var fs' := Unset(fs, sb, s);
    forall i | 0 <= i < sb.ninodes ensures InodeOk(fs'.inode[i], sb) {
      assert InodeOk(fs.inode[i], sb);
    }
  }

  /** Zeroing an entry whose block is freed; for the indirect block, with all its entries freed. */
  lemma UnsetKeeps(fs: Fs, sb: Super, s: Slot, gone: set<Slot>)
    requires Tied(fs, sb, {}, gone) && SlotIn(sb, s) && s.k <= NDIRECT
    requires s in gone || Addr(fs, sb, s) == 0
    requires s.k < NDIRECT ==> gone <= {s}
    requires s.k == NDIRECT ==> forall t | t in gone :: t.inum == s.inum && t.k >= NDIRECT
    requires s.k == NDIRECT ==>
      forall t | SlotIn(sb, t) && t.inum == s.inum && t.k > NDIRECT :: t in gone || Addr(fs, sb, t) == 0
    ensures |fs.inode[s.inum].addrs| == NDIRECT + 1
    ensures Tied(Unset(fs, sb, s), sb, {}, {})
    ensures forall t | SlotIn(sb, t) ::
      Addr(Unset(fs, sb, s), sb, t)
      == if t == s || (s.k == NDIRECT && t.inum == s.inum && t.k > NDIRECT) then 0 else Addr(fs, sb, t)
  {
    hide Addr, Bit, Shape;
    UnsetShape(fs, sb, s);
    ShapeParts(fs, sb);
  }

  /** The owners once some slots of a file are freed: the first d direct ones, the first e entries of
      the indirect block and, if ind, the indirect block. */
  ghost predicate Dropped(s: Slot, i: nat, d: nat, e: nat, ind: bool) {
    s.inum == i && (s.k < d || NDIRECT < s.k <= NDIRECT + e || (ind && s.k == NDIRECT))
  }

  ghost function OwnersLeft(owner: map<nat, Slot>, i: nat, d: nat, e: nat, ind: bool): map<nat, Slot> {
    map b | b in owner && !Dropped(owner[b], i, d, e, ind) :: owner[b]
  }

  ghost function Entries(i: nat, e: nat): (r: set<Slot>)
    ensures forall s :: s in r <==> s.inum == i && NDIRECT < s.k <= NDIRECT + e
  {
    if e == 0 then {} else Entries(i, e - 1) + {Slot(i, NDIRECT + e)}
  }
}
