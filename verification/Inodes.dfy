/** Inodes as they lie on the disk: 64 bytes each, sixteen to a block, as little-endian words. */
module Inodes {
  import opened Blocks
  import opened BlockMap

  const INODE_WORDS := 64 / 4

  /** The words of a struct dinode: two pairs of 16-bit fields, the size, and the 13 addresses. */
  function Words(n: Inode): (r: seq<nat>)
    requires |n.addrs| == NDIRECT + 1
    ensures |r| == INODE_WORDS
  {
    [n.kind + 0x1_0000 * n.major, n.minor + 0x1_0000 * n.nlink, n.size] + n.addrs
  }

  /** Store words one after the other. */
  function StoreWords(b: Block, base: nat, ws: seq<nat>): Block
    requires base + |ws| <= WORDS
    decreases |ws|
  {
    if ws == [] then b
    else SetWord(StoreWords(b, base, ws[..|ws| - 1]), base + |ws| - 1, ws[|ws| - 1])
  }

  lemma {:induction false} WordOfStoreWords(b: Block, base: nat, ws: seq<nat>, j: nat)
    requires base + |ws| <= WORDS && j < WORDS && forall k | 0 <= k < |ws| :: ws[k] < WORD_LIMIT
    ensures Word(StoreWords(b, base, ws), j) == if base <= j < base + |ws| then ws[j - base] else Word(b, j)
    decreases |ws|
  {
    if ws != [] {
      var ws1 := ws[..|ws| - 1];
      WordOfStoreWords(b, base, ws1, j);
      WordOfSetWord(StoreWords(b, base, ws1), base + |ws| - 1, ws[|ws| - 1], j);
    }
  }

  function StoreInode(b: Block, slot: nat, n: Inode): Block
    requires slot < IPB && |n.addrs| == NDIRECT + 1
  {
    StoreWords(b, slot * INODE_WORDS, Words(n))
  }

  function LoadInode(b: Block, slot: nat): (n: Inode)
    requires slot < IPB
    ensures |n.addrs| == NDIRECT + 1
  {
    var base := slot * INODE_WORDS;
    var w0, w1 := Word(b, base), Word(b, base + 1);
    Inode(w0 % 0x1_0000, w0 / 0x1_0000, w1 % 0x1_0000, w1 / 0x1_0000, Word(b, base + 2),
          seq<nat>(NDIRECT + 1, k requires 0 <= k <= NDIRECT => Word(b, base + 3 + k)))
  }

  lemma StoredWord(b: Block, slot: nat, n: Inode, t: nat, sb: Super, k: nat)
    requires slot < IPB && t < IPB && Layout(sb) && InodeOk(n, sb) && k < INODE_WORDS
    ensures Word(StoreInode(b, slot, n), t * INODE_WORDS + k)
         == if t == slot then Words(n)[k] else Word(b, t * INODE_WORDS + k)
  {
    hide Word, StoreWords, Words, Layout, InodeOk;
    WordsSmall(n, sb);
    Apart(slot, t, k);
    WordOfStoreWords(b, slot * INODE_WORDS, Words(n), t * INODE_WORDS + k);
  }

  lemma WordsSmall(n: Inode, sb: Super)
    requires Layout(sb) && InodeOk(n, sb)
    ensures |n.addrs| == NDIRECT + 1 && forall j | 0 <= j < INODE_WORDS :: Words(n)[j] < WORD_LIMIT
  {
    forall j | 0 <= j < INODE_WORDS ensures Words(n)[j] < WORD_LIMIT {
      if j >= 3 {
        assert Words(n)[j] == n.addrs[j - 3];
      }
    }
  }

  /** The words of different inodes of a block lie apart. */
  lemma Apart(slot: nat, t: nat, k: nat)
    requires slot < IPB && t < IPB && k < INODE_WORDS
    ensures slot * INODE_WORDS + INODE_WORDS <= WORDS && t * INODE_WORDS + k < WORDS
    ensures slot * INODE_WORDS <= t * INODE_WORDS + k < slot * INODE_WORDS + INODE_WORDS <==> t == slot
  {
  }

  /** What iupdate stores, ilock loads; the other inodes of the block stay. */
  lemma InodeRoundTrip(b: Block, slot: nat, n: Inode, t: nat, sb: Super)
    requires slot < IPB && t < IPB && Layout(sb) && InodeOk(n, sb)
    ensures LoadInode(StoreInode(b, slot, n), t) == if t == slot then n else LoadInode(b, t)
  {
    hide Word, StoreInode;
    var b' := StoreInode(b, slot, n);
    StoredWord(b, slot, n, t, sb, 0);
    StoredWord(b, slot, n, t, sb, 1);
    StoredWord(b, slot, n, t, sb, 2);
    forall k | 0 <= k <= NDIRECT ensures LoadInode(b', t).addrs[k] == if t == slot then n.addrs[k] else LoadInode(b, t).addrs[k] {
      StoredWord(b, slot, n, t, sb, 3 + k);
    }
  }

  /** The block of an inode, IBLOCK in the source. */
  function InodeBlock(sb: Super, i: nat): nat {
    sb.inodestart + i / IPB
  }

  /** Every inode but those in `dirty` is on the disk as it is in memory. */
  ghost predicate OnDisk(fs: Fs, sb: Super, dirty: set<nat>)
    requires Shape(fs, sb)
  {
    forall i | 0 <= i < sb.ninodes && i !in dirty ::
      InodeBlock(sb, i) < |fs.disk| && LoadInode(fs.disk[InodeBlock(sb, i)], i % IPB) == fs.inode[i]
  }

  lemma InodeBlockLow(sb: Super, i: nat)
    requires Layout(sb) && i < sb.ninodes
    ensures 0 < InodeBlock(sb, i) < sb.bmapstart
  {
    PerBlock(i, sb.ninodes);
  }

  lemma InodeBlockIn(sb: Super, i: nat)
    requires Layout(sb) && i < sb.ninodes
    ensures sb.inodestart <= InodeBlock(sb, i) < sb.bmapstart && i % IPB < IPB
  {
    hide Layout;
    InodeBlockLow(sb, i);
  }

  lemma PerBlock(i: nat, j: nat)
    requires i <= j
    ensures i / IPB <= j / IPB
  {
  }

  /** Writing an inode block changes no slot and no bit. */
  lemma LowWriteKeeps(fs: Fs, sb: Super, b: nat, blk: Block)
    requires Tied(fs, sb, {}, {}) && b < sb.bmapstart
    ensures b < |fs.disk| && Tied(Fs(fs.disk[b := blk], fs.inode, fs.owner), sb, {}, {})
    ensures Shape(fs, sb) && forall s | SlotIn(sb, s) ::
      Addr(Fs(fs.disk[b := blk], fs.inode, fs.owner), sb, s) == Addr(fs, sb, s)
  {
    hide Addr, Owned, Owners, BitsOk;
    var fs' := Fs(fs.disk[b := blk], fs.inode, fs.owner);
    ShapeParts(fs, sb);
    LowAddrs(fs, fs', sb);
    LowBits(fs, fs', sb);
    LowOwners(fs, fs', sb);
  }

  lemma LowAddrs(fs: Fs, fs': Fs, sb: Super)
    requires Shape(fs, sb) && Shape(fs', sb) && fs'.inode == fs.inode
    requires forall b | sb.datastart <= b < sb.size :: fs'.disk[b] == fs.disk[b]
    ensures forall s | SlotIn(sb, s) :: Addr(fs', sb, s) == Addr(fs, sb, s)
  {
    forall s | SlotIn(sb, s) ensures Addr(fs', sb, s) == Addr(fs, sb, s) {
      assert InodeOk(fs.inode[s.inum], sb);
    }
  }

  lemma LowBits(fs: Fs, fs': Fs, sb: Super)
    requires Shape(fs, sb) && |fs'.disk| == sb.size && fs'.owner == fs.owner
    requires forall b | sb.bmapstart <= b < sb.datastart :: fs'.disk[b] == fs.disk[b]
    requires BitsOk(fs.disk, sb, fs.owner.Keys + {})
    ensures BitsOk(fs'.disk, sb, fs'.owner.Keys + {})
  {
    hide Bitmap.Bit;
    forall c | 0 <= c < sb.size ensures BitAt(fs'.disk, sb, c) == BitAt(fs.disk, sb, c) {
      BitmapBlock(sb, c);
    }
  }

  lemma LowOwners(fs: Fs, fs': Fs, sb: Super)
    requires Shape(fs, sb) && Shape(fs', sb) && fs'.owner == fs.owner && Owned(fs, sb, {}) && Owners(fs, sb, {})
    requires forall s | SlotIn(sb, s) :: Addr(fs', sb, s) == Addr(fs, sb, s)
    ensures Owned(fs', sb, {}) && Owners(fs', sb, {})
  {
    hide Addr;
  }

  /** iupdate: one inode goes to the disk. */
  lemma StoreKeepsOthers(fs: Fs, sb: Super, i: nat)
    requires Shape(fs, sb) && OnDisk(fs, sb, {i}) && i < sb.ninodes && InodeOk(fs.inode[i], sb)
    requires InodeBlock(sb, i) < |fs.disk|
    requires Shape(Stored(fs, sb, i), sb)
    ensures OnDisk(Stored(fs, sb, i), sb, {})
  {
    hide LoadInode, StoreInode;
    var fs' := Stored(fs, sb, i);
    forall j | 0 <= j < sb.ninodes
      ensures InodeBlock(sb, j) < |fs'.disk| && LoadInode(fs'.disk[InodeBlock(sb, j)], j % IPB) == fs'.inode[j]
    {
      InodeBlockLow(sb, j);
      if InodeBlock(sb, j) == InodeBlock(sb, i) {
        InodeRoundTrip(fs.disk[InodeBlock(sb, i)], i % IPB, fs.inode[i], j % IPB, sb);
      }
    }
  }

  ghost function Stored(fs: Fs, sb: Super, i: nat): Fs
    requires i < |fs.inode| && |fs.inode[i].addrs| == NDIRECT + 1 && InodeBlock(sb, i) < |fs.disk|
  {
    var b := InodeBlock(sb, i);
    Fs(fs.disk[b := StoreInode(fs.disk[b], i % IPB, fs.inode[i])], fs.inode, fs.owner)
  }
}
