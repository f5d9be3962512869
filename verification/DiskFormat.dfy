/** The file system read off the raw bytes of the disk: what struct dinode, the free map and the block
    lists of a file look like there, stated without the functions that load and store them. */
module DiskFormat {
  import opened Params
  import opened Collections
  import opened Blocks
  import opened Bitmap
  import opened BlockMap
  import opened FileContents
  import opened Inodes
  import opened Recovery

  function Le16(b: Block, at: nat): nat
    requires at + 2 <= BSIZE
  {
    var b0: int, b1: int := b[at], b[at + 1];
    b0 + 0x100 * b1
  }

  function Le32(b: Block, at: nat): nat
    requires at + 4 <= BSIZE
  {
    Le16(b, at) + 0x1_0000 * Le16(b, at + 2)
  }

  /** The inode that the 64 bytes at an offset stand for. */
  ghost predicate Dinode(b: Block, at: nat, n: Inode) {
    && at + 64 <= BSIZE && |n.addrs| == 13
    && n.kind == Le16(b, at) && n.major == Le16(b, at + 2) && n.minor == Le16(b, at + 4) && n.nlink == Le16(b, at + 6)
    && n.size == Le32(b, at + 8) && forall k | 0 <= k < 13 :: n.addrs[k] == Le32(b, at + 12 + 4 * k)
  }

  lemma WordBytes(b: Block, i: nat)
    requires i < WORDS
    ensures Word(b, i) == Le32(b, 4 * i)
    ensures Word(b, i) % 0x1_0000 == Le16(b, 4 * i) && Word(b, i) / 0x1_0000 == Le16(b, 4 * i + 2)
  {
    var lo, hi := Le16(b, 4 * i), Le16(b, 4 * i + 2);
    assert lo < 0x1_0000 && Word(b, i) == lo + 0x1_0000 * hi;
  }

  lemma DinodeLoads(b: Block, slot: nat)
    requires slot < IPB
    ensures Dinode(b, 64 * slot, LoadInode(b, slot))
  {
    hide Word, Le16;
    var base := slot * INODE_WORDS;
    WordBytes(b, base);
    WordBytes(b, base + 1);
    WordBytes(b, base + 2);
    forall k | 0 <= k < 13 ensures LoadInode(b, slot).addrs[k] == Le32(b, 64 * slot + 12 + 4 * k) {
      WordBytes(b, base + 3 + k);
    }
  }

  /** Every inode that is up to date on the disk lies in the sixteen-to-a-block table, as a dinode. */
  lemma InodeOnDisk(fs: Fs, sb: Super, i: nat)
    requires Shape(fs, sb) && OnDisk(fs, sb, {}) && i < sb.ninodes
    ensures sb.inodestart + i / 16 < |fs.disk| && Dinode(fs.disk[sb.inodestart + i / 16], 64 * (i % 16), fs.inode[i])
  {
    hide LoadInode, Dinode;
    InodeBlockLow(sb, i);
    DinodeLoads(fs.disk[InodeBlock(sb, i)], i % IPB);
  }

  /** The free map gives a block one bit, the lowest bit of a byte first. */
  lemma FreeMapBit(disk: seq<Block>, sb: Super, b: nat)
    requires sb.bmapstart + b / 8192 < |disk|
    ensures var x: nat := disk[sb.bmapstart + b / 8192][b % 8192 / 8];
      BitAt(disk, sb, b) <==> x / [1, 2, 4, 8, 16, 32, 64, 128][b % 8] % 2 == 1
  {
    var x: nat := disk[sb.bmapstart + b / 8192][b % 8192 / 8];
    ByteBit(x, b % 8);
    assert b % 8192 % 8 == b % 8;
  }

  lemma {:induction false} ByteBit(x: nat, k: nat)
    requires k < 8
    ensures BitOf(x, k) <==> x / [1, 2, 4, 8, 16, 32, 64, 128][k] % 2 == 1
    decreases k
  {
    if k > 0 {
      ByteBit(x / 2, k - 1);
      Halved(x, [1, 2, 4, 8, 16, 32, 64][k - 1]);
    }
  }

  lemma Halved(x: nat, m: nat)
    requires m > 0
    ensures x / 2 / m == x / (2 * m)
  {
    var q := x / 2 / m;
    assert x / 2 == q * m + x / 2 % m;
    assert 2 * m * q <= x < 2 * m * q + 2 * m;
    DivUnique(x, 2 * m, q);
  }

  lemma DivUnique(x: nat, m: nat, q: nat)
    requires m > 0 && m * q <= x < m * q + m
    ensures x / m == q
  {
    var p := x / m;
    assert m * p <= x < m * p + m;
    assert p < q ==> m * (p + 1) <= m * q;
    assert q < p ==> m * (q + 1) <= m * p;
  }

  /** The disk block with the bn-th block of file i: one of the first twelve addresses of the inode, or an
      entry of the block that the thirteenth names. */
  ghost function RawBlock(disk: seq<Block>, inodestart: nat, i: nat, bn: nat): nat {
    var at := inodestart + i / 16;
    if at >= |disk| then 0
    else if bn < 12 then Le32(disk[at], 64 * (i % 16) + 12 + 4 * bn)
    else
      var ind := Le32(disk[at], 64 * (i % 16) + 60);
      if 0 < ind < |disk| && bn < 268 then Le32(disk[ind], 4 * (bn - 12)) else 0
  }

  lemma RawBlockIs(fs: Fs, sb: Super, i: nat, bn: nat)
    requires Shape(fs, sb) && OnDisk(fs, sb, {}) && i < sb.ninodes && bn < MAXFILE
    ensures RawBlock(fs.disk, sb.inodestart, i, bn) == Addr(fs, sb, Slot(i, SlotOf(bn)))
  {
    hide Word, LoadInode, Le32, Le16, OnDisk;
    InodeOnDisk(fs, sb, i);
    var n := fs.inode[i];
    assert InodeOk(n, sb);
    assert n.addrs[12] == Le32(fs.disk[sb.inodestart + i / 16], 64 * (i % 16) + 12 + 4 * 12);
    if bn >= 12 && n.addrs[12] != 0 {
      WordBytes(fs.disk[n.addrs[12]], bn - 12);
    }
  }

  /** A file's content is what the raw disk says: as many bytes as the dinode's size, each from the block
      of its place. */
  lemma RawContent(fs: Fs, sb: Super, i: nat, p: nat)
    requires FilesOk(fs, sb) && Shape(fs, sb) && OnDisk(fs, sb, {}) && i < sb.ninodes
    requires fs.inode[i].size <= MAXBYTES && p < |Content(fs, sb, i)|
    ensures sb.inodestart + i / 16 < |fs.disk|
    ensures |Content(fs, sb, i)| == Le32(fs.disk[sb.inodestart + i / 16], 64 * (i % 16) + 8)
    ensures var a := RawBlock(fs.disk, sb.inodestart, i, p / 1024);
      0 < a < |fs.disk| && Content(fs, sb, i)[p] == fs.disk[a][p % 1024]
  {
    hide Tied, Addr, OnDisk, RawBlock, Le32;
    InodeOnDisk(fs, sb, i);
    RawBlockIs(fs, sb, i, p / 1024);
    SlotOfIn(sb, i, p);
    assert Addr(fs, sb, BlockSlot(i, p)) != 0;
    AddrData(fs, sb, BlockSlot(i, p));
  }

  lemma AddrData(fs: Fs, sb: Super, s: Slot)
    requires Tied(fs, sb, {}, {}) && Shape(fs, sb) && SlotIn(sb, s) && Addr(fs, sb, s) != 0
    ensures Addr(fs, sb, s) < |fs.disk|
  {
    hide Addr, BitsOk;
  }

  /** The log header starts with its count, then a block number for each block of the log: the i-th of them
      names the home block whose contents lie i + 1 blocks after the header. */
  lemma LogHeader(d: seq<Block>, start: nat, i: nat)
    requires LogOk(d, start) && i < Le32(d[start], 0)
    ensures i < 30 && Le32(d[start], 4 + 4 * i) < |d| && Logical(d, start, Le32(d[start], 4 + 4 * i)) == d[start + 1 + i]
  {
    hide Word, Le32;
    var lh := HeaderOf(d[start]);
    WordBytes(d[start], 0);
    WordBytes(d[start], 1 + i);
    assert lh[IndexOf(lh, lh[i])] == lh[i];
  }

  /** A block that the header does not name is its own home. */
  lemma NotInHeader(d: seq<Block>, start: nat, bno: nat)
    requires LogOk(d, start) && bno < |d|
    requires Le32(d[start], 0) <= 30 && forall i | 0 <= i < Le32(d[start], 0) :: Le32(d[start], 4 + 4 * i) != bno
    ensures Logical(d, start, bno) == d[bno]
  {
    hide Word, Le32;
    var lh := HeaderOf(d[start]);
    WordBytes(d[start], 0);
    forall i | 0 <= i < |lh| ensures lh[i] == Le32(d[start], 4 + 4 * i) {
      WordBytes(d[start], 1 + i);
    }
  }

  /** The header that a commit writes has that form. */
  lemma LogHeaderWritten(b: Block, lh: seq<nat>, i: nat)
    requires |lh| <= LOGBLOCKS && (forall k | 0 <= k < |lh| :: lh[k] < WORD_LIMIT) && i < |lh|
    ensures Le32(Head(b, lh), 0) == |lh| && Le32(Head(b, lh), 4 + 4 * i) == lh[i]
  {
    hide Word, Le32, Head;
    HeadRoundTrip(b, lh);
    WordBytes(Head(b, lh), 0);
    WordBytes(Head(b, lh), 1 + i);
    assert HeaderOf(Head(b, lh))[i] == lh[i];
  }
}
