/** The bytes of a file, and how growing its block map and writing one of its blocks change them. */
module FileContents {
  import opened Params
  import opened Blocks
  import opened BlockMap

  const MAXBYTES := MAXFILE * BSIZE

  ghost function FileByte(fs: Fs, sb: Super, i: nat, p: nat): byte
    requires Shape(fs, sb) && i < sb.ninodes && p < MAXBYTES
  {
    var a := Addr(fs, sb, BlockSlot(i, p));
    if 0 < a < |fs.disk| then fs.disk[a][p % BSIZE] else 0
  }

  /** The slot for the block that holds a byte. */
  ghost function BlockSlot(i: nat, p: nat): Slot {
    Slot(i, SlotOf(p / BSIZE))
  }

  ghost function Content(fs: Fs, sb: Super, i: nat): (r: seq<byte>)
    requires Shape(fs, sb) && i < sb.ninodes && fs.inode[i].size <= MAXBYTES
    ensures |r| == fs.inode[i].size
    ensures forall p | 0 <= p < |r| :: r[p] == FileByte(fs, sb, i, p)
  {
    seq<byte>(fs.inode[i].size, p requires 0 <= p < fs.inode[i].size => FileByte(fs, sb, i, p))
  }

  /** The blocks that hold the first len bytes are there. */
  ghost predicate Mapped(fs: Fs, sb: Super, i: nat, len: nat)
    requires Shape(fs, sb) && i < sb.ninodes
  {
    forall p | 0 <= p < len && p < MAXBYTES :: Addr(fs, sb, BlockSlot(i, p)) != 0
  }

  /** Blocks and slots correspond and no file has holes. */
  ghost predicate FilesOk(fs: Fs, sb: Super) {
    && Tied(fs, sb, {}, {})
    && forall i | 0 <= i < sb.ninodes :: Mapped(fs, sb, i, fs.inode[i].size)
  }

  /** File i reads like `data` laid over its old bytes at off; its first max(len, off + |data|) bytes
      are there. */
  ghost predicate Overlaid(fs0: Fs, fs: Fs, sb: Super, i: nat, len: nat, off: nat, data: seq<byte>)
    requires Shape(fs0, sb) && Shape(fs, sb) && i < sb.ninodes
  {
    && off + |data| <= MAXBYTES && off <= len <= MAXBYTES
    && Mapped(fs, sb, i, if len < off + |data| then off + |data| else len)
    && forall p | 0 <= p < MAXBYTES && (p < len || p < off + |data|) ::
         FileByte(fs, sb, i, p) == if off <= p < off + |data| then data[p - off] else FileByte(fs0, sb, i, p)
  }

  /** The other files keep their inodes and bytes. */
  ghost predicate OthersSame(fs0: Fs, fs: Fs, sb: Super, i: nat)
    requires Shape(fs0, sb) && Shape(fs, sb)
  {
    && (forall j | 0 <= j < sb.ninodes && j != i :: fs.inode[j] == fs0.inode[j])
    && (forall j, p | 0 <= j < sb.ninodes && j != i && 0 <= p < fs0.inode[j].size && p < MAXBYTES ::
          Addr(fs, sb, BlockSlot(j, p)) != 0 && FileByte(fs, sb, j, p) == FileByte(fs0, sb, j, p))
  }

  lemma SlotOfIn(sb: Super, i: nat, p: nat)
    requires i < sb.ninodes && p < MAXBYTES
    ensures SlotIn(sb, BlockSlot(i, p)) && BlockSlot(i, p).k != NDIRECT
  {
  }

  /** A byte that is there stays as it is while the block map grows. */
  lemma GrowsKeepsByte(fs: Fs, fs': Fs, sb: Super, i: nat, p: nat)
    requires Tied(fs, sb, {}, {}) && Shape(fs, sb) && Shape(fs', sb) && Grows(fs, fs', sb) && i < sb.ninodes && p < MAXBYTES
    requires Addr(fs, sb, BlockSlot(i, p)) != 0
    ensures Addr(fs', sb, BlockSlot(i, p)) == Addr(fs, sb, BlockSlot(i, p))
    ensures FileByte(fs', sb, i, p) == FileByte(fs, sb, i, p)
  {
    hide Addr, BitsOk;
    SlotOfIn(sb, i, p);
    ShapeParts(fs, sb);
    ShapeParts(fs', sb);
  }

  lemma GrowsKeepsOverlaid(fs0: Fs, fs: Fs, fs': Fs, sb: Super, i: nat, len: nat, off: nat, data: seq<byte>)
    requires Tied(fs, sb, {}, {}) && Shape(fs0, sb) && Shape(fs, sb) && Shape(fs', sb) && Grows(fs, fs', sb)
    requires i < sb.ninodes && Overlaid(fs0, fs, sb, i, len, off, data)
    ensures Overlaid(fs0, fs', sb, i, len, off, data)
  {
    hide Addr, Shape, Tied, Grows, FileByte;
    forall p | 0 <= p < MAXBYTES && (p < len || p < off + |data|)
      ensures Addr(fs', sb, BlockSlot(i, p)) != 0 && FileByte(fs', sb, i, p) == FileByte(fs, sb, i, p)
    {
      GrowsKeepsByte(fs, fs', sb, i, p);
    }
  }

  lemma GrowsKeepsOthers(fs0: Fs, fs: Fs, fs': Fs, sb: Super, i: nat)
    requires Tied(fs, sb, {}, {}) && Shape(fs0, sb) && Shape(fs, sb) && Shape(fs', sb) && Grows(fs, fs', sb)
    requires i < sb.ninodes && OthersSame(fs0, fs, sb, i)
    requires forall j | 0 <= j < sb.ninodes && j != i :: fs'.inode[j] == fs.inode[j]
    ensures OthersSame(fs0, fs', sb, i)
  {
    hide Addr, Shape, Tied, Grows, FileByte;
    ShapeParts(fs0, sb);
    ShapeParts(fs', sb);
    forall j, p | 0 <= j < sb.ninodes && j != i && 0 <= p < fs0.inode[j].size && p < MAXBYTES
      ensures Addr(fs', sb, BlockSlot(j, p)) != 0 && FileByte(fs', sb, j, p) == FileByte(fs0, sb, j, p)
    {
      GrowsKeepsByte(fs, fs', sb, j, p);
    }
  }

  /** Part of a block is replaced. */
  function Patch(b: Block, o: nat, chunk: seq<byte>): (r: Block)
    requires o + |chunk| <= BSIZE
    ensures forall q | 0 <= q < BSIZE :: r[q] == if o <= q < o + |chunk| then chunk[q - o] else b[q]
  {
    b[..o] + chunk + b[o + |chunk|..]
  }

  /** Writing a data block changes no slot and no bit. */
  lemma DataWriteKeeps(fs: Fs, fs': Fs, sb: Super, a: nat, blk: Block)
    requires Tied(fs, sb, {}, {}) && a in fs.owner && fs.owner[a].k != NDIRECT && a < |fs.disk|
    requires fs' == Fs(fs.disk[a := blk], fs.inode, fs.owner)
    ensures Tied(fs', sb, {}, {}) && Shape(fs, sb) && Shape(fs', sb)
    ensures forall s | SlotIn(sb, s) :: Addr(fs', sb, s) == Addr(fs, sb, s)
  {
    hide Addr, BitsOk;
    SameAddrs(fs, fs', sb, {});
    assert DataBlock(sb, a);
    SameBits(fs.disk, fs'.disk, sb, fs.owner.Keys + {}, fs'.owner.Keys + {});
  }

  /** A byte lies in the chunk written at off exactly when it lies in its block and its part of it. */
  lemma InChunk(p: nat, off: nat, m: nat)
    requires off % BSIZE + m <= BSIZE
    ensures off <= p < off + m <==> p / BSIZE == off / BSIZE && off % BSIZE <= p % BSIZE < off % BSIZE + m
    ensures off <= p < off + m ==> p - off == p % BSIZE - off % BSIZE
  {
  }

  lemma WrittenByte(fs: Fs, fs': Fs, sb: Super, i: nat, off: nat, chunk: seq<byte>, a: nat, j: nat, p: nat)
    requires Tied(fs, sb, {}, {}) && Shape(fs, sb) && Shape(fs', sb) && i < sb.ninodes && off < MAXBYTES
    requires off % BSIZE + |chunk| <= BSIZE && a == Addr(fs, sb, BlockSlot(i, off)) != 0 && a < |fs.disk|
    requires fs' == Fs(fs.disk[a := Patch(fs.disk[a], off % BSIZE, chunk)], fs.inode, fs.owner)
    requires j < sb.ninodes && p < MAXBYTES && Addr(fs, sb, BlockSlot(j, p)) != 0
    requires Addr(fs', sb, BlockSlot(j, p)) == Addr(fs, sb, BlockSlot(j, p))
    ensures FileByte(fs', sb, j, p) == if j == i && off <= p < off + |chunk| then chunk[p - off] else FileByte(fs, sb, j, p)
  {
    hide Addr, BitsOk, Patch;
    SlotOfIn(sb, i, off);
    SlotOfIn(sb, j, p);
    InChunk(p, off, |chunk|);
    var s, t := BlockSlot(i, off), BlockSlot(j, p);
    assert fs.owner[a] == s && fs.owner[Addr(fs, sb, t)] == t;
    SameBlock(i, off, j, p);
  }

  lemma SameBlock(i: nat, off: nat, j: nat, p: nat)
    ensures BlockSlot(i, off) == BlockSlot(j, p) <==> i == j && off / BSIZE == p / BSIZE
  {
  }

  lemma ByteThere(fs: Fs, sb: Super, i: nat, off: nat, m: nat, p: nat)
    requires Shape(fs, sb) && i < sb.ninodes && off % BSIZE + m <= BSIZE && off + m <= MAXBYTES
    requires off <= p < off + m && Addr(fs, sb, BlockSlot(i, off)) != 0
    ensures Addr(fs, sb, BlockSlot(i, p)) != 0
  {
    hide Addr, Shape;
    InChunk(p, off, m);
    SameBlock(i, off, i, p);
  }

  /** One chunk more is written. */
  lemma WriteOverlays(fs0: Fs, fs: Fs, fs': Fs, sb: Super, i: nat, len: nat, off: nat, data: seq<byte>, chunk: seq<byte>, a: nat)
    requires Tied(fs, sb, {}, {}) && Shape(fs0, sb) && Shape(fs, sb) && Shape(fs', sb) && i < sb.ninodes
    requires Overlaid(fs0, fs, sb, i, len, off, data)
    requires |chunk| > 0 && (off + |data|) % BSIZE + |chunk| <= BSIZE && off + |data| + |chunk| <= MAXBYTES
    requires a == Addr(fs, sb, BlockSlot(i, off + |data|)) != 0 && a < |fs.disk|
    requires fs' == Fs(fs.disk[a := Patch(fs.disk[a], (off + |data|) % BSIZE, chunk)], fs.inode, fs.owner)
    requires forall s | SlotIn(sb, s) :: Addr(fs', sb, s) == Addr(fs, sb, s)
    ensures Overlaid(fs0, fs', sb, i, len, off, data + chunk)
  {
    hide Addr, Shape, Tied, FileByte, Patch;
    var at := off + |data|;
    forall p | 0 <= p < MAXBYTES && (p < len || p < at + |chunk|)
      ensures Addr(fs', sb, BlockSlot(i, p)) != 0
      ensures FileByte(fs', sb, i, p)
           == if off <= p < at + |chunk| then (data + chunk)[p - off] else FileByte(fs0, sb, i, p)
    {
      SlotOfIn(sb, i, p);
      if p >= len && p >= at {
        ByteThere(fs, sb, i, at, |chunk|, p);
      }
      WrittenByte(fs, fs', sb, i, at, chunk, a, i, p);
    }
  }

  lemma WriteKeepsOthers(fs0: Fs, fs: Fs, fs': Fs, sb: Super, i: nat, off: nat, chunk: seq<byte>, a: nat)
    requires Tied(fs, sb, {}, {}) && Shape(fs0, sb) && Shape(fs, sb) && Shape(fs', sb) && i < sb.ninodes
    requires off < MAXBYTES && off % BSIZE + |chunk| <= BSIZE && a == Addr(fs, sb, BlockSlot(i, off)) != 0 && a < |fs.disk|
    requires fs' == Fs(fs.disk[a := Patch(fs.disk[a], off % BSIZE, chunk)], fs.inode, fs.owner)
    requires forall s | SlotIn(sb, s) :: Addr(fs', sb, s) == Addr(fs, sb, s)
    requires OthersSame(fs0, fs, sb, i)
    ensures OthersSame(fs0, fs', sb, i)
  {
    hide Addr, Shape, Tied, FileByte, Patch;
    ShapeParts(fs0, sb);
    forall j, p | 0 <= j < sb.ninodes && j != i && 0 <= p < fs0.inode[j].size && p < MAXBYTES
      ensures Addr(fs', sb, BlockSlot(j, p)) != 0 && FileByte(fs', sb, j, p) == FileByte(fs0, sb, j, p)
    {
      SlotOfIn(sb, j, p);
      WrittenByte(fs, fs', sb, i, off, chunk, a, j, p);
    }
  }

  /** `data` laid over `c` at off. */
  ghost function Splice(c: seq<byte>, off: nat, data: seq<byte>): (r: seq<byte>)
    requires off <= |c|
    ensures |r| == if |c| < off + |data| then off + |data| else |c|
    ensures forall p | 0 <= p < |r| :: r[p] == if off <= p < off + |data| then data[p - off] else c[p]
  {
    c[..off] + data + (if off + |data| < |c| then c[off + |data|..] else [])
  }

  /** A file whose bytes are overlaid and whose size is set accordingly has the spliced content. */
  lemma OverlaidContent(fs0: Fs, fs: Fs, sb: Super, i: nat, off: nat, data: seq<byte>)
    requires Shape(fs0, sb) && Shape(fs, sb) && i < sb.ninodes && fs0.inode[i].size <= MAXBYTES
    requires Overlaid(fs0, fs, sb, i, fs0.inode[i].size, off, data)
    requires fs.inode[i].size == if fs0.inode[i].size < off + |data| then off + |data| else fs0.inode[i].size
    ensures fs.inode[i].size <= MAXBYTES && Mapped(fs, sb, i, fs.inode[i].size)
    ensures Content(fs, sb, i) == Splice(Content(fs0, sb, i), off, data)
  {
    hide Addr, Shape, FileByte, Splice, Content;
  }

  lemma OthersContent(fs0: Fs, fs: Fs, sb: Super, i: nat, j: nat)
    requires Shape(fs0, sb) && Shape(fs, sb) && OthersSame(fs0, fs, sb, i) && j < sb.ninodes && j != i
    ensures Mapped(fs, sb, j, fs.inode[j].size)
    ensures fs0.inode[j].size <= MAXBYTES ==> fs.inode[j].size <= MAXBYTES && Content(fs, sb, j) == Content(fs0, sb, j)
  {
    hide Addr, Shape, FileByte;
    ShapeParts(fs0, sb);
  }
}
