/** The block allocator, the block map of files, and reading, writing and truncating them, over the
    simple map from block to data that the buffer cache and the log provide.

    `logged` collects the blocks passed to log_write since the operation began.
 */
module FileLayer {
  import opened Params
  import opened Collections
  import opened Blocks
  import opened Bitmap
  import opened BlockMap
  import opened FileContents
  import opened Inodes

  class Files {
    const sb: Super
    var disk: seq<Block>
    var inode: seq<Inode>
    ghost var owner: map<nat, Slot>
    ghost var logged: set<nat>

    constructor (sb: Super, disk: seq<Block>, inode: seq<Inode>, ghost owner: map<nat, Slot>)
      ensures this.sb == sb && F() == Fs(disk, inode, owner) && logged == {}
    {
      this.sb, this.disk, this.inode, this.owner, logged := sb, disk, inode, owner, {};
    }

    ghost function F(): Fs
      reads this
    {
      Fs(disk, inode, owner)
    }

    /** The first block whose bit is clear, marked in use and zeroed; 0 if there is none. */
    method Balloc() returns (r: nat)
      requires Tied(F(), sb, {}, {})
      modifies this`disk, this`logged
      ensures r == 0 ==> disk == old(disk) && logged == old(logged) && forall c | 0 <= c < sb.size :: BitAt(disk, sb, c)
      ensures r != 0 ==>
        && DataBlock(sb, r) && r !in owner && Shape(old(F()), sb) && !BitAt(old(disk), sb, r)
        && (forall c | 0 <= c < r :: BitAt(old(disk), sb, c))
        && F() == Alloced(old(F()), sb, r) && Tied(F(), sb, {r}, {}) && Grows(old(F()), F(), sb)
        && logged == old(logged) + {r, BitmapOf(sb, r)}
      ensures LogCovers(old(disk), old(logged), disk, logged)
    {
      hide Tied, Shape, BitAt, Alloced, Grows, BlockStart, Bit, LogCovers;
      ShapeOf(F(), sb);
      LogNothing(disk, logged);
      var b := 0;
      while b < sb.size
        invariant BlockStart(b) && disk == old(disk) && logged == old(logged)
        invariant forall c | 0 <= c < b && c < sb.size :: BitAt(disk, sb, c)
      {
        var bi, found := FindClear(b);
        if found {
          TakeBlock(b, bi);
          return b + bi;
        }
        NextStart(b);
        b := b + BPB;
      }
      return 0;
    }

    /** The inner loop of balloc. */
    method FindClear(b: nat) returns (bi: nat, found: bool)
      requires Layout(sb) && |disk| == sb.size && BlockStart(b) && b < sb.size
      ensures found ==> bi < BPB && b + bi < sb.size && !BitAt(disk, sb, b + bi)
      ensures forall c | b <= c < (if found then b + bi else b + BPB) && c < sb.size :: BitAt(disk, sb, c)
    {
      hide BitAt, Bit;
      BitInBlock(disk, sb, b, 0);
      var bp := disk[sb.bmapstart + b / BPB];
      bi := 0;
      while bi < BPB && b + bi < sb.size
        invariant 0 <= bi <= BPB
        invariant forall c | b <= c < b + bi && c < sb.size :: BitAt(disk, sb, c)
      {
        BitInBlock(disk, sb, b, bi);
        if !Bit(bp, bi) {
          return bi, true;
        }
        bi := bi + 1;
      }
      return bi, false;
    }

    /** The update that balloc makes, with bzero. */
    method TakeBlock(b: nat, bi: nat)
      requires Tied(F(), sb, {}, {}) && BlockStart(b) && bi < BPB && b + bi < sb.size && !BitAt(disk, sb, b + bi)
      modifies this`disk, this`logged
      ensures Shape(old(F()), sb) && F() == Alloced(old(F()), sb, b + bi) && DataBlock(sb, b + bi) && b + bi !in owner
      ensures Tied(F(), sb, {b + bi}, {}) && Grows(old(F()), F(), sb)
      ensures logged == old(logged) + {b + bi, BitmapOf(sb, b + bi)}
      ensures LogCovers(old(disk), old(logged), disk, logged)
    {
      hide Owned, Owners, BitsOk, Grows, Bit, BitAt;
      BitInBlock(disk, sb, b, bi);
      AllocKeeps(F(), sb, b + bi, {});
      assert {} + {b + bi} == {b + bi};
      var bp := disk[sb.bmapstart + b / BPB];
      disk := disk[sb.bmapstart + b / BPB := SetBit(bp, bi)];
      disk := disk[b + bi := ZeroBlock()];
      logged := logged + {b + bi, BitmapOf(sb, b + bi)};
    }

    /** The n-th block of a file, allocated if it is not there; 0 if the disk is full. The source
        panics if bn is out of range. */
    method Bmap(i: nat, bn: nat) returns (addr: nat)
      requires Tied(F(), sb, {}, {}) && i < sb.ninodes && bn < MAXFILE
      modifies this`disk, this`inode, this`owner, this`logged
      ensures Tied(F(), sb, {}, {}) && Shape(old(F()), sb) && Shape(F(), sb) && Grows(old(F()), F(), sb)
      ensures addr == Addr(F(), sb, Slot(i, SlotOf(bn)))
      ensures addr == 0 ==> forall c | 0 <= c < sb.size :: BitAt(disk, sb, c)
      ensures Addr(old(F()), sb, Slot(i, SlotOf(bn))) != 0 ==> F() == old(F()) && logged == old(logged)
      ensures forall t | SlotIn(sb, t) && t != Slot(i, SlotOf(bn)) && t != Slot(i, NDIRECT) ::
        Addr(F(), sb, t) == Addr(old(F()), sb, t)
      ensures logged <= old(logged) + LogOf(sb, addr) + LogOf(sb, Addr(F(), sb, Slot(i, NDIRECT)))
      ensures LogCovers(old(disk), old(logged), disk, logged)
    {
      hide Tied, Shape, BitAt, Alloced, Grows, Bit, Addr, LogCovers;
      ShapeOf(F(), sb);
      GrowsRefl(F(), sb);
      LogNothing(disk, logged);
      if bn < NDIRECT {
        SlotAddr(F(), sb, Slot(i, bn));
        addr := inode[i].addrs[bn];
        if addr == 0 {
          addr := AllocSlot(Slot(i, bn));
        }
        return;
      }
      SlotAddr(F(), sb, Slot(i, NDIRECT));
      addr := inode[i].addrs[NDIRECT];
      if addr == 0 {
        EmptyIndirect(F(), sb, i, bn + 1);
        addr := AllocSlot(Slot(i, NDIRECT));
        if addr == 0 {
          return;
        }
      }
      ghost var fs1 := F();
      ghost var logged1 := logged;
      ShapeOf(F(), sb);
      SlotAddr(F(), sb, Slot(i, bn + 1));
      var ind := addr;
      addr := Word(disk[ind], bn - NDIRECT);
      if addr == 0 {
        addr := AllocEntry(Slot(i, bn + 1), ind);
        GrowsTrans(old(F()), fs1, F(), sb);
        LogMore(old(disk), old(logged), fs1.disk, logged1, disk, logged);
      }
    }

    /** bmap's allocation of a direct or indirect block. */
    method AllocSlot(s: Slot) returns (addr: nat)
      requires Tied(F(), sb, {}, {}) && Shape(F(), sb) && SlotIn(sb, s) && s.k <= NDIRECT && Addr(F(), sb, s) == 0
      modifies this`disk, this`inode, this`owner, this`logged
      ensures Tied(F(), sb, {}, {}) && Shape(old(F()), sb) && Shape(F(), sb) && Grows(old(F()), F(), sb)
      ensures addr == Addr(F(), sb, s) == inode[s.inum].addrs[s.k]
      ensures addr == 0 ==> F() == old(F()) && logged == old(logged) && forall c | 0 <= c < sb.size :: BitAt(disk, sb, c)
      ensures forall t | SlotIn(sb, t) && t != s :: Addr(F(), sb, t) == Addr(old(F()), sb, t)
      ensures logged <= old(logged) + LogOf(sb, addr)
      ensures LogCovers(old(disk), old(logged), disk, logged)
    {
      hide Tied, Shape, BitAt, Alloced, Grows, Bit, Addr, LogCovers;
      ghost var fs := F();
      ShapeOf(fs, sb);
      GrowsRefl(fs, sb);
      LogNothing(disk, logged);
      SlotAddr(fs, sb, s);
      addr := Balloc();
      if addr == 0 {
        return;
      }
      ghost var fs1 := F();
      ShapeOf2(fs1, sb, addr);
      AllocedParts(fs, sb, addr, s);
      LinkKeeps(fs1, sb, s, addr);
      var n := inode[s.inum];
      inode := inode[s.inum := n.(addrs := n.addrs[s.k := addr])];
      owner := owner[addr := s];
      assert F() == Linked(fs1, sb, s, addr);
      ShapeOf(F(), sb);
      SlotAddr(F(), sb, s);
      GrowsTrans(fs, fs1, F(), sb);
    }

    /** bmap's allocation of a block for an entry of the indirect block. */
    method AllocEntry(s: Slot, ind: nat) returns (addr: nat)
      requires Tied(F(), sb, {}, {}) && Shape(F(), sb) && SlotIn(sb, s) && s.k > NDIRECT && Addr(F(), sb, s) == 0
      requires ind == Addr(F(), sb, Slot(s.inum, NDIRECT)) != 0
      modifies this`disk, this`owner, this`logged
      ensures Tied(F(), sb, {}, {}) && Shape(old(F()), sb) && Shape(F(), sb) && Grows(old(F()), F(), sb)
      ensures addr == Addr(F(), sb, s)
      ensures addr == 0 ==> F() == old(F()) && logged == old(logged) && forall c | 0 <= c < sb.size :: BitAt(disk, sb, c)
      ensures forall t | SlotIn(sb, t) && t != s :: Addr(F(), sb, t) == Addr(old(F()), sb, t)
      ensures logged <= old(logged) + LogOf(sb, addr) + LogOf(sb, ind)
      ensures LogCovers(old(disk), old(logged), disk, logged)
    {
      hide Tied, Shape, BitAt, Alloced, Grows, Bit, Addr, LogCovers;
      ghost var fs := F();
      ShapeOf(fs, sb);
      GrowsRefl(fs, sb);
      LogNothing(disk, logged);
      SlotAddr(fs, sb, s);
      SlotAddr(fs, sb, Slot(s.inum, NDIRECT));
      addr := Balloc();
      if addr == 0 {
        return;
      }
      ghost var fs1 := F();
      ghost var logged1 := logged;
      ShapeOf2(fs1, sb, addr);
      AllocedParts(fs, sb, addr, s);
      LinkKeeps(fs1, sb, s, addr);
      disk := disk[ind := SetWord(disk[ind], s.k - NDIRECT - 1, addr)];
      owner := owner[addr := s];
      logged := logged + {ind};
      LogPut(fs1.disk, logged1, ind, disk[ind]);
      LogMore(fs.disk, old(logged), fs1.disk, logged1, disk, logged);
      assert F() == Linked(fs1, sb, s, addr);
      ShapeOf(F(), sb);
      GrowsTrans(fs, fs1, F(), sb);
    }

    /** The loops of itrunc: free all blocks of a file. Every bfree finds its bit set. */
    method FreeBlocks(i: nat)
      requires Tied(F(), sb, {}, {}) && i < sb.ninodes
      modifies this`disk, this`inode, this`owner, this`logged
      ensures Cut(old(F()), F(), sb, i, NDIRECT, NINDIRECT, true, {})
      ensures LogCovers(old(disk), old(logged), disk, logged)
    {
      hide Tied, Shape, BitAt, Bit, Addr, Cut, Freed, Unset, LogCovers;
      ghost var fs := F();
      CutNothing(fs, sb, i);
      LogNothing(disk, logged);
      var k := 0;
      while k < NDIRECT
        invariant 0 <= k <= NDIRECT && Cut(fs, F(), sb, i, k, 0, false, {})
        invariant LogCovers(old(disk), old(logged), disk, logged)
      {
        ghost var disk1, logged1 := disk, logged;
        FreeDirect(fs, i, k);
        LogMore(old(disk), old(logged), disk1, logged1, disk, logged);
        k := k + 1;
      }
      CutParts(fs, F(), sb, i, NDIRECT, 0, false, {});
      if inode[i].addrs[NDIRECT] != 0 {
        ghost var disk1, logged1 := disk, logged;
        FreeIndirect(fs, i);
        LogMore(old(disk), old(logged), disk1, logged1, disk, logged);
      } else {
        CutNoIndirect(fs, F(), sb, i);
      }
    }

    /** The body of itrunc's first loop. */
    method FreeDirect(ghost fs: Fs, i: nat, k: nat)
      requires k < NDIRECT && i < sb.ninodes && Cut(fs, F(), sb, i, k, 0, false, {})
      modifies this`disk, this`inode, this`owner, this`logged
      ensures Cut(fs, F(), sb, i, k + 1, 0, false, {})
      ensures LogCovers(old(disk), old(logged), disk, logged)
    {
      hide Tied, Shape, BitAt, Bit, Addr, Cut, Freed, LogCovers;
      ghost var fs1 := F();
      LogNothing(disk, logged);
      CutParts(fs, fs1, sb, i, k, 0, false, {});
      if inode[i].addrs[k] == 0 {
        CutEmpty(fs, fs1, sb, i, k);
        return;
      }
      var b := inode[i].addrs[k];
      SlotAddr(fs1, sb, Slot(i, k));
      SlotOwns(fs1, sb, Slot(i, k), {});
      InUse(fs1, sb, b, {});
      var ok := Bfree(b);
      assert ok;
      ghost var fs2 := F();
      FreeKeeps(fs1, fs2, sb, b, {});
      inode := inode[i := inode[i].(addrs := inode[i].addrs[k := 0])];
      CutDirect(fs, fs1, fs2, F(), sb, i, k);
    }

    /** The part of itrunc that frees the indirect block and what it lists. */
    method FreeIndirect(ghost fs: Fs, i: nat)
      requires i < sb.ninodes && Cut(fs, F(), sb, i, NDIRECT, 0, false, {})
      requires |inode| == sb.ninodes && |inode[i].addrs| == NDIRECT + 1 && inode[i].addrs[NDIRECT] != 0
      modifies this`disk, this`inode, this`owner, this`logged
      ensures Cut(fs, F(), sb, i, NDIRECT, NINDIRECT, true, {})
      ensures LogCovers(old(disk), old(logged), disk, logged)
    {
      hide Tied, Shape, BitAt, Bit, Addr, Cut, Freed, Entries, LogCovers;
      CutParts(fs, F(), sb, i, NDIRECT, 0, false, {});
      var ind := inode[i].addrs[NDIRECT];
      var a := disk[ind];
      NoEntries(i);
      LogNothing(disk, logged);
      var j := 0;
      while j < NINDIRECT
        invariant 0 <= j <= NINDIRECT && Cut(fs, F(), sb, i, NDIRECT, j, false, Entries(i, j))
        invariant inode == old(inode) && |disk| == sb.size && disk[ind] == a
        invariant LogCovers(old(disk), old(logged), disk, logged)
      {
        ghost var disk1, logged1 := disk, logged;
        FreeEntry(fs, i, j, ind, Word(a, j));
        LogMore(old(disk), old(logged), disk1, logged1, disk, logged);
        j := j + 1;
      }
      ghost var fs1 := F();
      ghost var logged1 := logged;
      CutParts(fs, fs1, sb, i, NDIRECT, NINDIRECT, false, Entries(i, NINDIRECT));
      SlotAddr(fs1, sb, Slot(i, NDIRECT));
      SlotOwns(fs1, sb, Slot(i, NDIRECT), Entries(i, NINDIRECT));
      InUse(fs1, sb, ind, Entries(i, NINDIRECT));
      var ok := Bfree(ind);
      assert ok;
      ghost var fs2 := F();
      LogMore(old(disk), old(logged), fs1.disk, logged1, disk, logged);
      FreeKeeps(fs1, fs2, sb, ind, Entries(i, NINDIRECT));
      inode := inode[i := inode[i].(addrs := inode[i].addrs[NDIRECT := 0])];
      CutLast(fs, fs1, fs2, F(), sb, i);
    }

    /** The body of itrunc's second loop. */
    method FreeEntry(ghost fs: Fs, i: nat, j: nat, ind: nat, b: nat)
      requires i < sb.ninodes && j < NINDIRECT && Cut(fs, F(), sb, i, NDIRECT, j, false, Entries(i, j))
      requires |inode| == sb.ninodes && |inode[i].addrs| == NDIRECT + 1 && inode[i].addrs[NDIRECT] == ind != 0
      requires ind < |disk| == sb.size && b == Word(disk[ind], j)
      modifies this`disk, this`owner, this`logged
      ensures Cut(fs, F(), sb, i, NDIRECT, j + 1, false, Entries(i, j + 1))
      ensures |disk| == sb.size && disk[ind] == old(disk[ind])
      ensures LogCovers(old(disk), old(logged), disk, logged)
    {
      hide Tied, Shape, BitAt, Bit, Addr, Cut, Freed, Entries, LogCovers;
      ghost var fs1 := F();
      LogNothing(disk, logged);
      CutParts(fs, fs1, sb, i, NDIRECT, j, false, Entries(i, j));
      SlotAddr(fs1, sb, Slot(i, NDIRECT + 1 + j));
      if b == 0 {
        CutEntryEmpty(fs, fs1, sb, i, j);
        return;
      }
      SlotOwns(fs1, sb, Slot(i, NDIRECT + 1 + j), Entries(i, j));
      InUse(fs1, sb, b, Entries(i, j));
      var ok := Bfree(b);
      assert ok;
      FreeKeeps(fs1, F(), sb, b, Entries(i, j));
      CutEntry(fs, fs1, F(), sb, i, j, b);
    }

    /** Copy a modified inode to the disk. */
    method Iupdate(i: nat)
      requires Tied(F(), sb, {}, {}) && Shape(F(), sb) && i < sb.ninodes && OnDisk(F(), sb, {i})
      modifies this`disk, this`logged
      ensures Tied(F(), sb, {}, {}) && Shape(F(), sb) && OnDisk(F(), sb, {})
      ensures LowChanged(old(F()), F(), sb) && logged == old(logged) + {InodeBlock(sb, i)}
      ensures LogCovers(old(disk), old(logged), disk, logged)
    {
      hide Tied, Addr, OnDisk, StoreInode, LogCovers;
      ghost var fs := F();
      SlotAddr(fs, sb, Slot(i, 0));
      InodeBlockLow(sb, i);
      var b := InodeBlock(sb, i);
      LowWriteKeeps(fs, sb, b, StoreInode(disk[b], i % IPB, inode[i]));
      disk := disk[b := StoreInode(disk[b], i % IPB, inode[i])];
      logged := logged + {b};
      LogPut(fs.disk, old(logged), b, disk[b]);
      assert F() == Inodes.Stored(fs, sb, i);
      StoreKeepsOthers(fs, sb, i);
    }

    /** ilock's reading of an inode from the disk finds what is in memory. */
    method Ilock(i: nat) returns (n: Inode)
      requires Shape(F(), sb) && i < sb.ninodes && OnDisk(F(), sb, {})
      ensures n == inode[i]
    {
      hide LoadInode;
      InodeBlockLow(sb, i);
      n := LoadInode(disk[InodeBlock(sb, i)], i % IPB);
    }

    /** Discard a file's content. */
    method Itrunc(i: nat)
      requires FilesOk(F(), sb) && Shape(F(), sb) && i < sb.ninodes && OnDisk(F(), sb, {i})
      modifies this`disk, this`inode, this`owner, this`logged
      ensures FilesOk(F(), sb) && Shape(old(F()), sb) && Shape(F(), sb) && OnDisk(F(), sb, {})
      ensures owner == map b | b in old(owner) && old(owner)[b].inum != i :: old(owner)[b]
      ensures inode[i] == old(inode[i]).(size := 0, addrs := seq(NDIRECT + 1, (k: int) => 0))
      ensures OthersSame(old(F()), F(), sb, i)
      ensures LogCovers(old(disk), old(logged), disk, logged)
    {
      hide Tied, Shape, Addr, OnDisk, Cut, OthersSame, Mapped, LogCovers;
      ghost var fs := F();
      FreeBlocks(i);
      ghost var fs1 := F();
      CutParts(fs, fs1, sb, i, NDIRECT, NINDIRECT, true, {});
      inode := inode[i := inode[i].(size := 0)];
      TruncSized(fs, fs1, F(), sb, i);
      ghost var fs2 := F();
      ghost var logged2 := logged;
      Iupdate(i);
      LogMore(old(disk), old(logged), fs2.disk, logged2, disk, logged);
      TruncDone(fs, fs2, F(), sb, i);
    }

    /** Read from a file; the copy out fails if the destination has less than `room` bytes. A file
        without holes is not changed. */
    method Readi(i: nat, off: nat, n: nat, room: nat) returns (data: seq<byte>, r: int)
      requires FilesOk(F(), sb) && Shape(F(), sb) && i < sb.ninodes && off < WORD_LIMIT && n < WORD_LIMIT
      modifies this`disk, this`inode, this`owner, this`logged
      ensures F() == old(F()) && logged == old(logged) && inode[i].size <= MAXBYTES
      ensures off > inode[i].size || off + n >= WORD_LIMIT ==> r == 0 && data == []
      ensures off <= inode[i].size && off + n < WORD_LIMIT ==>
        var want := if off + n > inode[i].size then inode[i].size - off else n;
        && (r == -1 <==> want > room)
        && (r != -1 ==> r == want && data == Content(F(), sb, i)[off..off + r])
    {
      hide FilesOk, Shape, Content;
      ShapeParts(F(), sb);
      SlotAddr(F(), sb, Slot(i, 0));
      data := [];
      if off > inode[i].size || (off + n) % WORD_LIMIT < off {
        return data, 0;
      }
      if off + n > inode[i].size {
        data, r := ReadRounds(i, off, inode[i].size - off, room);
      } else {
        data, r := ReadRounds(i, off, n, room);
      }
    }

    /** The loop of readi. */
    method ReadRounds(i: nat, off: nat, n: nat, room: nat) returns (data: seq<byte>, r: int)
      requires FilesOk(F(), sb) && Shape(F(), sb) && i < sb.ninodes && inode[i].size <= MAXBYTES && off + n <= inode[i].size
      modifies this`disk, this`inode, this`owner, this`logged
      ensures F() == old(F()) && logged == old(logged)
      ensures r == -1 <==> n > room
      ensures r != -1 ==> r == n && data == Content(F(), sb, i)[off..off + n]
    {
      hide FilesOk, Shape, Content;
      data := [];
      var tot := 0;
      ghost var c := Content(F(), sb, i);
      while tot < n
        invariant 0 <= tot <= n && F() == old(F()) && logged == old(logged)
        invariant tot <= room && data == c[off..off + tot]
      {
        var m := if n - tot < BSIZE - (off + tot) % BSIZE then n - tot else BSIZE - (off + tot) % BSIZE;
        var chunk := ReadOne(i, off + tot, m);
        if tot + m > room {
          return data, -1;
        }
        data := data + chunk;
        tot := tot + m;
      }
      return data, tot;
    }

    /** The part of a block that one round of readi copies out. */
    method ReadOne(i: nat, at: nat, m: nat) returns (chunk: seq<byte>)
      requires FilesOk(F(), sb) && Shape(F(), sb) && i < sb.ninodes && inode[i].size <= MAXBYTES
      requires 0 < m && at % BSIZE + m <= BSIZE && at + m <= inode[i].size
      modifies this`disk, this`inode, this`owner, this`logged
      ensures F() == old(F()) && logged == old(logged)
      ensures chunk == Content(F(), sb, i)[at..at + m]
    {
      hide Tied, Shape, Addr, FileByte;
      SlotOfIn(sb, i, at);
      assert Addr(F(), sb, BlockSlot(i, at)) != 0;
      var addr := Bmap(i, at / BSIZE);
      AddrInDisk(F(), sb, BlockSlot(i, at));
      ReadChunk(F(), sb, i, at, m, addr);
      return disk[addr][at % BSIZE..at % BSIZE + m];
    }

    /** Write to a file. Each copy in is all or nothing: `src` is the part of the source that can be
        copied, and a round that needs more fails. */
    method Writei(i: nat, src: seq<byte>, off: nat, n: nat) returns (r: int)
      requires FilesOk(F(), sb) && Shape(F(), sb) && OnDisk(F(), sb, {}) && i < sb.ninodes
      requires off < WORD_LIMIT && n < WORD_LIMIT
      modifies this`disk, this`inode, this`owner, this`logged
      ensures FilesOk(F(), sb) && Shape(old(F()), sb) && Shape(F(), sb) && OnDisk(F(), sb, {})
      ensures r == -1 <==> off > old(inode[i].size) || off + n > MAXBYTES
      ensures r == -1 ==> F() == old(F()) && logged == old(logged)
      ensures r != -1 ==>
        && 0 <= r <= n && r <= |src| && old(inode[i].size) <= MAXBYTES && inode[i].size <= MAXBYTES
        && Content(F(), sb, i) == Splice(Content(old(F()), sb, i), off, src[..r])
      ensures 0 <= r < n ==> DiskFull(disk, sb) || |src| < r + Room(off + r, n - r)
      ensures OthersSame(old(F()), F(), sb, i) && SameFields(old(inode[i]), inode[i])
      ensures old(logged) == {} ==> |logged| <= LogBound(off, n) && PastLog(sb, logged)
      ensures LogCovers(old(disk), old(logged), disk, logged)
    {
      hide Tied, Shape, Addr, OnDisk, OthersSame, Mapped, Overlaid, Splice, Content, LogBound, LogCovers;
      ghost var fs := F();
      ShapeParts(fs, sb);
      LogNothing(disk, logged);
      WritingNothing(fs, sb, i, off);
      LogBoundPositive(off, n);
      if off > inode[i].size || (off + n) % WORD_LIMIT < off {
        return -1;
      }
      if off + n > MAXFILE * BSIZE {
        return -1;
      }
      var tot, reach, logs := WriteRounds(i, src, off, n);
      ghost var fs3 := F();
      if off + tot > inode[i].size {
        inode := inode[i := inode[i].(size := off + tot)];
      }
      WritingSized(fs, fs3, F(), sb, i, off, src[..tot]);
      ghost var fs4, logged4 := F(), logged;
      Iupdate(i);
      LogMore(old(disk), old(logged), fs4.disk, logged4, disk, logged);
      WritingDone(fs, fs4, F(), sb, i, off, src[..tot]);
      FullKept(fs4, F(), sb);
      LogsBounded(old(logged), logged4, logged, fs3, sb, i, logs, off, reach, n);
      if old(logged) == {} {
        LogsPast({}, logged4, fs3, sb, i, logs);
      }
      return tot;
    }

    /** filewrite on an inode: the request is cut into chunks of 3072 bytes, each a transaction of its
        own. `n` is a C int; `peak` is the largest number of blocks a transaction logged, `chunks` the number
        of transactions. */
    method Filewrite(i: nat, off: nat, src: seq<byte>, n: int) returns (ret: int, off': nat, ghost peak: nat, ghost chunks: nat)
      requires FilesOk(F(), sb) && Shape(F(), sb) && OnDisk(F(), sb, {}) && i < sb.ninodes
      requires off < WORD_LIMIT && n < 0x8000_0000
      modifies this`disk, this`inode, this`owner, this`logged
      ensures FilesOk(F(), sb) && Shape(old(F()), sb) && Shape(F(), sb) && OnDisk(F(), sb, {})
      ensures peak <= MAXOPBLOCKS
      ensures old(inode[i].size) <= MAXBYTES && inode[i].size <= MAXBYTES
      ensures off <= off' <= off + |src| && (ret == n && n >= 0 <==> off' == off + n) && (off' != off + n || n < 0 ==> ret == -1)
      ensures off > old(inode[i].size) ==> off' == off && F() == old(F())
      ensures off <= old(inode[i].size) ==>
        Content(F(), sb, i) == Splice(Content(old(F()), sb, i), off, src[..off' - off])
      ensures n >= 0 && off <= old(inode[i].size) && off' < off + n ==> DiskFull(disk, sb) || |src| < n || off + n > MAXBYTES
      ensures n >= 0 && off' == off + n ==> chunks == (n + 3071) / 3072
      ensures OthersSame(old(F()), F(), sb, i) && SameFields(old(inode[i]), inode[i])
    {
      hide FilesOk, Shape, OnDisk, OthersSame, Content, Splice, SameFields, Wrote, DiskFull;
      ghost var fs := F();
      WroteNothing(fs, sb, i, off);
      off', peak, chunks := off, 0, 0;
      var max := (MAXOPBLOCKS - 1 - 1 - 2) / 2 * BSIZE;
      var done := 0;
      while done < n
        invariant 0 <= done && (n >= 0 ==> done <= n) && (n < 0 ==> done == 0) && done <= |src|
        invariant off' == off + done < WORD_LIMIT && peak <= MAXOPBLOCKS && Wrote(fs, F(), sb, i, off, src[..done])
        invariant n >= 0 ==> if done == n then chunks == (n + 3071) / 3072 else done == chunks * 3072
        decreases n - done
      {
        var n1 := n - done;
        if n1 > max {
          n1 := max;
        }
        var r;
        ghost var count;
        r, count := WriteChunk(i, off, src, done, n1, fs);
        peak, chunks := if count > peak then count else peak, chunks + 1;
        if r > 0 {
          off' := off' + r;
        }
        if r != n1 {
          break;
        }
        done := done + r;
      }
      WroteParts(fs, F(), sb, i, off, src[..off' - off]);
      ret := if done == n then n else -1;
    }

    /** One transaction of filewrite, after `done` bytes; `count` is the number of blocks it logged. */
    method WriteChunk(i: nat, off: nat, src: seq<byte>, done: nat, n1: nat, ghost fs: Fs) returns (r: int, ghost count: nat)
      requires n1 <= 3 * BSIZE && off + done < WORD_LIMIT && done <= |src| && Wrote(fs, F(), sb, i, off, src[..done])
      modifies this`disk, this`inode, this`owner, this`logged
      ensures count == |logged| <= MAXOPBLOCKS && PastLog(sb, logged) && -1 <= r <= n1 && done + r <= |src|
      ensures Wrote(fs, F(), sb, i, off, src[..if r > 0 then done + r else done])
      ensures r > 0 ==> off + done + r <= MAXBYTES
      ensures r < n1 && off <= fs.inode[i].size ==> DiskFull(disk, sb) || |src| < done + n1 || off + done + n1 > MAXBYTES
      ensures LogCovers(old(disk), {}, disk, logged)
    {
      hide FilesOk, Shape, OnDisk, OthersSame, Content, Splice, LogBound, SameFields, Wrote, DiskFull, Room, LogCovers;
      ghost var fs1 := F();
      WroteParts(fs, fs1, sb, i, off, src[..done]);
      logged := {};
      r := Writei(i, src[done..], off + done, n1);
      ChunkLogs(off + done, n1);
      count := |logged|;
      ShapeParts(F(), sb);
      WroteMore(fs, fs1, F(), sb, i, off, src, done, if r > 0 then r else 0);
      if 0 <= r < n1 {
        RoomAtMost(off + done + r, n1 - r);
      }
    }

    /** The loop of writei. */
    method WriteRounds(i: nat, src: seq<byte>, off: nat, n: nat) returns (tot: nat, ghost reach: nat, ghost logs: Logs)
      requires Writing(F(), F(), sb, i, off, []) && off + n <= MAXBYTES
      modifies this`disk, this`inode, this`owner, this`logged
      ensures tot <= n && tot <= |src| && tot <= reach <= n && Writing(old(F()), F(), sb, i, off, src[..tot])
      ensures Logged(old(logged), logged, F(), sb, i, logs) && Counted(logs, off, reach, n)
      ensures tot < n ==> DiskFull(disk, sb) || |src| < tot + Room(off + tot, n - tot)
      ensures LogCovers(old(disk), old(logged), disk, logged)
    {
      hide Writing, Logged, Counted, DiskFull, Shape, LogCovers;
      ghost var fs := F();
      tot, logs, reach := 0, Logs({}, {}), 0;
      CountedNothing(off, n);
      LogNothing(disk, logged);
      LoggedNothing(fs, sb, i, off, logged);
      assert src[..0] == [];
      while tot < n
        invariant 0 <= tot <= n && tot <= |src| && Shape(F(), sb) && i < sb.ninodes
        invariant Writing(fs, F(), sb, i, off, src[..tot])
        invariant LogCovers(old(disk), old(logged), disk, logged)
        invariant Logged(old(logged), logged, F(), sb, i, logs) && reach == tot && Counted(logs, off, reach, n)
      {
        var m, ok;
        ghost var disk1, logged1 := disk, logged;
        m, ok, logs := WriteRound(fs, old(logged), i, src, off, tot, n, logs);
        LogMore(old(disk), old(logged), disk1, logged1, disk, logged);
        reach := tot + m;
        if !ok {
          break;
        }
        tot := tot + m;
      }
    }

    /** One round of writei's loop. */
    method WriteRound(ghost fs: Fs, ghost logged0: set<nat>, i: nat, src: seq<byte>, off: nat, tot: nat, n: nat, ghost logs: Logs)
      returns (m: nat, ok: bool, ghost logs': Logs)
      requires tot < n && tot <= |src| && off + n <= MAXBYTES && Writing(fs, F(), sb, i, off, src[..tot])
      requires Logged(logged0, logged, F(), sb, i, logs) && Counted(logs, off, tot, n)
      modifies this`disk, this`inode, this`owner, this`logged
      ensures 0 < m && tot + m <= n && Shape(F(), sb) && Writing(fs, F(), sb, i, off, src[..if ok && tot + m <= |src| then tot + m else tot])
      ensures Logged(logged0, logged, F(), sb, i, logs') && Counted(logs', off, tot + m, n)
      ensures ok ==> tot + m <= |src|
      ensures !ok ==> m == Room(off + tot, n - tot) && (DiskFull(disk, sb) || |src| < tot + m)
      ensures LogCovers(old(disk), old(logged), disk, logged)
    {
      hide Tied, Shape, Addr, OnDisk, OthersSame, Mapped, Overlaid, Counted, Logged, Room, MoreLogs, Patch, LogCovers;
      ghost var fs1, logged1 := F(), logged;
      m := Room(off + tot, n - tot);
      ChunkFits(off, tot, n, m);
      SlotOfIn(sb, i, off + tot);
      var addr := Bmap(i, (off + tot) / BSIZE);
      WritingMore(fs, fs1, F(), sb, i, off, src[..tot]);
      ghost var newly := Addr(fs1, sb, BlockSlot(i, off + tot)) == 0;
      logs' := MoreLogs(sb, logs, addr, newly);
      FirstIsThere(fs, fs1, sb, i, off, src[..tot]);
      CountedMore(logs, logs', sb, addr, newly, off, tot, m, n);
      if addr != 0 {
        AddrInDisk(F(), sb, BlockSlot(i, off + tot));
      }
      LoggedMore(logged0, logged1, logged, fs1, F(), sb, i, logs, logs', addr, newly);
      if addr == 0 || tot + m > |src| {
        ok := false;
        return;
      }
      ghost var fs2, logged2 := F(), logged;
      disk := disk[addr := Patch(disk[addr], (off + tot) % BSIZE, src[tot..tot + m])];
      logged := logged + {addr};
      LogPut(fs2.disk, logged2, addr, disk[addr]);
      LogMore(fs1.disk, logged1, fs2.disk, logged2, disk, logged);
      WritingPut(fs, fs2, F(), sb, i, off, src[..tot], src[tot..tot + m], addr);
      assert src[..tot] + src[tot..tot + m] == src[..tot + m];
      AddrIsLogged(sb, logs, addr, newly);
      LoggedPut(logged0, logged2, fs2, F(), sb, i, logs', addr);
      ok := true;
    }

    /** Clear the bit of a block; not ok where the source panics with "freeing free block". */
    method Bfree(b: nat) returns (ok: bool)
      requires Shape(F(), sb) && b < sb.size
      modifies this`disk, this`owner, this`logged
      ensures ok <==> BitAt(old(disk), sb, b)
      ensures ok ==> F() == Freed(old(F()), sb, b) && owner == old(owner) - {b} && logged == old(logged) + {BitmapOf(sb, b)}
      ensures !ok ==> F() == old(F())
      ensures LogCovers(old(disk), old(logged), disk, logged)
    {
      hide Bit;
      BitmapBlock(sb, b);
      var bp := disk[sb.bmapstart + b / BPB];
      if !Bit(bp, b % BPB) {
        return false;
      }
      disk := disk[sb.bmapstart + b / BPB := ClearBit(bp, b % BPB)];
      owner := owner - {b};
      logged := logged + {BitmapOf(sb, b)};
      return true;
    }
  }

  /** Every block that changed since is logged: nothing reaches the disk past the log. */
  ghost predicate LogCovers(disk: seq<Block>, logged: set<nat>, disk': seq<Block>, logged': set<nat>) {
    && |disk'| == |disk| && logged <= logged'
    && forall b | 0 <= b < |disk| && disk'[b] != disk[b] :: b in logged'
  }

  lemma LogNothing(disk: seq<Block>, logged: set<nat>)
    ensures LogCovers(disk, logged, disk, logged)
  {
  }

  lemma LogPut(disk: seq<Block>, logged: set<nat>, b: nat, blk: Block)
    requires b < |disk|
    ensures LogCovers(disk, logged, disk[b := blk], logged + {b})
  {
  }

  lemma LogMore(disk: seq<Block>, logged: set<nat>, disk1: seq<Block>, logged1: set<nat>, disk2: seq<Block>, logged2: set<nat>)
    requires LogCovers(disk, logged, disk1, logged1) && LogCovers(disk1, logged1, disk2, logged2)
    ensures LogCovers(disk, logged, disk2, logged2)
  {
  }

  /** The bitmap block that holds the bit of a block, BBLOCK in the source. */
  ghost function BitmapOf(sb: Super, b: nat): nat {
    sb.bmapstart + b / BPB
  }

  /** The blocks that allocating a block logs. */
  ghost function LogOf(sb: Super, b: nat): set<nat> {
    if b == 0 then {} else {b, BitmapOf(sb, b)}
  }

  lemma SlotAddr(fs: Fs, sb: Super, s: Slot)
    requires Shape(fs, sb) && SlotIn(sb, s)
    ensures InodeOk(fs.inode[s.inum], sb)
    ensures s.k <= NDIRECT ==> Addr(fs, sb, s) == fs.inode[s.inum].addrs[s.k]
    ensures s.k > NDIRECT && fs.inode[s.inum].addrs[NDIRECT] != 0 ==>
      Addr(fs, sb, s) == Word(fs.disk[fs.inode[s.inum].addrs[NDIRECT]], s.k - NDIRECT - 1)
  {
  }

  lemma EmptyIndirect(fs: Fs, sb: Super, i: nat, k: nat)
    requires Shape(fs, sb) && i < sb.ninodes && NDIRECT < k < SLOTS
    ensures InodeOk(fs.inode[i], sb) && (fs.inode[i].addrs[NDIRECT] == 0 ==> Addr(fs, sb, Slot(i, k)) == 0)
  {
  }

  /** balloc leaves every slot as it was. */
  lemma AllocedParts(fs: Fs, sb: Super, b: nat, s: Slot)
    requires Tied(fs, sb, {}, {}) && Shape(fs, sb) && SlotIn(sb, s) && b < sb.size && !BitAt(fs.disk, sb, b)
    ensures Shape(Alloced(fs, sb, b), sb) && Alloced(fs, sb, b).inode == fs.inode && InodeOk(fs.inode[s.inum], sb)
    ensures forall t | SlotIn(sb, t) :: Addr(Alloced(fs, sb, b), sb, t) == Addr(fs, sb, t)
    ensures Alloced(fs, sb, b).disk[b] == ZeroBlock()
  {
    hide Addr;
    AllocKeeps(fs, sb, b, {});
    BitmapBlock(sb, b);
    SameAddrs(fs, Alloced(fs, sb, b), sb, {});
  }

  lemma GrowsRefl(fs: Fs, sb: Super)
    requires Shape(fs, sb)
    ensures Grows(fs, fs, sb)
  {
    hide Addr;
  }

  lemma GrowsTrans(fs: Fs, fs1: Fs, fs2: Fs, sb: Super)
    requires Shape(fs, sb) && Shape(fs1, sb) && Shape(fs2, sb) && Grows(fs, fs1, sb) && Grows(fs1, fs2, sb)
    ensures Grows(fs, fs2, sb)
  {
    hide Addr;
  }

  lemma ShapeOf2(fs: Fs, sb: Super, b: nat)
    requires Tied(fs, sb, {b}, {})
    ensures Shape(fs, sb)
  {
  }

  /** `fs` is `fs0` with some blocks of file i freed: the first d direct ones, the first e entries of
      the indirect block and, if ind, the indirect block. */
  ghost predicate Cut(fs0: Fs, fs: Fs, sb: Super, i: nat, d: nat, e: nat, ind: bool, gone: set<Slot>) {
    && Tied(fs0, sb, {}, {}) && i < sb.ninodes && Tied(fs, sb, {}, gone)
    && fs.owner == OwnersLeft(fs0.owner, i, d, e, ind)
    && (forall b | 0 <= b < sb.size && (b < sb.bmapstart || sb.datastart <= b) :: fs.disk[b] == fs0.disk[b])
    && (forall j | 0 <= j < sb.ninodes && j != i :: fs.inode[j] == fs0.inode[j])
    && fs.inode[i] == fs0.inode[i].(addrs := fs.inode[i].addrs)
    && InodeOk(fs0.inode[i], sb) && InodeOk(fs.inode[i], sb)
    && forall k | 0 <= k <= NDIRECT ::
         fs.inode[i].addrs[k] == if k < d || (ind && k == NDIRECT) then 0 else fs0.inode[i].addrs[k]
  }

  lemma CutParts(fs0: Fs, fs: Fs, sb: Super, i: nat, d: nat, e: nat, ind: bool, gone: set<Slot>)
    requires Cut(fs0, fs, sb, i, d, e, ind, gone)
    ensures Tied(fs, sb, {}, gone) && Shape(fs, sb) && |fs.disk| == sb.size && |fs.inode| == sb.ninodes
    ensures i < sb.ninodes && InodeOk(fs.inode[i], sb)
  {
  }

  lemma CutNothing(fs: Fs, sb: Super, i: nat)
    requires Tied(fs, sb, {}, {}) && i < sb.ninodes
    ensures Cut(fs, fs, sb, i, 0, 0, false, {})
  {
    hide Owned, Owners, BitsOk;
    assert InodeOk(fs.inode[i], sb);
  }

  lemma SlotOwns(fs: Fs, sb: Super, s: Slot, gone: set<Slot>)
    requires Tied(fs, sb, {}, gone) && Shape(fs, sb) && SlotIn(sb, s) && s !in gone && Addr(fs, sb, s) != 0
    ensures Addr(fs, sb, s) in fs.owner && fs.owner[Addr(fs, sb, s)] == s
  {
    hide Addr;
  }

  lemma OwnerUnique(fs: Fs, sb: Super, gone: set<Slot>, s: Slot)
    requires Tied(fs, sb, {}, gone) && Shape(fs, sb) && SlotIn(sb, s)
    ensures forall c | c in fs.owner && fs.owner[c] == s :: c == Addr(fs, sb, s) && c != 0
  {
    hide Addr, BitsOk;
    ShapeParts(fs, sb);
  }

  /** One more slot is dropped: the block it refers to, if any, leaves the owners. */
  lemma OwnersNext(owner: map<nat, Slot>, owner0: map<nat, Slot>, i: nat, s: Slot, b: nat,
                   d: nat, e: nat, ind: bool, d': nat, e': nat, ind': bool)
    requires owner == OwnersLeft(owner0, i, d, e, ind)
    requires forall c | c in owner && owner[c] == s :: c == b && c != 0
    requires forall t: Slot :: Dropped(t, i, d', e', ind') <==> Dropped(t, i, d, e, ind) || t == s
    ensures b in owner && owner[b] == s ==> owner - {b} == OwnersLeft(owner0, i, d', e', ind')
    ensures b == 0 ==> owner == OwnersLeft(owner0, i, d', e', ind')
  {
    hide Dropped;
    forall c | c in owner0 ensures c in OwnersLeft(owner0, i, d', e', ind') <==> c in owner && owner[c] != s {
    }
  }

  lemma CutEmpty(fs0: Fs, fs: Fs, sb: Super, i: nat, k: nat)
    requires k < NDIRECT && Cut(fs0, fs, sb, i, k, 0, false, {}) && fs.inode[i].addrs[k] == 0
    ensures Cut(fs0, fs, sb, i, k + 1, 0, false, {})
  {
    hide Tied, Shape, Addr, OwnersLeft;
    CutParts(fs0, fs, sb, i, k, 0, false, {});
    SlotAddr(fs, sb, Slot(i, k));
    OwnerUnique(fs, sb, {}, Slot(i, k));
    OwnersNext(fs.owner, fs0.owner, i, Slot(i, k), 0, k, 0, false, k + 1, 0, false);
  }

  lemma CutDirect(fs0: Fs, fs1: Fs, fs2: Fs, fs3: Fs, sb: Super, i: nat, k: nat)
    requires k < NDIRECT && Cut(fs0, fs1, sb, i, k, 0, false, {}) && Shape(fs1, sb) && Addr(fs1, sb, Slot(i, k)) != 0
    requires SameData(fs1, fs2, sb) && fs2.owner == fs1.owner - {Addr(fs1, sb, Slot(i, k))}
    requires Tied(fs2, sb, {}, {} + {Slot(i, k)})
    requires |fs2.inode| == sb.ninodes && |fs2.inode[i].addrs| == NDIRECT + 1
    requires fs3 == Fs(fs2.disk, fs2.inode[i := fs2.inode[i].(addrs := fs2.inode[i].addrs[k := 0])], fs2.owner)
    ensures Cut(fs0, fs3, sb, i, k + 1, 0, false, {})
  {
    hide Tied, Shape, Addr, OwnersLeft;
    var s := Slot(i, k);
    CutParts(fs0, fs1, sb, i, k, 0, false, {});
    SlotAddr(fs1, sb, s);
    SlotOwns(fs1, sb, s, {});
    OwnerUnique(fs1, sb, {}, s);
    OwnersNext(fs1.owner, fs0.owner, i, s, Addr(fs1, sb, s), k, 0, false, k + 1, 0, false);
    ShapeGone(fs2, sb, {} + {s});
    UnsetKeeps(fs2, sb, s, {} + {s});
    assert fs3 == Unset(fs2, sb, s);
    ShapeGone(fs3, sb, {});
    SlotAddr(fs3, sb, s);
  }

  lemma ShapeGone(fs: Fs, sb: Super, gone: set<Slot>)
    requires Tied(fs, sb, {}, gone)
    ensures Shape(fs, sb)
  {
  }

  lemma NoEntries(i: nat)
    ensures Entries(i, 0) == {}
  {
  }

  lemma EntriesNext(i: nat, e: nat)
    ensures Entries(i, e + 1) == Entries(i, e) + {Slot(i, NDIRECT + 1 + e)}
  {
  }

  lemma CutEntryEmpty(fs0: Fs, fs: Fs, sb: Super, i: nat, e: nat)
    requires Cut(fs0, fs, sb, i, NDIRECT, e, false, Entries(i, e)) && e < NINDIRECT
    requires Shape(fs, sb) && Addr(fs, sb, Slot(i, NDIRECT + 1 + e)) == 0
    ensures Cut(fs0, fs, sb, i, NDIRECT, e + 1, false, Entries(i, e + 1))
  {
    hide Shape, Addr, OwnersLeft, Entries, BitsOk;
    var s := Slot(i, NDIRECT + 1 + e);
    EntriesNext(i, e);
    ShapeParts(fs, sb);
    OwnerUnique(fs, sb, Entries(i, e), s);
    OwnersNext(fs.owner, fs0.owner, i, s, 0, NDIRECT, e, false, NDIRECT, e + 1, false);
  }

  lemma CutEntry(fs0: Fs, fs1: Fs, fs2: Fs, sb: Super, i: nat, e: nat, b: nat)
    requires Cut(fs0, fs1, sb, i, NDIRECT, e, false, Entries(i, e)) && e < NINDIRECT
    requires Shape(fs1, sb) && Addr(fs1, sb, Slot(i, NDIRECT + 1 + e)) == b != 0 && b in fs1.owner
    requires SameData(fs1, fs2, sb) && fs2.owner == fs1.owner - {b}
    requires Tied(fs2, sb, {}, Entries(i, e) + {Slot(i, NDIRECT + 1 + e)})
    ensures Cut(fs0, fs2, sb, i, NDIRECT, e + 1, false, Entries(i, e + 1))
  {
    hide Shape, Addr, OwnersLeft, Entries, BitsOk, Tied;
    var s := Slot(i, NDIRECT + 1 + e);
    EntriesNext(i, e);
    ShapeParts(fs1, sb);
    CutParts(fs0, fs1, sb, i, NDIRECT, e, false, Entries(i, e));
    OwnerUnique(fs1, sb, Entries(i, e), s);
    SlotOwns(fs1, sb, s, Entries(i, e));
    OwnersNext(fs1.owner, fs0.owner, i, s, b, NDIRECT, e, false, NDIRECT, e + 1, false);
  }

  lemma CutLast(fs0: Fs, fs1: Fs, fs2: Fs, fs3: Fs, sb: Super, i: nat)
    requires Cut(fs0, fs1, sb, i, NDIRECT, NINDIRECT, false, Entries(i, NINDIRECT)) && Shape(fs1, sb)
    requires Addr(fs1, sb, Slot(i, NDIRECT)) != 0 && Addr(fs1, sb, Slot(i, NDIRECT)) in fs1.owner
    requires SameData(fs1, fs2, sb) && fs2.owner == fs1.owner - {Addr(fs1, sb, Slot(i, NDIRECT))}
    requires Tied(fs2, sb, {}, Entries(i, NINDIRECT) + {Slot(i, NDIRECT)})
    requires |fs2.inode| == sb.ninodes && |fs2.inode[i].addrs| == NDIRECT + 1
    requires fs3 == Fs(fs2.disk, fs2.inode[i := fs2.inode[i].(addrs := fs2.inode[i].addrs[NDIRECT := 0])], fs2.owner)
    ensures Cut(fs0, fs3, sb, i, NDIRECT, NINDIRECT, true, {})
  {
    hide Tied, Shape, Addr, OwnersLeft, Entries;
    var s, gone := Slot(i, NDIRECT), Entries(i, NINDIRECT);
    CutParts(fs0, fs1, sb, i, NDIRECT, NINDIRECT, false, gone);
    OwnerUnique(fs1, sb, gone, s);
    SlotOwns(fs1, sb, s, gone);
    OwnersNext(fs1.owner, fs0.owner, i, s, Addr(fs1, sb, s), NDIRECT, NINDIRECT, false, NDIRECT, NINDIRECT, true);
    ShapeGone(fs2, sb, gone + {s});
    UnsetKeeps(fs2, sb, s, gone + {s});
    assert fs3 == Unset(fs2, sb, s);
    ShapeGone(fs3, sb, {});
    SlotAddr(fs3, sb, s);
  }

  lemma CutNoIndirect(fs0: Fs, fs: Fs, sb: Super, i: nat)
    requires Cut(fs0, fs, sb, i, NDIRECT, 0, false, {}) && fs.inode[i].addrs[NDIRECT] == 0
    ensures Cut(fs0, fs, sb, i, NDIRECT, NINDIRECT, true, {})
  {
    hide BitsOk, Shape, Addr;
    CutParts(fs0, fs, sb, i, NDIRECT, 0, false, {});
    ShapeParts(fs, sb);
    forall b | b in fs.owner ensures !Dropped(fs.owner[b], i, NDIRECT, NINDIRECT, true) {
      var s := fs.owner[b];
      SlotAddr(fs, sb, s);
      if s.inum == i && s.k > NDIRECT {
        EmptyIndirect(fs, sb, i, s.k);
      }
    }
  }

  /** The inode blocks may change, and nothing else. */
  ghost predicate LowChanged(fs: Fs, fs': Fs, sb: Super) {
    && fs'.inode == fs.inode && fs'.owner == fs.owner && |fs'.disk| == |fs.disk| == sb.size
    && forall b | sb.bmapstart <= b < sb.size :: fs'.disk[b] == fs.disk[b]
  }

  lemma LowChangedBytes(fs: Fs, fs': Fs, sb: Super)
    requires Shape(fs, sb) && Shape(fs', sb) && LowChanged(fs, fs', sb) && Tied(fs, sb, {}, {})
    ensures forall s | SlotIn(sb, s) :: Addr(fs', sb, s) == Addr(fs, sb, s)
    ensures forall i: nat, p: nat | i < sb.ninodes && p < MAXBYTES && Addr(fs, sb, BlockSlot(i, p)) != 0 ::
      FileByte(fs', sb, i, p) == FileByte(fs, sb, i, p)
  {
    hide Addr, Shape, BitsOk;
    ShapeParts(fs, sb);
    LowAddrs(fs, fs', sb);
    forall i: nat, p: nat | i < sb.ninodes && p < MAXBYTES && Addr(fs, sb, BlockSlot(i, p)) != 0
      ensures FileByte(fs', sb, i, p) == FileByte(fs, sb, i, p)
    {
      SlotOfIn(sb, i, p);
      AddrInDisk(fs, sb, BlockSlot(i, p));
    }
  }

  lemma AddrInDisk(fs: Fs, sb: Super, s: Slot)
    requires Tied(fs, sb, {}, {}) && Shape(fs, sb) && SlotIn(sb, s) && Addr(fs, sb, s) != 0
    ensures DataBlock(sb, Addr(fs, sb, s)) && Addr(fs, sb, s) < |fs.disk| && sb.bmapstart <= Addr(fs, sb, s)
    ensures Addr(fs, sb, s) in fs.owner && fs.owner[Addr(fs, sb, s)] == s
  {
    hide Addr, BitsOk;
    ShapeParts(fs, sb);
  }

  lemma ReadChunk(fs: Fs, sb: Super, i: nat, off: nat, m: nat, a: nat)
    requires Shape(fs, sb) && i < sb.ninodes && fs.inode[i].size <= MAXBYTES
    requires off < MAXBYTES && 0 < m && off % BSIZE + m <= BSIZE && off + m <= fs.inode[i].size
    requires a == Addr(fs, sb, BlockSlot(i, off)) && 0 < a < |fs.disk|
    ensures Content(fs, sb, i)[off..off + m] == fs.disk[a][off % BSIZE..off % BSIZE + m]
  {
    hide Addr, Shape;
    forall p | off <= p < off + m ensures Content(fs, sb, i)[p] == fs.disk[a][off % BSIZE + (p - off)] {
      InChunk(p, off, m);
      SameBlock(i, off, i, p);
    }
  }

  /** itrunc after its loops: the size is zeroed. */
  lemma TruncSized(fs: Fs, fs1: Fs, fs2: Fs, sb: Super, i: nat)
    requires FilesOk(fs, sb) && Shape(fs, sb) && i < sb.ninodes && OnDisk(fs, sb, {i})
    requires Cut(fs, fs1, sb, i, NDIRECT, NINDIRECT, true, {}) && |fs1.inode| == sb.ninodes
    requires fs2 == Fs(fs1.disk, fs1.inode[i := fs1.inode[i].(size := 0)], fs1.owner)
    ensures Tied(fs2, sb, {}, {}) && Shape(fs2, sb) && OnDisk(fs2, sb, {i}) && OthersSame(fs, fs2, sb, i)
    ensures fs2.owner == map b | b in fs.owner && fs.owner[b].inum != i :: fs.owner[b]
    ensures fs2.inode[i] == fs.inode[i].(size := 0, addrs := seq(NDIRECT + 1, (k: int) => 0))
  {
    hide Tied, Shape, Addr, OnDisk, OthersSame, LoadInode, FileByte;
    SizeKeeps(fs1, fs2, sb, i);
    CutOthers(fs, fs1, sb, i);
    SizeKeepsOthers(fs, fs1, fs2, sb, i);
    CutOnDisk(fs, fs1, fs2, sb, i);
    CutOwners(fs, fs1, sb, i);
    assert fs2.inode[i].addrs == seq(NDIRECT + 1, (k: int) => 0);
  }

  /** A change of size is no change to the block map. */
  lemma SizeKeeps(fs: Fs, fs': Fs, sb: Super, i: nat)
    requires Tied(fs, sb, {}, {}) && i < sb.ninodes == |fs.inode| && |fs'.inode| == sb.ninodes
    requires fs'.inode[i].size <= MAXBYTES
    requires fs' == Fs(fs.disk, fs.inode[i := fs.inode[i].(size := fs'.inode[i].size)], fs.owner)
    ensures Tied(fs', sb, {}, {}) && Shape(fs, sb) && Shape(fs', sb)
    ensures forall s | SlotIn(sb, s) :: Addr(fs', sb, s) == Addr(fs, sb, s)
  {
    hide Addr, BitsOk;
    forall j | 0 <= j < sb.ninodes ensures InodeOk(fs'.inode[j], sb) {
      assert InodeOk(fs.inode[j], sb);
    }
    SizeAddrs(fs, fs', sb, i);
  }

  lemma SizeAddrs(fs: Fs, fs': Fs, sb: Super, i: nat)
    requires Shape(fs, sb) && Shape(fs', sb) && fs'.disk == fs.disk
    requires forall j | 0 <= j < sb.ninodes :: fs'.inode[j].addrs == fs.inode[j].addrs
    ensures forall s | SlotIn(sb, s) :: Addr(fs', sb, s) == Addr(fs, sb, s)
  {
  }

  lemma SizeKeepsOthers(fs0: Fs, fs: Fs, fs': Fs, sb: Super, i: nat)
    requires Shape(fs0, sb) && Shape(fs, sb) && Shape(fs', sb) && i < sb.ninodes && OthersSame(fs0, fs, sb, i)
    requires fs'.disk == fs.disk && forall j | 0 <= j < sb.ninodes && j != i :: fs'.inode[j] == fs.inode[j]
    requires forall s | SlotIn(sb, s) :: Addr(fs', sb, s) == Addr(fs, sb, s)
    ensures OthersSame(fs0, fs', sb, i)
  {
    hide Addr, Shape;
    ShapeParts(fs0, sb);
    ShapeParts(fs, sb);
    SlotsIn(sb);
    forall j, p | 0 <= j < sb.ninodes && j != i && 0 <= p < fs0.inode[j].size && p < MAXBYTES
      ensures Addr(fs', sb, BlockSlot(j, p)) != 0 && FileByte(fs', sb, j, p) == FileByte(fs0, sb, j, p)
    {
      assert FileByte(fs', sb, j, p) == FileByte(fs, sb, j, p);
    }
  }

  lemma CutOthers(fs0: Fs, fs: Fs, sb: Super, i: nat)
    requires FilesOk(fs0, sb) && Shape(fs0, sb) && Shape(fs, sb) && Cut(fs0, fs, sb, i, NDIRECT, NINDIRECT, true, {})
    ensures OthersSame(fs0, fs, sb, i)
  {
    hide Tied, Addr, Shape;
    ShapeParts(fs0, sb);
    ShapeParts(fs, sb);
    SlotsIn(sb);
    forall j, p | 0 <= j < sb.ninodes && j != i && 0 <= p < fs0.inode[j].size && p < MAXBYTES
      ensures Addr(fs, sb, BlockSlot(j, p)) != 0 && FileByte(fs, sb, j, p) == FileByte(fs0, sb, j, p)
    {
      SameFileAddr(fs0, fs, sb, BlockSlot(j, p));
      AddrInDisk(fs0, sb, BlockSlot(j, p));
    }
  }

  lemma SameFileAddr(fs0: Fs, fs: Fs, sb: Super, s: Slot)
    requires Shape(fs0, sb) && Shape(fs, sb) && SlotIn(sb, s) && fs.inode[s.inum] == fs0.inode[s.inum]
    requires forall b | sb.datastart <= b < sb.size :: fs.disk[b] == fs0.disk[b]
    ensures Addr(fs, sb, s) == Addr(fs0, sb, s)
  {
    assert InodeOk(fs.inode[s.inum], sb);
  }

  lemma CutOnDisk(fs0: Fs, fs: Fs, fs': Fs, sb: Super, i: nat)
    requires Shape(fs0, sb) && Shape(fs', sb) && OnDisk(fs0, sb, {i}) && Cut(fs0, fs, sb, i, NDIRECT, NINDIRECT, true, {})
    requires fs'.disk == fs.disk && |fs.inode| == sb.ninodes
    requires forall j | 0 <= j < sb.ninodes && j != i :: fs'.inode[j] == fs.inode[j]
    ensures OnDisk(fs', sb, {i})
  {
    hide Tied, Shape, OnDisk, OwnersLeft, InodeOk;
    ShapeParts(fs0, sb);
    ShapeParts(fs', sb);
    OnDiskKept(fs0, fs', sb, i);
  }

  lemma OnDiskKept(fs0: Fs, fs: Fs, sb: Super, i: nat)
    requires Shape(fs0, sb) && Shape(fs, sb) && OnDisk(fs0, sb, {i}) && |fs0.inode| == |fs.inode| == sb.ninodes
    requires |fs.disk| == |fs0.disk| == sb.size && sb.bmapstart <= sb.size
    requires forall b | 0 <= b < sb.bmapstart :: fs.disk[b] == fs0.disk[b]
    requires forall j | 0 <= j < sb.ninodes && j != i :: fs.inode[j] == fs0.inode[j]
    ensures OnDisk(fs, sb, {i})
  {
    hide Shape, LoadInode, InodeBlock;
    ShapeParts(fs, sb);
    forall j | 0 <= j < sb.ninodes && j != i
      ensures InodeBlock(sb, j) < |fs.disk| && LoadInode(fs.disk[InodeBlock(sb, j)], j % IPB) == fs.inode[j]
    {
      InodeBlockLow(sb, j);
    }
  }

  lemma CutOwners(fs0: Fs, fs: Fs, sb: Super, i: nat)
    requires Cut(fs0, fs, sb, i, NDIRECT, NINDIRECT, true, {})
    ensures fs.owner == map b | b in fs0.owner && fs0.owner[b].inum != i :: fs0.owner[b]
  {
    hide Addr, BitsOk, Shape;
    forall b | b in fs0.owner ensures Dropped(fs0.owner[b], i, NDIRECT, NINDIRECT, true) <==> fs0.owner[b].inum == i {
    }
  }

  lemma TruncDone(fs: Fs, fs2: Fs, fs3: Fs, sb: Super, i: nat)
    requires Shape(fs, sb) && Shape(fs2, sb) && Shape(fs3, sb) && i < sb.ninodes && FilesOk(fs, sb)
    requires Tied(fs2, sb, {}, {}) && Tied(fs3, sb, {}, {}) && LowChanged(fs2, fs3, sb)
    requires OthersSame(fs, fs2, sb, i) && fs2.inode[i].size == 0
    ensures FilesOk(fs3, sb) && OthersSame(fs, fs3, sb, i)
  {
    hide Tied, Shape, Addr, FileByte;
    ShapeParts(fs, sb);
    ShapeParts(fs2, sb);
    LowChangedBytes(fs2, fs3, sb);
    SlotsIn(sb);
    forall j | 0 <= j < sb.ninodes ensures Mapped(fs3, sb, j, fs3.inode[j].size) {
      if j != i {
        OthersContent(fs, fs2, sb, i, j);
      }
    }
  }

  lemma SlotsIn(sb: Super)
    ensures forall i: nat, p: nat | i < sb.ninodes && p < MAXBYTES :: SlotIn(sb, BlockSlot(i, p))
  {
    forall i: nat, p: nat | i < sb.ninodes && p < MAXBYTES ensures SlotIn(sb, BlockSlot(i, p)) {
      SlotOfIn(sb, i, p);
    }
  }

  ghost predicate DiskFull(disk: seq<Block>, sb: Super) {
    forall c | 0 <= c < sb.size :: BitAt(disk, sb, c)
  }

  /** How much one round copies at an offset: to the end of the block or of the request. */
  function Room(at: nat, left: nat): nat {
    if left < BSIZE - at % BSIZE then left else BSIZE - at % BSIZE
  }

  lemma RoomAtMost(at: nat, left: nat)
    ensures Room(at, left) <= left
  {
  }

  /** The number of blocks that x bytes reach into. */
  function Ceil(x: nat): nat {
    (x + BSIZE - 1) / BSIZE
  }

  /** Data blocks, bitmap blocks for data blocks, indirect block and its bitmap block, inode block. */
  function LogBound(off: nat, n: nat): int {
    (Ceil(off + n) - off / BSIZE) + (Ceil(off + n) - Ceil(off)) + 3
  }

  /** Blocks logged so far, by reason. */
  datatype Logs = Logs(data: set<nat>, bits: set<nat>)

  ghost function MoreLogs(sb: Super, logs: Logs, addr: nat, newly: bool): Logs {
    if addr == 0 then logs
    else Logs(logs.data + {addr}, if newly then logs.bits + {BitmapOf(sb, addr)} else logs.bits)
  }

  ghost predicate Logged(logged0: set<nat>, logged: set<nat>, fs: Fs, sb: Super, i: nat, logs: Logs)
    requires Shape(fs, sb) && i < sb.ninodes
  {
    && logged <= logged0 + logs.data + logs.bits + LogOf(sb, Addr(fs, sb, Slot(i, NDIRECT)))
    && PastLog(sb, logs.data) && PastLog(sb, logs.bits)
  }

  /** Blocks of the file system proper: inodes, bitmap and data, which lie behind the log. */
  ghost predicate PastLog(sb: Super, bs: set<nat>) {
    forall b | b in bs :: sb.inodestart <= b < sb.size
  }

  ghost predicate Counted(logs: Logs, off: nat, tot: nat, n: nat) {
    && |logs.data| <= Ceil(off + tot) - off / BSIZE && |logs.bits| <= Ceil(off + tot) - Ceil(off)
    && (tot == 0 ==> logs == Logs({}, {}))
    && (0 < tot < n ==> (off + tot) % BSIZE == 0)
  }

  /** Only the size and the blocks differ. */
  ghost predicate SameFields(n: Inode, n': Inode) {
    n' == n.(size := n'.size, addrs := n'.addrs)
  }

  /** The state of writei's loop: `data` is written at off, the size and the inode's copy on the disk
      are still to be updated. */
  ghost predicate Writing(fs0: Fs, fs: Fs, sb: Super, i: nat, off: nat, data: seq<byte>) {
    && FilesOk(fs0, sb) && Shape(fs0, sb) && Tied(fs, sb, {}, {}) && Shape(fs, sb) && i < sb.ninodes
    && |fs.inode| == |fs0.inode| == sb.ninodes && fs0.inode[i].size <= MAXBYTES
    && Overlaid(fs0, fs, sb, i, fs0.inode[i].size, off, data) && OthersSame(fs0, fs, sb, i) && OnDisk(fs, sb, {i})
    && fs.inode[i] == fs0.inode[i].(addrs := fs.inode[i].addrs)
  }

  lemma WritingNothing(fs: Fs, sb: Super, i: nat, off: nat)
    requires FilesOk(fs, sb) && Shape(fs, sb) && OnDisk(fs, sb, {}) && i < sb.ninodes
    ensures OthersSame(fs, fs, sb, i) && fs.inode[i].size <= MAXBYTES
    ensures off <= fs.inode[i].size ==> Writing(fs, fs, sb, i, off, [])
  {
    hide Tied, Addr, FileByte, LoadInode;
    SlotAddr(fs, sb, Slot(i, 0));
    forall j, p | 0 <= j < sb.ninodes && j != i && 0 <= p < fs.inode[j].size && p < MAXBYTES
      ensures Addr(fs, sb, BlockSlot(j, p)) != 0
    {
    }
  }

  lemma ChunkFits(off: nat, tot: nat, n: nat, m: nat)
    requires tot < n && off + n <= MAXBYTES && m == Room(off + tot, n - tot)
    ensures 0 < m && (off + tot) % BSIZE + m <= BSIZE && tot + m <= n && (off + tot) / BSIZE < MAXFILE
    ensures tot + m < n ==> (off + tot + m) % BSIZE == 0
  {
  }

  lemma WritingMore(fs0: Fs, fs: Fs, fs': Fs, sb: Super, i: nat, off: nat, data: seq<byte>)
    requires Writing(fs0, fs, sb, i, off, data) && Shape(fs, sb) && Shape(fs', sb) && Tied(fs', sb, {}, {})
    requires Grows(fs, fs', sb)
    requires forall t | SlotIn(sb, t) && t.inum != i :: Addr(fs', sb, t) == Addr(fs, sb, t)
    ensures Writing(fs0, fs', sb, i, off, data)
  {
    hide Tied, Addr, FileByte, LoadInode, OnDisk, Overlaid, OthersSame, Shape;
    ShapeParts(fs, sb);
    ShapeParts(fs', sb);
    OthersUntouched(fs, fs', sb, i);
    GrowsKeepsOverlaid(fs0, fs, fs', sb, i, fs0.inode[i].size, off, data);
    GrowsKeepsOthers(fs0, fs, fs', sb, i);
    OnDiskKept(fs, fs', sb, i);
  }

  lemma OthersUntouched(fs: Fs, fs': Fs, sb: Super, i: nat)
    requires Shape(fs, sb) && Shape(fs', sb) && Grows(fs, fs', sb) && |fs.inode| == |fs'.inode| == sb.ninodes
    requires forall t | SlotIn(sb, t) && t.inum != i :: Addr(fs', sb, t) == Addr(fs, sb, t)
    ensures forall j | 0 <= j < sb.ninodes && j != i :: fs'.inode[j] == fs.inode[j]
  {
    hide Addr, Shape;
    forall j | 0 <= j < sb.ninodes && j != i ensures fs'.inode[j] == fs.inode[j] {
      forall k | 0 <= k <= NDIRECT ensures |fs.inode[j].addrs| == |fs'.inode[j].addrs| == NDIRECT + 1
                                   ensures fs'.inode[j].addrs[k] == fs.inode[j].addrs[k] {
        SlotAddr(fs, sb, Slot(j, k));
        SlotAddr(fs', sb, Slot(j, k));
      }
      SlotAddr(fs, sb, Slot(j, 0));
      SlotAddr(fs', sb, Slot(j, 0));
      assert fs'.inode[j].addrs == fs.inode[j].addrs;
    }
  }

  lemma WritingPut(fs0: Fs, fs: Fs, fs': Fs, sb: Super, i: nat, off: nat, data: seq<byte>, chunk: seq<byte>, a: nat)
    requires Writing(fs0, fs, sb, i, off, data) && Shape(fs, sb)
    requires |chunk| > 0 && (off + |data|) % BSIZE + |chunk| <= BSIZE && off + |data| + |chunk| <= MAXBYTES
    requires SlotIn(sb, BlockSlot(i, off + |data|)) && a == Addr(fs, sb, BlockSlot(i, off + |data|)) != 0 && a < |fs.disk|
    requires fs' == Fs(fs.disk[a := Patch(fs.disk[a], (off + |data|) % BSIZE, chunk)], fs.inode, fs.owner)
    ensures Writing(fs0, fs', sb, i, off, data + chunk)
    ensures Shape(fs', sb) && Addr(fs', sb, Slot(i, NDIRECT)) == Addr(fs, sb, Slot(i, NDIRECT))
  {
    hide Tied, Addr, FileByte, LoadInode, OnDisk, Overlaid, OthersSame, Shape;
    ShapeParts(fs, sb);
    AddrInDisk(fs, sb, BlockSlot(i, off + |data|));
    SlotOfIn(sb, i, off + |data|);
    DataWriteKeeps(fs, fs', sb, a, Patch(fs.disk[a], (off + |data|) % BSIZE, chunk));
    WriteOverlays(fs0, fs, fs', sb, i, fs0.inode[i].size, off, data, chunk, a);
    WriteKeepsOthers(fs0, fs, fs', sb, i, off + |data|, chunk, a);
    OnDiskKept(fs, fs', sb, i);
  }

  lemma WritingSized(fs0: Fs, fs: Fs, fs': Fs, sb: Super, i: nat, off: nat, data: seq<byte>)
    requires Writing(fs0, fs, sb, i, off, data)
    requires |fs'.inode| == sb.ninodes && fs'.inode[i].size == if fs0.inode[i].size < off + |data| then off + |data| else fs0.inode[i].size
    requires fs' == Fs(fs.disk, fs.inode[i := fs.inode[i].(size := fs'.inode[i].size)], fs.owner)
    ensures Tied(fs', sb, {}, {}) && Shape(fs', sb) && OnDisk(fs', sb, {i}) && OthersSame(fs0, fs', sb, i)
    ensures Overlaid(fs0, fs', sb, i, fs0.inode[i].size, off, data)
  {
    hide Tied, Addr, LoadInode, OnDisk, OthersSame, Shape, FileByte;
    ShapeParts(fs, sb);
    SizeKeeps(fs, fs', sb, i);
    SizeKeepsOthers(fs0, fs, fs', sb, i);
    OnDiskKept(fs, fs', sb, i);
    SameBytes(fs, fs', sb);
    SlotsIn(sb);
  }

  lemma SameBytes(fs: Fs, fs': Fs, sb: Super)
    requires Shape(fs, sb) && Shape(fs', sb) && fs'.disk == fs.disk
    requires forall s | SlotIn(sb, s) :: Addr(fs', sb, s) == Addr(fs, sb, s)
    ensures forall i: nat, p: nat | i < sb.ninodes && p < MAXBYTES :: FileByte(fs', sb, i, p) == FileByte(fs, sb, i, p)
  {
    hide Addr, Shape;
    SlotsIn(sb);
  }

  lemma WritingDone(fs0: Fs, fs: Fs, fs': Fs, sb: Super, i: nat, off: nat, data: seq<byte>)
    requires FilesOk(fs0, sb) && Shape(fs0, sb) && Shape(fs, sb) && Shape(fs', sb) && i < sb.ninodes
    requires Tied(fs, sb, {}, {}) && Tied(fs', sb, {}, {}) && LowChanged(fs, fs', sb)
    requires OthersSame(fs0, fs, sb, i) && fs0.inode[i].size <= MAXBYTES
    requires Overlaid(fs0, fs, sb, i, fs0.inode[i].size, off, data)
    requires fs.inode[i].size == if fs0.inode[i].size < off + |data| then off + |data| else fs0.inode[i].size
    ensures FilesOk(fs', sb) && OthersSame(fs0, fs', sb, i)
    ensures fs'.inode[i].size <= MAXBYTES && off <= fs0.inode[i].size
    ensures Content(fs', sb, i) == Splice(Content(fs0, sb, i), off, data)
  {
    hide Tied, Shape, Addr, FileByte, Content, Splice;
    ShapeParts(fs0, sb);
    ShapeParts(fs, sb);
    LowChangedBytes(fs, fs', sb);
    SlotsIn(sb);
    assert Overlaid(fs0, fs', sb, i, fs0.inode[i].size, off, data);
    OverlaidContent(fs0, fs', sb, i, off, data);
    forall j | 0 <= j < sb.ninodes ensures Mapped(fs', sb, j, fs'.inode[j].size) {
      if j != i {
        OthersContent(fs0, fs, sb, i, j);
      }
    }
  }

  /** A chunk of at most 3072 bytes logs at most ten blocks, whatever its offset. */
  lemma ChunkLogs(off: nat, n: nat)
    requires n <= 3 * BSIZE
    ensures LogBound(off, n) <= MAXOPBLOCKS
  {
  }

  /** A file has been overwritten or extended by bytes at an offset; past its end nothing is written. */
  ghost predicate Wrote(fs: Fs, fs': Fs, sb: Super, i: nat, off: nat, data: seq<byte>) {
    && Shape(fs, sb) && Shape(fs', sb) && FilesOk(fs', sb) && OnDisk(fs', sb, {}) && i < sb.ninodes == |fs.inode| == |fs'.inode|
    && OthersSame(fs, fs', sb, i) && SameFields(fs.inode[i], fs'.inode[i])
    && fs.inode[i].size <= MAXBYTES && fs'.inode[i].size <= MAXBYTES
    && if off > fs.inode[i].size then data == [] && fs' == fs
       else off + |data| <= fs'.inode[i].size && Content(fs', sb, i) == Splice(Content(fs, sb, i), off, data)
  }

  lemma WroteNothing(fs: Fs, sb: Super, i: nat, off: nat)
    requires FilesOk(fs, sb) && Shape(fs, sb) && OnDisk(fs, sb, {}) && i < sb.ninodes
    ensures Wrote(fs, fs, sb, i, off, [])
  {
    hide FilesOk, Shape, OnDisk, OthersSame;
    ShapeParts(fs, sb);
    WritingNothing(fs, sb, i, off);
  }

  lemma WroteParts(fs: Fs, fs': Fs, sb: Super, i: nat, off: nat, data: seq<byte>)
    requires Wrote(fs, fs', sb, i, off, data)
    ensures Shape(fs, sb) && Shape(fs', sb) && FilesOk(fs', sb) && OnDisk(fs', sb, {}) && i < sb.ninodes == |fs.inode| == |fs'.inode|
    ensures OthersSame(fs, fs', sb, i) && SameFields(fs.inode[i], fs'.inode[i])
    ensures fs.inode[i].size <= MAXBYTES && fs'.inode[i].size <= MAXBYTES
    ensures off > fs.inode[i].size ==> data == [] && fs' == fs
    ensures off <= fs.inode[i].size ==>
      off + |data| <= fs'.inode[i].size && Content(fs', sb, i) == Splice(Content(fs, sb, i), off, data)
  {
    hide FilesOk, Shape, OnDisk, OthersSame, Content, Splice;
  }

  /** One more chunk, as writei leaves it. */
  lemma WroteMore(fs: Fs, fs1: Fs, fs2: Fs, sb: Super, i: nat, off: nat, src: seq<byte>, done: nat, r: nat)
    requires done + r <= |src| && Wrote(fs, fs1, sb, i, off, src[..done])
    requires Shape(fs1, sb) && Shape(fs2, sb) && FilesOk(fs2, sb) && OnDisk(fs2, sb, {}) && |fs2.inode| == |fs1.inode| == sb.ninodes
    requires OthersSame(fs1, fs2, sb, i) && SameFields(fs1.inode[i], fs2.inode[i]) && fs2.inode[i].size <= MAXBYTES
    requires fs1.inode[i].size <= MAXBYTES
    requires
      || (fs2 == fs1 && r == 0)
      || (off + done <= fs1.inode[i].size && Content(fs2, sb, i) == Splice(Content(fs1, sb, i), off + done, src[done..][..r]))
    ensures Wrote(fs, fs2, sb, i, off, src[..done + r])
  {
    hide FilesOk, Shape, OnDisk, OthersSame, Content;
    OthersTrans(fs, fs1, fs2, sb, i);
    if off <= fs.inode[i].size {
      SpliceMore(Content(fs, sb, i), off, src, done, r);
    }
  }

  /** Splicing twice in a row is splicing the whole. */
  lemma SpliceMore(c: seq<byte>, off: nat, src: seq<byte>, done: nat, r: nat)
    requires off <= |c| && done + r <= |src|
    ensures Splice(Splice(c, off, src[..done]), off + done, src[done..][..r]) == Splice(c, off, src[..done + r])
  {
    hide Splice;
  }

  lemma OthersTrans(fs: Fs, fs1: Fs, fs2: Fs, sb: Super, i: nat)
    requires Shape(fs, sb) && Shape(fs1, sb) && Shape(fs2, sb) && OthersSame(fs, fs1, sb, i) && OthersSame(fs1, fs2, sb, i)
    ensures OthersSame(fs, fs2, sb, i)
  {
    hide Addr, Shape, FileByte;
    ShapeParts(fs, sb);
    ShapeParts(fs1, sb);
  }

  lemma LogBoundPositive(off: nat, n: nat)
    ensures LogBound(off, n) >= 0
  {
    CeilMono(off, off + n);
  }

  lemma AddrIsLogged(sb: Super, logs: Logs, addr: nat, newly: bool)
    requires addr != 0
    ensures addr in MoreLogs(sb, logs, addr, newly).data
  {
  }

  lemma LoggedNothing(fs: Fs, sb: Super, i: nat, off: nat, logged: set<nat>)
    requires Writing(fs, fs, sb, i, off, [])
    ensures Shape(fs, sb) && i < sb.ninodes && Logged(logged, logged, fs, sb, i, Logs({}, {}))
  {
    hide Addr;
  }

  lemma FullKept(fs: Fs, fs': Fs, sb: Super)
    requires Layout(sb) && LowChanged(fs, fs', sb)
    ensures DiskFull(fs.disk, sb) ==> DiskFull(fs'.disk, sb)
  {
    hide Bit;
    if DiskFull(fs.disk, sb) {
      forall c | 0 <= c < sb.size ensures BitAt(fs'.disk, sb, c) {
        BitmapBlock(sb, c);
        assert BitAt(fs.disk, sb, c);
      }
    }
  }

  lemma CountedNothing(off: nat, n: nat)
    ensures Counted(Logs({}, {}), off, 0, n)
  {
  }

  /** If writing starts inside a block, that block is there already. */
  lemma FirstIsThere(fs0: Fs, fs: Fs, sb: Super, i: nat, off: nat, data: seq<byte>)
    requires Writing(fs0, fs, sb, i, off, data) && Shape(fs, sb) && off + |data| < MAXBYTES
    requires SlotIn(sb, BlockSlot(i, off + |data|))
    ensures data == [] && off % BSIZE != 0 ==> Addr(fs, sb, BlockSlot(i, off + |data|)) != 0
  {
    hide Tied, Shape, Addr, FileByte, OnDisk, OthersSame;
    if data == [] && off % BSIZE != 0 {
      SameBlock(i, off - 1, i, off);
      assert Addr(fs, sb, BlockSlot(i, off - 1)) != 0;
    }
  }

  lemma CountedMore(logs: Logs, logs': Logs, sb: Super, addr: nat, newly: bool, off: nat, tot: nat, m: nat, n: nat)
    requires Counted(logs, off, tot, n) && tot < n && logs' == MoreLogs(sb, logs, addr, newly)
    requires 0 < m && (off + tot) % BSIZE + m <= BSIZE && tot + m <= n
    requires tot + m < n ==> (off + tot + m) % BSIZE == 0
    requires tot == 0 && off % BSIZE != 0 ==> !newly
    ensures Counted(logs', off, tot + m, n)
  {
    CeilNext(off + tot, m);
    assert |logs'.data| <= |logs.data| + 1 && |logs'.bits| <= |logs.bits| + if newly then 1 else 0;
  }

  lemma CeilNext(at: nat, m: nat)
    requires 0 < m && at % BSIZE + m <= BSIZE
    ensures Ceil(at + m) == at / BSIZE + 1
    ensures Ceil(at) == if at % BSIZE == 0 then at / BSIZE else at / BSIZE + 1
  {
  }

  /** A round's bmap logs at most the new data block and its bitmap block, besides the indirect block
      and its bitmap block. */
  lemma LoggedMore(logged0: set<nat>, logged: set<nat>, logged': set<nat>, fs: Fs, fs': Fs, sb: Super, i: nat,
                   logs: Logs, logs': Logs, addr: nat, newly: bool)
    requires Shape(fs, sb) && Shape(fs', sb) && i < sb.ninodes && Grows(fs, fs', sb)
    requires Logged(logged0, logged, fs, sb, i, logs) && logs' == MoreLogs(sb, logs, addr, newly)
    requires logged' <= logged + LogOf(sb, addr) + LogOf(sb, Addr(fs', sb, Slot(i, NDIRECT)))
    requires !newly ==> logged' == logged
    requires addr == 0 || DataBlock(sb, addr)
    ensures Logged(logged0, logged', fs', sb, i, logs')
  {
    hide Addr, Shape, Layout, BitmapOf;
    ShapeParts(fs, sb);
    PartsOrder(sb);
    BitmapPast(sb, addr);
    var s := Slot(i, NDIRECT);
    assert Addr(fs, sb, s) != 0 ==> Addr(fs', sb, s) == Addr(fs, sb, s);
  }

  lemma BitmapPast(sb: Super, b: nat)
    requires Layout(sb)
    ensures b < sb.size ==> PastLog(sb, {BitmapOf(sb, b)})
  {
    if b < sb.size {
      BitmapBlock(sb, b);
    }
  }

  lemma LogsPast(logged0: set<nat>, logged: set<nat>, fs: Fs, sb: Super, i: nat, logs: Logs)
    requires Shape(fs, sb) && i < sb.ninodes && Logged(logged0, logged, fs, sb, i, logs) && PastLog(sb, logged0)
    ensures PastLog(sb, logged + {InodeBlock(sb, i)})
  {
    hide InodeBlock, BitmapOf, Shape, Addr, Layout;
    ShapeParts(fs, sb);
    PartsOrder(sb);
    IndirectIn(fs, sb, i);
    BitmapPast(sb, Addr(fs, sb, Slot(i, NDIRECT)));
    InodeBlockIn(sb, i);
  }

  lemma PartsOrder(sb: Super)
    requires Layout(sb)
    ensures sb.inodestart <= sb.bmapstart <= sb.datastart <= sb.size
  {
  }

  lemma IndirectIn(fs: Fs, sb: Super, i: nat)
    requires Shape(fs, sb) && i < sb.ninodes
    ensures var a := Addr(fs, sb, Slot(i, NDIRECT)); a == 0 || DataBlock(sb, a)
  {
    SlotAddr(fs, sb, Slot(i, NDIRECT));
  }

  lemma LoggedPut(logged0: set<nat>, logged: set<nat>, fs: Fs, fs': Fs, sb: Super, i: nat, logs: Logs, addr: nat)
    requires Shape(fs, sb) && Shape(fs', sb) && i < sb.ninodes && Logged(logged0, logged, fs, sb, i, logs)
    requires addr in logs.data && Addr(fs', sb, Slot(i, NDIRECT)) == Addr(fs, sb, Slot(i, NDIRECT))
    ensures Logged(logged0, logged + {addr}, fs', sb, i, logs)
  {
    hide Addr, Shape;
  }

  lemma LogsBounded(logged0: set<nat>, logged: set<nat>, logged': set<nat>, fs: Fs, sb: Super, i: nat, logs: Logs,
                    off: nat, reach: nat, n: nat)
    requires Shape(fs, sb) && i < sb.ninodes && Logged(logged0, logged, fs, sb, i, logs)
    requires Counted(logs, off, reach, n) && reach <= n && logged' == logged + {InodeBlock(sb, i)}
    ensures logged0 == {} ==> |logged'| <= LogBound(off, n)
  {
    hide Addr, Shape;
    if logged0 == {} {
      var ind := LogOf(sb, Addr(fs, sb, Slot(i, NDIRECT)));
      assert |ind| <= 2;
      assert logged <= logs.data + logs.bits + ind;
      SubsetSize(logged, logs.data + logs.bits + ind);
      UnionSize(logs.data, logs.bits);
      UnionSize(logs.data + logs.bits, ind);
      UnionSize(logged, {InodeBlock(sb, i)});
      CeilMono(off + reach, off + n);
    }
  }

  lemma CeilMono(a: nat, b: nat)
    requires a <= b
    ensures Ceil(a) <= Ceil(b)
  {
  }

  ghost predicate BlockStart(b: nat) {
    b % BPB == 0
  }

  lemma NextStart(b: nat)
    requires BlockStart(b)
    ensures BlockStart(b + BPB)
  {
  }

  lemma ShapeOf(fs: Fs, sb: Super)
    requires Tied(fs, sb, {}, {})
    ensures Shape(fs, sb) && Layout(sb) && |fs.disk| == sb.size && BlockStart(0)
  {
  }

  lemma BitInBlock(disk: seq<Block>, sb: Super, b: nat, bi: nat)
    requires Layout(sb) && |disk| == sb.size && BlockStart(b) && bi < BPB && b + bi < sb.size
    ensures (b + bi) / BPB == b / BPB && (b + bi) % BPB == bi && sb.bmapstart + b / BPB < sb.datastart
    ensures BitAt(disk, sb, b + bi) <==> Bit(disk[sb.bmapstart + b / BPB], bi)
  {
    BitmapBlock(sb, b + bi);
  }
}
