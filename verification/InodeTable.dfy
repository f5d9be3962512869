/** The table of in-memory inodes, and the life of an inode from ialloc to the iput that frees it.

    `Files.inode` is what a valid table entry holds. Between operations it is also what is on the disk.
 */
module InodeTable {
  import opened Params
  import opened Collections
  import opened Blocks
  import opened BlockMap
  import opened FileContents
  import opened Inodes
  import opened FileLayer

  datatype Entry = Entry(dev: nat, inum: nat, ref: nat, valid: bool)

  datatype Allocated = NoInode | TableFull(inum: nat) | Got(inum: nat, slot: nat)

  function NoAddrs(): seq<nat> {
    seq(NDIRECT + 1, (k: int) => 0)
  }

  ghost predicate IsBare(n: Inode) {
    n.size == 0 && n.addrs == NoAddrs()
  }

  /** A free inode has no content. */
  ghost predicate FreeIsBare(inode: seq<Inode>) {
    forall i | 0 <= i < |inode| && inode[i].kind == 0 :: IsBare(inode[i])
  }

  /** The state between operations. */
  ghost predicate Settled(fs: Fs, sb: Super) {
    FilesOk(fs, sb) && Shape(fs, sb) && OnDisk(fs, sb, {}) && FreeIsBare(fs.inode)
  }

  /** No block is lost: a bit is set exactly when the block belongs to an inode that is in use. */
  lemma NoLeak(fs: Fs, sb: Super, b: nat)
    requires Settled(fs, sb) && DataBlock(sb, b)
    ensures BitAt(fs.disk, sb, b) <==>
      exists s :: SlotIn(sb, s) && s.inum < |fs.inode| && fs.inode[s.inum].kind != 0 && Addr(fs, sb, s) == b
  {
    hide OnDisk, Mapped, BitAt, Tied, Shape, Addr, FreeIsBare;
    ShapeParts(fs, sb);
    var s0 := Slot(0, 0);
    if SlotIn(sb, s0) {
      BlockOwnership(fs, sb, b, s0, s0);
    }
    if BitAt(fs.disk, sb, b) {
      var s := OwnerOf(fs, sb, b);
      if fs.inode[s.inum].kind == 0 {
        BareHasNoBlocks(fs, sb, s);
      }
    }
  }

  lemma BareHasNoBlocks(fs: Fs, sb: Super, s: Slot)
    requires Shape(fs, sb) && SlotIn(sb, s) && FreeIsBare(fs.inode) && fs.inode[s.inum].kind == 0
    ensures Addr(fs, sb, s) == 0
  {
    assert IsBare(fs.inode[s.inum]);
  }

  /** What writei and itrunc leave of a settled state is settled if the file is in use. */
  lemma UseKeepsSettled(fs: Fs, fs': Fs, sb: Super, i: nat)
    requires Settled(fs, sb) && FilesOk(fs', sb) && Shape(fs', sb) && OnDisk(fs', sb, {}) && OthersSame(fs, fs', sb, i)
    requires i < |fs.inode| == |fs'.inode| && fs'.inode[i].kind == fs.inode[i].kind != 0
    ensures Settled(fs', sb)
  {
    hide FilesOk, OnDisk, Shape, IsBare, Addr, FileByte;
    ShapeParts(fs, sb);
  }

  ghost function Blank(disk: seq<Block>, sb: Super): Fs {
    Fs(disk, seq(sb.ninodes, _ => Inode(0, 0, 0, 0, 0, NoAddrs())), map[])
  }

  lemma BlankShape(disk: seq<Block>, sb: Super)
    requires Layout(sb) && |disk| == sb.size
    ensures Shape(Blank(disk, sb), sb)
    ensures forall s | SlotIn(sb, s) :: Addr(Blank(disk, sb), sb, s) == 0
  {
    hide Addr, InodeOk;
    var fs := Blank(disk, sb);
    forall i | 0 <= i < sb.ninodes ensures InodeOk(fs.inode[i], sb) {
      BlankOk(sb, 0);
    }
    forall s | SlotIn(sb, s) ensures Addr(fs, sb, s) == 0 {
      BareHasNoBlocks(fs, sb, s);
    }
  }

  lemma BlankOnDisk(disk: seq<Block>, sb: Super)
    requires Layout(sb) && |disk| == sb.size && Shape(Blank(disk, sb), sb)
    requires forall b | sb.inodestart <= b < sb.bmapstart :: disk[b] == ZeroBlock()
    ensures OnDisk(Blank(disk, sb), sb, {})
  {
    hide Shape, LoadInode, ZeroBlock, InodeBlock, NoAddrs;
    var fs := Blank(disk, sb);
    forall i | 0 <= i < sb.ninodes
      ensures InodeBlock(sb, i) < |fs.disk| && LoadInode(fs.disk[InodeBlock(sb, i)], i % IPB) == fs.inode[i]
    {
      InodeBlockIn(sb, i);
      ZeroInode(i % IPB);
    }
  }

  /** A new file system: no inode in use, and the bits set are those of the blocks before the data. */
  lemma BlankSettled(disk: seq<Block>, sb: Super)
    requires Layout(sb) && |disk| == sb.size && BitsOk(disk, sb, {})
    requires forall b | sb.inodestart <= b < sb.bmapstart :: disk[b] == ZeroBlock()
    ensures Settled(Blank(disk, sb), sb)
  {
    hide BitsOk, OnDisk, Addr, Shape;
    var fs := Blank(disk, sb);
    BlankShape(disk, sb);
    BlankOnDisk(disk, sb);
    assert fs.owner.Keys + {} == {};
  }

  lemma ZeroInode(slot: nat)
    requires slot < IPB
    ensures LoadInode(ZeroBlock(), slot) == Inode(0, 0, 0, 0, 0, NoAddrs())
  {
    hide Word, ZeroBlock;
    Apart(slot, slot, 0);
    forall j | 0 <= j < WORDS ensures Word(ZeroBlock(), j) == 0 {
      ZeroWord(j);
    }
    assert LoadInode(ZeroBlock(), slot).addrs == NoAddrs();
  }

  lemma ZeroWord(j: nat)
    requires j < WORDS
    ensures Word(ZeroBlock(), j) == 0
  {
    hide ZeroBlock;
  }

  /** Fields of an inode that say nothing about its blocks may change. */
  lemma FieldsKeep(fs: Fs, sb: Super, i: nat, n: Inode)
    requires FilesOk(fs, sb) && Shape(fs, sb) && OnDisk(fs, sb, {}) && i < sb.ninodes == |fs.inode| && InodeOk(n, sb)
    requires n.addrs == fs.inode[i].addrs && n.size == fs.inode[i].size == 0
    ensures var fs' := Fs(fs.disk, fs.inode[i := n], fs.owner);
      Tied(fs', sb, {}, {}) && Shape(fs', sb) && OnDisk(fs', sb, {i}) && OthersSame(fs, fs', sb, i)
  {
    hide Addr, BitsOk, FileByte, OnDisk;
    var fs' := Fs(fs.disk, fs.inode[i := n], fs.owner);
    SizeAddrs(fs, fs', sb, i);
    OthersRefl(fs, sb, i);
    SizeKeepsOthers(fs, fs, fs', sb, i);
    OnDiskLess(fs, sb, i);
    OnDiskKept(fs, fs', sb, i);
  }

  lemma OthersRefl(fs: Fs, sb: Super, i: nat)
    requires FilesOk(fs, sb) && Shape(fs, sb)
    ensures OthersSame(fs, fs, sb, i)
  {
    hide Addr, Tied, FileByte;
  }

  lemma OnDiskLess(fs: Fs, sb: Super, i: nat)
    requires Shape(fs, sb) && OnDisk(fs, sb, {})
    ensures OnDisk(fs, sb, {i})
  {
    hide LoadInode, Shape;
  }

  class Itable {
    const files: Files
    var entry: seq<Entry>

    /** At most one entry for each inode. */
    ghost predicate Unique()
      reads this
    {
      && |entry| == NINODE
      && forall a, b | 0 <= a < b < NINODE && entry[a].ref > 0 && entry[b].ref > 0 ::
           entry[a].dev != entry[b].dev || entry[a].inum != entry[b].inum
    }

    constructor (files: Files)
      ensures this.files == files && Unique() && forall a | 0 <= a < NINODE :: entry[a].ref == 0
    {
      this.files := files;
      entry := seq(NINODE, _ => Entry(0, 0, 0, false));
    }

    ghost predicate Refers(e: Entry, dev: nat, inum: nat) {
      e.ref > 0 && e.dev == dev && e.inum == inum
    }

    /** Find the entry of an inode, or make one; None where the source panics for want of entries. */
    method Iget(dev: nat, inum: nat) returns (slot: Option<nat>)
      requires Unique()
      modifies this`entry
      ensures Unique()
      ensures slot.None? ==> entry == old(entry) && forall a | 0 <= a < NINODE :: entry[a].ref > 0 && !Refers(entry[a], dev, inum)
      ensures slot.Some? ==>
        && slot.value < NINODE
        && entry == old(entry)[slot.value := Entry(dev, inum, old(entry)[slot.value].ref + 1, entry[slot.value].valid)]
        && (old(entry)[slot.value].ref == 0 ==> !entry[slot.value].valid && forall a | 0 <= a < NINODE :: !Refers(old(entry)[a], dev, inum))
        && (old(entry)[slot.value].ref > 0 ==> Refers(old(entry)[slot.value], dev, inum) && entry[slot.value].valid == old(entry)[slot.value].valid)
    {
      var empty: Option<nat> := None;
      var ip := 0;
      while ip < NINODE
        invariant 0 <= ip <= NINODE && entry == old(entry)
        invariant forall a | 0 <= a < ip :: !Refers(entry[a], dev, inum)
        invariant empty.None? ==> forall a | 0 <= a < ip :: entry[a].ref > 0
        invariant empty.Some? ==> empty.value < ip && entry[empty.value].ref == 0
      {
        if entry[ip].ref > 0 && entry[ip].dev == dev && entry[ip].inum == inum {
          entry := entry[ip := entry[ip].(ref := entry[ip].ref + 1)];
          return Some(ip);
        }
        if empty.None? && entry[ip].ref == 0 {
          empty := Some(ip);
        }
        ip := ip + 1;
      }
      if empty.None? {
        return None;
      }
      entry := entry[empty.value := Entry(dev, inum, 1, false)];
      return empty;
    }

    /** The disk side of ialloc: the first inode that is free gets a type and nothing else. */
    method TakeInode(kind: nat) returns (inum: nat, ok: bool)
      requires Settled(files.F(), files.sb) && 0 < kind < 0x1_0000
      modifies files`disk, files`inode, files`logged
      ensures Settled(files.F(), files.sb) && files.owner == old(files.owner) && Shape(old(files.F()), files.sb)
      ensures !ok ==> files.F() == old(files.F()) && forall i | 1 <= i < files.sb.ninodes :: files.inode[i].kind != 0
      ensures ok ==>
        && 1 <= inum < files.sb.ninodes && old(files.inode)[inum].kind == 0
        && (forall i | 1 <= i < inum :: old(files.inode)[i].kind != 0)
        && files.inode == old(files.inode)[inum := Inode(kind, 0, 0, 0, 0, NoAddrs())]
        && OthersSame(old(files.F()), files.F(), files.sb, inum)
      ensures LogCovers(old(files.disk), old(files.logged), files.disk, files.logged)
    {
      hide FilesOk, Shape, OnDisk, LoadInode, OthersSame, LogCovers;
      ShapeParts(files.F(), files.sb);
      LogNothing(files.disk, files.logged);
      inum := 1;
      while inum < files.sb.ninodes
        invariant 1 <= inum && files.F() == old(files.F()) && files.logged == old(files.logged)
        invariant forall i | 1 <= i < inum && i < files.sb.ninodes :: files.inode[i].kind != 0
      {
        var n := files.Ilock(inum);
        if n.kind == 0 {
          ghost var fs := files.F();
          BlankOk(files.sb, kind);
          SetInode(inum, Inode(kind, 0, 0, 0, 0, NoAddrs()));
          return inum, true;
        }
        inum := inum + 1;
      }
      return 0, false;
    }

    /** Allocate an inode and refer to it. */
    method Ialloc(dev: nat, kind: nat) returns (r: Allocated)
      requires Unique() && Settled(files.F(), files.sb) && 0 < kind < 0x1_0000
      modifies this`entry, files`disk, files`inode, files`logged
      ensures Unique() && Settled(files.F(), files.sb) && files.owner == old(files.owner) && Shape(old(files.F()), files.sb)
      ensures r.NoInode? <==> forall i | 1 <= i < files.sb.ninodes && i < |old(files.inode)| :: old(files.inode)[i].kind != 0
      ensures r.NoInode? ==> files.F() == old(files.F()) && entry == old(entry)
      ensures !r.NoInode? ==>
        && 1 <= r.inum < files.sb.ninodes && r.inum < |old(files.inode)| && old(files.inode)[r.inum].kind == 0
        && files.inode == old(files.inode)[r.inum := Inode(kind, 0, 0, 0, 0, NoAddrs())]
        && OthersSame(old(files.F()), files.F(), files.sb, r.inum)
      ensures r.TableFull? ==> entry == old(entry) && forall a | 0 <= a < NINODE :: entry[a].ref > 0
      ensures r.Got? ==>
        && r.slot < NINODE && Refers(entry[r.slot], dev, r.inum)
        && entry == old(entry)[r.slot := entry[r.slot]] && entry[r.slot].ref == old(entry)[r.slot].ref + 1
      ensures LogCovers(old(files.disk), old(files.logged), files.disk, files.logged)
    {
      hide Settled, Shape, OthersSame, LogCovers;
      SettledParts(files.F(), files.sb);
      var inum, ok := TakeInode(kind);
      if !ok {
        return NoInode;
      }
      var slot := Iget(dev, inum);
      if slot.None? {
        return TableFull(inum);
      }
      return Got(inum, slot.value);
    }

    /** Drop a reference. The last one to a file without links frees its blocks and then the inode;
        otherwise no file changes. */
    method Iput(slot: nat)
      requires Unique() && Settled(files.F(), files.sb) && slot < NINODE && entry[slot].ref > 0
      requires entry[slot].inum < files.sb.ninodes && entry[slot].inum < |files.inode|
      modifies this`entry, files`disk, files`inode, files`owner, files`logged
      ensures Unique() && Settled(files.F(), files.sb) && Shape(old(files.F()), files.sb)
      ensures var i, e, n := old(entry)[slot].inum, old(entry)[slot], old(files.inode)[old(entry)[slot].inum];
        if e.ref == 1 && e.valid && n.nlink == 0 then
          && entry == old(entry)[slot := e.(ref := 0, valid := false)]
          && files.inode == old(files.inode)[i := n.(kind := 0, size := 0, addrs := NoAddrs())]
          && files.owner == (map b | b in old(files.owner) && old(files.owner)[b].inum != i :: old(files.owner)[b])
          && OthersSame(old(files.F()), files.F(), files.sb, i)
        else entry == old(entry)[slot := e.(ref := e.ref - 1)] && files.F() == old(files.F())
      ensures LogCovers(old(files.disk), old(files.logged), files.disk, files.logged)
    {
      hide FilesOk, Shape, OnDisk, OthersSame, InodeOk, LogCovers;
      ghost var fs := files.F();
      SettledParts(fs, files.sb);
      LogNothing(files.disk, files.logged);
      var i := entry[slot].inum;
      if entry[slot].ref == 1 && entry[slot].valid && files.inode[i].nlink == 0 {
        OnDiskLess(fs, files.sb, i);
        files.Itrunc(i);
        ghost var fs1 := files.F();
        ghost var logged1 := files.logged;
        ShapeParts(fs1, files.sb);
        OthersInodes(fs, fs1, files.sb, i);
        FieldsOk(fs1, files.sb, i);
        SetInode(i, files.inode[i].(kind := 0));
        LogMore(fs.disk, old(files.logged), fs1.disk, logged1, files.disk, files.logged);
        OthersTrans(fs, fs1, files.F(), files.sb, i);
        entry := entry[slot := entry[slot].(valid := false)];
      }
      entry := entry[slot := entry[slot].(ref := entry[slot].ref - 1)];
    }

    /** writei on a file in use. */
    method WriteFile(i: nat, src: seq<byte>, off: nat, n: nat) returns (r: int)
      requires Settled(files.F(), files.sb) && i < files.sb.ninodes && i < |files.inode| && files.inode[i].kind != 0
      requires off < WORD_LIMIT && n < WORD_LIMIT
      modifies files`disk, files`inode, files`owner, files`logged
      ensures Settled(files.F(), files.sb) && Shape(old(files.F()), files.sb) && Shape(files.F(), files.sb)
      ensures r == -1 <==> off > old(files.inode[i].size) || off + n > MAXBYTES
      ensures r == -1 ==> files.F() == old(files.F())
      ensures r != -1 ==>
        && 0 <= r <= n && r <= |src| && i < |files.inode| && old(files.inode[i].size) <= MAXBYTES && files.inode[i].size <= MAXBYTES
        && Content(files.F(), files.sb, i) == Splice(Content(old(files.F()), files.sb, i), off, src[..r])
      ensures OthersSame(old(files.F()), files.F(), files.sb, i)
      ensures LogCovers(old(files.disk), old(files.logged), files.disk, files.logged)
    {
      hide FilesOk, Shape, OnDisk, OthersSame, Content, Splice, LogBound, DiskFull, FreeIsBare, LogCovers;
      ghost var fs := files.F();
      ShapeParts(fs, files.sb);
      r := files.Writei(i, src, off, n);
      ShapeParts(files.F(), files.sb);
      UseKeepsSettled(fs, files.F(), files.sb, i);
    }

    /** itrunc on a file in use. */
    method Truncate(i: nat)
      requires Settled(files.F(), files.sb) && i < files.sb.ninodes && i < |files.inode| && files.inode[i].kind != 0
      modifies files`disk, files`inode, files`owner, files`logged
      ensures Settled(files.F(), files.sb) && Shape(old(files.F()), files.sb) && Shape(files.F(), files.sb)
      ensures files.inode == old(files.inode)[i := old(files.inode[i]).(size := 0, addrs := NoAddrs())]
      ensures files.owner == map b | b in old(files.owner) && old(files.owner)[b].inum != i :: old(files.owner)[b]
      ensures OthersSame(old(files.F()), files.F(), files.sb, i)
      ensures LogCovers(old(files.disk), old(files.logged), files.disk, files.logged)
    {
      hide FilesOk, Shape, OnDisk, OthersSame, FreeIsBare, LogCovers;
      ghost var fs := files.F();
      ShapeParts(fs, files.sb);
      OnDiskLess(fs, files.sb, i);
      files.Itrunc(i);
      ShapeParts(files.F(), files.sb);
      OthersInodes(fs, files.F(), files.sb, i);
      UseKeepsSettled(fs, files.F(), files.sb, i);
    }

    /** ilock's part in making an entry valid: false where the source panics on a free inode. */
    method Validate(slot: nat) returns (ok: bool)
      requires Unique() && Settled(files.F(), files.sb) && slot < NINODE && entry[slot].ref > 0
      requires entry[slot].inum < files.sb.ninodes && entry[slot].inum < |files.inode|
      modifies this`entry
      ensures Unique() && entry == old(entry)[slot := old(entry[slot]).(valid := true)]
      ensures ok <==> old(entry[slot]).valid || files.inode[entry[slot].inum].kind != 0
    {
      hide FilesOk, Shape, OnDisk;
      ok := true;
      if !entry[slot].valid {
        var n := files.Ilock(entry[slot].inum);
        entry := entry[slot := entry[slot].(valid := true)];
        ok := n.kind != 0;
      }
    }

    /** At boot, with the table empty: free every file that has no links. */
    method Ireclaim(dev: nat)
      requires Unique() && Settled(files.F(), files.sb) && forall a | 0 <= a < NINODE :: entry[a].ref == 0
      modifies this`entry, files`disk, files`inode, files`owner, files`logged
      ensures Unique() && Settled(files.F(), files.sb) && forall a | 0 <= a < NINODE :: entry[a].ref == 0
      ensures |files.inode| == |old(files.inode)|
      ensures forall i | 1 <= i < |files.inode| :: !Orphan(files.inode[i])
      ensures forall i | 0 <= i < |files.inode| && (i == 0 || !Orphan(old(files.inode)[i])) ::
        SameFile(old(files.F()), files.F(), files.sb, i)
    {
      hide Settled, SameFile, Shape, OnDisk, OthersSame;
      ghost var fs := files.F();
      SettledParts(fs, files.sb);
      AllSame(fs, files.sb);
      var inum := 1;
      while inum < files.sb.ninodes
        invariant 1 <= inum && Unique() && Settled(files.F(), files.sb) && |files.inode| == files.sb.ninodes
        invariant forall a | 0 <= a < NINODE :: entry[a].ref == 0
        invariant forall i | 1 <= i < inum && i < files.sb.ninodes :: !Orphan(files.inode[i])
        invariant forall i | 0 <= i < files.sb.ninodes && (i == 0 || inum <= i || !Orphan(fs.inode[i])) ::
          SameFile(fs, files.F(), files.sb, i)
      {
        ghost var fs1 := files.F();
        SettledOnDisk(fs1, files.sb);
        SameInode(fs, fs1, files.sb, inum);
        var n := files.Ilock(inum);
        if n.kind != 0 && n.nlink == 0 {
          ReclaimOne(dev, inum);
          forall i | 0 <= i < files.sb.ninodes && i != inum && SameFile(fs, fs1, files.sb, i) ensures SameFile(fs, files.F(), files.sb, i) {
            SameFileTrans(fs, fs1, files.F(), files.sb, inum, i);
          }
        }
        inum := inum + 1;
      }
    }

    /** The part of ireclaim that frees one file. */
    method ReclaimOne(dev: nat, inum: nat)
      requires Unique() && Settled(files.F(), files.sb) && forall a | 0 <= a < NINODE :: entry[a].ref == 0
      requires inum < files.sb.ninodes && inum < |files.inode| && Orphan(files.inode[inum])
      modifies this`entry, files`disk, files`inode, files`owner, files`logged
      ensures Unique() && Settled(files.F(), files.sb) && forall a | 0 <= a < NINODE :: entry[a].ref == 0
      ensures Shape(old(files.F()), files.sb) && Shape(files.F(), files.sb) && OthersSame(old(files.F()), files.F(), files.sb, inum)
      ensures files.inode == old(files.inode)[inum := files.inode[inum]] && files.inode[inum].kind == 0
      ensures LogCovers(old(files.disk), old(files.logged), files.disk, files.logged)
    {
      hide Settled, Shape, OthersSame, LogCovers;
      SettledParts(files.F(), files.sb);
      var slot := Iget(dev, inum);
      assert entry[0].ref == old(entry)[0].ref || slot.Some?;
      var ok := Validate(slot.value);
      assert ok;
      Iput(slot.value);
      SettledParts(files.F(), files.sb);
    }

    /** Change fields of an inode without content, in memory and on the disk. */
    method SetInode(i: nat, n: Inode)
      requires FilesOk(files.F(), files.sb) && Shape(files.F(), files.sb) && OnDisk(files.F(), files.sb, {}) && i < files.sb.ninodes
      requires i < |files.inode| && InodeOk(n, files.sb) && n.addrs == files.inode[i].addrs && n.size == files.inode[i].size == 0
      modifies files`disk, files`inode, files`logged
      ensures FilesOk(files.F(), files.sb) && Shape(files.F(), files.sb) && OnDisk(files.F(), files.sb, {})
      ensures files.inode == old(files.inode)[i := n] && files.owner == old(files.owner)
      ensures Shape(old(files.F()), files.sb) && OthersSame(old(files.F()), files.F(), files.sb, i)
      ensures LogCovers(old(files.disk), old(files.logged), files.disk, files.logged)
    {
      hide FilesOk, Tied, Shape, OnDisk, OthersSame, InodeOk, LogCovers;
      ghost var fs := files.F();
      ShapeParts(fs, files.sb);
      FieldsKeep(fs, files.sb, i, n);
      files.inode := files.inode[i := n];
      ghost var fs1 := files.F();
      files.Iupdate(i);
      TruncDone(fs, fs1, files.F(), files.sb, i);
    }
  }

  /** In use but without links. */
  predicate Orphan(n: Inode) {
    n.kind != 0 && n.nlink == 0
  }

  /** A file as it was: its inode and its bytes. */
  ghost predicate SameFile(fs: Fs, fs': Fs, sb: Super, i: nat) {
    && Shape(fs, sb) && Shape(fs', sb) && i < sb.ninodes == |fs.inode| == |fs'.inode|
    && fs'.inode[i] == fs.inode[i] && fs.inode[i].size <= MAXBYTES && Content(fs', sb, i) == Content(fs, sb, i)
  }

  lemma AllSame(fs: Fs, sb: Super)
    requires Settled(fs, sb)
    ensures forall i | 0 <= i < sb.ninodes :: SameFile(fs, fs, sb, i)
  {
    hide FilesOk, OnDisk, Content;
    forall i | 0 <= i < sb.ninodes ensures SameFile(fs, fs, sb, i) {
      assert InodeOk(fs.inode[i], sb);
    }
  }

  lemma SameFileTrans(fs: Fs, fs1: Fs, fs2: Fs, sb: Super, j: nat, i: nat)
    requires SameFile(fs, fs1, sb, i) && Shape(fs1, sb) && Shape(fs2, sb) && OthersSame(fs1, fs2, sb, j) && i != j
    ensures SameFile(fs, fs2, sb, i)
  {
    hide Shape, Content, Addr, FileByte;
    ShapeParts(fs2, sb);
    OthersContent(fs1, fs2, sb, j, i);
  }

  lemma SameInode(fs: Fs, fs': Fs, sb: Super, i: nat)
    requires SameFile(fs, fs', sb, i)
    ensures i < |fs.inode| == |fs'.inode| && fs'.inode[i] == fs.inode[i]
  {
    hide Shape, Content;
  }

  lemma SettledOnDisk(fs: Fs, sb: Super)
    requires Settled(fs, sb)
    ensures Shape(fs, sb) && OnDisk(fs, sb, {})
  {
    hide FilesOk, OnDisk, Shape;
  }

  lemma SettledParts(fs: Fs, sb: Super)
    requires Settled(fs, sb)
    ensures Shape(fs, sb) && |fs.inode| == sb.ninodes
  {
    hide FilesOk, OnDisk;
  }

  lemma OthersInodes(fs: Fs, fs': Fs, sb: Super, i: nat)
    requires Shape(fs, sb) && Shape(fs', sb) && OthersSame(fs, fs', sb, i) && i < sb.ninodes && |fs.inode| == |fs'.inode| == sb.ninodes
    ensures fs'.inode == fs.inode[i := fs'.inode[i]]
  {
    hide Addr, FileByte;
  }

  lemma FieldsOk(fs: Fs, sb: Super, i: nat)
    requires Shape(fs, sb) && i < sb.ninodes && i < |fs.inode|
    ensures InodeOk(fs.inode[i].(kind := 0), sb)
  {
    assert InodeOk(fs.inode[i], sb);
  }

  lemma BlankOk(sb: Super, kind: nat)
    requires kind < 0x1_0000
    ensures InodeOk(Inode(kind, 0, 0, 0, 0, NoAddrs()), sb)
  {
  }
}
