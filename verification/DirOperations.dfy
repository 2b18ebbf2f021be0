/**
 create, link and unlink of part1/sysfile.c on a volume's bytes: what each makes of the files, when it runs out of
 blocks, and how many blocks it logs. Where a name goes is given by the offset that the search of module Directories
 finds; a name is what strncpy puts into an entry.
 */
module DirOperations {
  import opened Blocks
  import opened Bitmap
  import opened FileBlocks
  import opened FileContents
  import opened FileTruncate
  import opened FileSystem

  const T_DIR := 1
  const DIRSIZ := 14
  const DIRENT := 16                       // sizeof(struct dirent)

  const DOT: seq<Byte> := [46]
  const DOTDOT: seq<Byte> := [46, 46]

  /** A file as its users see it. */
  datatype File = File(kind: int, major: int, minor: int, nlink: int, bytes: seq<Byte>)

  type Files = map<nat, File>

  /** A directory entry: the inode number in two bytes, then the name, cut off or padded with zeros. */
  function Entry(inum: nat, name: seq<Byte>): (e: seq<Byte>)
    ensures |e| == DIRENT
  {
    [inum % 256, inum / 256 % 256]
    + if |name| >= DIRSIZ then name[..DIRSIZ] else name + Zeros(DIRSIZ - |name|)
  }

  ghost function FileOf(fs: Fs, i: nat): File
    requires i in fs.inodes && Readable(fs, i)
  {
    var ino := fs.inodes[i];
    File(ino.kind, ino.major, ino.minor, ino.nlink, Content(fs, i))
  }

  /** All files of a volume. */
  ghost function FilesOf(fs: Fs): Files {
    map i | i in fs.inodes && Readable(fs, i) :: FileOf(fs, i)
  }

  ghost predicate AllReadable(fs: Fs) {
    forall i | i in fs.inodes :: Readable(fs, i)
  }

  lemma ConsistentIsReadable(fs: Fs, table: map<nat, Inode>, dataStart: nat, owner: map<nat, Slot>)
    requires Consistent(fs, table, dataStart, owner)
    ensures AllReadable(fs) && fs.inodes == table && FilesOf(fs).Keys == fs.inodes.Keys
    ensures forall i | i in fs.inodes :: |fs.inodes[i].addrs| == NDIRECT + 1 && fs.inodes[i].size <= LIMIT
    ensures forall i | i in fs.inodes && fs.inodes[i].kind == 0 :: fs.inodes[i].size == 0
  {
    hide MapOk;
    forall i | i in fs.inodes
      ensures Readable(fs, i)
    {
      SizeOkReadable(fs, i);
    }
  }

  /** One file changes, the others stay. */
  lemma OneFileChanges(fs: Fs, fs': Fs, i: nat)
    requires AllReadable(fs) && i in fs.inodes && OthersSame(fs, fs', i)
    requires fs'.inodes.Keys == fs.inodes.Keys && Readable(fs', i)
    ensures FilesOf(fs') == FilesOf(fs)[i := FileOf(fs', i)] && AllReadable(fs')
  {
    hide Content, Readable;
  }

  lemma WrittenFile(fs: Fs, fs': Fs, i: nat, off: nat, src: seq<Byte>)
    requires AllReadable(fs) && FileWritten(fs, fs', i, off, src)
    ensures i in FilesOf(fs) && off <= |FilesOf(fs)[i].bytes|
    ensures var f := FilesOf(fs)[i];
            FilesOf(fs') == FilesOf(fs)[i := f.(bytes := Overwrite(f.bytes, off, src))]
  {
    hide Content, Overwrite;
    OneFileChanges(fs, fs', i);
  }

  lemma WrittenInodes(fs: Fs, fs': Fs, i: nat, off: nat, src: seq<Byte>)
    requires FileWritten(fs, fs', i, off, src)
    ensures i in fs.inodes && i in fs'.inodes
    ensures fs'.inodes == fs.inodes[i := fs.inodes[i].(size := fs'.inodes[i].size, addrs := fs'.inodes[i].addrs)]
  {
    hide Content, Readable, Overwrite;
  }

  /** Changing kind, device numbers or link count of an inode changes no bytes. */
  lemma FieldsKeepConsistent(fs: Fs, fs': Fs, dataStart: nat, owner: map<nat, Slot>, i: nat)
    requires Consistent(fs, fs.inodes, dataStart, owner) && i in fs.inodes && i in fs'.inodes
    requires fs' == fs.(inodes := fs.inodes[i := fs'.inodes[i]])
    requires fs'.inodes[i].addrs == fs.inodes[i].addrs && fs'.inodes[i].size == fs.inodes[i].size
    requires fs'.inodes[i].kind == fs.inodes[i].kind
    ensures Consistent(fs', fs'.inodes, dataStart, owner) && OthersSame(fs, fs', i)
    ensures Readable(fs, i) && Readable(fs', i) && Content(fs', i) == Content(fs, i)
  {
    hide Owned, MapOk, FreeCount;
    FieldsKeepOwned(fs, fs', i, dataStart, owner);
    assert SizeOk(fs, i) && SizeOk(fs', i);
    SizeOkReadable(fs, i);
    SizeOkReadable(fs', i);
    OthersFollow(fs, fs, fs', i) by {
      SelfSame(fs, i);
    }
    forall j: nat | j < fs.inodes[i].size
      ensures Content(fs', i)[j] == Content(fs, i)[j]
    {
      ResizeKeepsRefs(fs, fs', i, Slot(i, j / BSIZE));
    }
  }

  lemma SelfSame(fs: Fs, i: nat)
    ensures SameOthers(fs, fs, i)
  {
  }

  /** A write of one directory entry touches its block, and the indirect block if it is beyond the direct ones. */
  lemma EntryTouches(fs: Fs, i: nat, off: nat)
    requires off % DIRENT == 0
    ensures |CopySet(fs, i, off, DIRENT)| <= if off < NDIRECT * BSIZE then 1 else 2
  {
    var lo := off / BSIZE;
    assert CopyEnd(off, DIRENT) == lo + 1;
    RefSetSize(fs, i, lo, lo + 1);
  }

  lemma UnionSize(a: set<nat>, b: set<nat>)
    ensures |a + b| <= |a| + |b|
  {
    AtMost(a + b, a, b);
  }

  /** With one bitmap block, an operation logs that block and its extra ones. */
  lemma LoggedAtMost(sb: Superblock, d: Disk, d': Disk, logged: set<nat>, extra: set<nat>)
    requires LoggedFor(sb, d, {}, d', logged, extra)
    ensures Covered(sb, d, d', logged) && (sb.size <= BPB ==> |logged| <= 1 + |extra|)
  {
    if sb.size <= BPB {
      forall b | b in logged
        ensures b in {sb.bmapstart} + extra
      {
      }
      AtMost(logged, {sb.bmapstart}, extra);
    }
  }

  // ---- Steps of an operation ----

  /** The inode's fields are set and iupdate writes it. */
  method SetFields(v: Volume, i: nat, major: int, minor: int, nlink: int)
    requires v.Valid() && i in v.inodes
    modifies v`inodes, v`table, v`logged
    ensures v.Valid()
    ensures v.inodes == old(v.inodes)[i := old(v.inodes)[i].(major := major, minor := minor, nlink := nlink)]
    ensures v.View().used == old(v.View()).used
    ensures i in FilesOf(old(v.View()))
    ensures FilesOf(v.View())
            == FilesOf(old(v.View()))[i := FilesOf(old(v.View()))[i].(major := major, minor := minor, nlink := nlink)]
    ensures LoggedFor(v.sb, old(v.OnDisk()), old(v.logged), v.OnDisk(), v.logged, {InodeBlock(v.sb, i)})
  {
    hide FreeCount, Consistent, Content, OthersSame, Readable, LoggedFor;
    ghost var fs := v.View();
    ConsistentIsReadable(fs, v.table, DataStart(v.sb), v.owner);
    v.inodes := v.inodes[i := v.inodes[i].(major := major, minor := minor, nlink := nlink)];
    FieldsKeepConsistent(fs, v.View(), DataStart(v.sb), v.owner, i);
    OneFileChanges(fs, v.View(), i);
    v.Iupdate(i);
  }

  /** writei of one directory entry; a short count is a panic in dirlink and sys_unlink. */
  method WriteEntry(v: Volume, i: nat, off: Word, e: seq<Byte>) returns (r: Outcome<()>, ghost data: set<nat>)
    requires v.Valid() && i in v.inodes && v.inodes[i].kind == T_DIR && |e| == DIRENT
    requires off % DIRENT == 0 && off <= v.inodes[i].size
    modifies v`bitmap, v`blocks, v`inodes, v`table, v`logged, v`owner
    ensures r.Panicked? <==>
              || off + DIRENT > LIMIT
              || FreeCount(old(v.View().used)) < Demand(old(v.inodes)[i].size, off, DIRENT)
    ensures r.Returned? ==>
              && v.Valid() && v.inodes.Keys == old(v.inodes.Keys) && i in FilesOf(old(v.View()))
              && off <= |FilesOf(old(v.View()))[i].bytes|
              && FilesOf(v.View()) == Written(FilesOf(old(v.View())), i, off, e)
              && v.inodes[i].size == Max(old(v.inodes)[i].size, off + DIRENT)
              && v.inodes == old(v.inodes)[i := old(v.inodes)[i].(size := v.inodes[i].size, addrs := v.inodes[i].addrs)]
              && FreeCount(v.View().used) == FreeCount(old(v.View().used)) - Demand(old(v.inodes)[i].size, off, DIRENT)
              && |data| <= (if off < NDIRECT * BSIZE then 1 else 2)
              && LoggedFor(v.sb, old(v.OnDisk()), old(v.logged), v.OnDisk(), v.logged, {InodeBlock(v.sb, i)} + data)
  {
    hide FreeCount, Consistent, Content, OthersSame, Readable, LoggedFor, FileWritten, CopySet, Demand;
    ghost var fs := v.View();
    ConsistentIsReadable(fs, v.table, DataStart(v.sb), v.owner);
    var n := v.Writei(i, e, off);
    data := CopySet(v.View(), i, off, DIRENT);
    if n != Returned(DIRENT) {
      return Panicked, data;
    }
    WrittenFile(fs, v.View(), i, off, e);
    WrittenInodes(fs, v.View(), i, off, e);
    FileWrittenSize(fs, v.View(), i, off, e);
    ConsistentIsReadable(v.View(), v.table, DataStart(v.sb), v.owner);
    EntryTouches(v.View(), i, off);
    return Returned(()), data;
  }

  /** `files` with `e` written over the bytes of file `i` at `off`. */
  function Written(files: Files, i: nat, off: nat, e: seq<Byte>): Files
    requires i in files && off <= |files[i].bytes|
  {
    files[i := files[i].(bytes := Overwrite(files[i].bytes, off, e))]
  }

  // ---- Operations ----

  /** The files after the dots of the new directory `ip` in `dp` are written; ".." is a link to `dp`. */
  ghost function Dotted(files: Files, ip: nat, dp: nat): Files
    requires ip in files && dp in files
  {
    files[dp := files[dp].(nlink := files[dp].nlink + 1)]
         [ip := files[ip].(bytes := Entry(ip, DOT) + Entry(dp, DOTDOT))]
  }

  lemma DotsWritten(files: Files, ip: nat, dp: nat)
    requires ip in files && dp in files && ip != dp && files[ip].bytes == []
    ensures var up := files[dp := files[dp].(nlink := files[dp].nlink + 1)];
            var one := Written(up, ip, 0, Entry(ip, DOT));
            |one[ip].bytes| == DIRENT && Written(one, ip, DIRENT, Entry(dp, DOTDOT)) == Dotted(files, ip, dp)
  {
    hide Entry;
    var a, b := Entry(ip, DOT), Entry(dp, DOTDOT);
    assert Overwrite([], 0, a) == a && Overwrite(a, DIRENT, b) == a + b;
  }

  lemma DotsDemand()
    ensures Demand(0, 0, DIRENT) == 1 && Demand(DIRENT, DIRENT, DIRENT) == 0
  {
    assert BlocksFor(0) == 0 && BlocksFor(DIRENT) == 1 && BlocksFor(2 * DIRENT) == 1;
  }

  lemma FilesFacts(v: Volume, i: nat)
    requires v.Valid() && i in v.inodes
    ensures i in FilesOf(v.View()) && Readable(v.View(), i) && FilesOf(v.View())[i] == FileOf(v.View(), i)
    ensures v.File(i) == FilesOf(v.View())[i].bytes
    ensures var f, ino := FilesOf(v.View())[i], v.inodes[i];
            && ino.size == |f.bytes| <= LIMIT && ino.kind == f.kind
            && ino.nlink == f.nlink && ino.major == f.major && ino.minor == f.minor
  {
    ConsistentIsReadable(v.View(), v.table, DataStart(v.sb), v.owner);
  }

  /** create's block for T_DIR, on the new and empty directory `ip`. */
  method MakeDots(v: Volume, ip: nat, dp: nat) returns (r: Outcome<()>, ghost data: set<nat>)
    requires v.Valid() && ip in v.inodes && dp in v.inodes && ip != dp
    requires v.inodes[ip].kind == T_DIR && v.inodes[ip].size == 0
    modifies v`bitmap, v`blocks, v`inodes, v`table, v`logged, v`owner
    ensures r.Panicked? <==> FreeCount(old(v.View().used)) < 1
    ensures r.Returned? ==>
              && v.Valid() && v.inodes.Keys == old(v.inodes.Keys)
              && v.inodes[dp].size == old(v.inodes)[dp].size && v.inodes[dp].kind == old(v.inodes)[dp].kind
              && ip in FilesOf(old(v.View())) && dp in FilesOf(old(v.View()))
              && FilesOf(v.View()) == Dotted(FilesOf(old(v.View())), ip, dp)
              && FreeCount(v.View().used) == FreeCount(old(v.View().used)) - 1 && |data| <= 2
              && LoggedFor(v.sb, old(v.OnDisk()), old(v.logged), v.OnDisk(), v.logged,
                           {InodeBlock(v.sb, dp), InodeBlock(v.sb, ip)} + data)
  {
    hide FreeCount, Consistent, FileOf, LoggedFor, Demand, Written, Dotted, Entry, FilesOf, InodeBlock;
    ghost var files, d0, l0 := FilesOf(v.View()), v.OnDisk(), v.logged;
    ghost var x, y := {InodeBlock(v.sb, dp)}, {InodeBlock(v.sb, ip)};
    FilesFacts(v, ip);
    FilesFacts(v, dp);
    DotsWritten(files, ip, dp);
    DotsDemand();
    SetFields(v, dp, v.inodes[dp].major, v.inodes[dp].minor, v.inodes[dp].nlink + 1);
    ghost var d1, l1 := v.OnDisk(), v.logged;
    ghost var data1, data2;
    r, data1 := WriteEntry(v, ip, 0, Entry(ip, DOT));
    data := data1;
    if r.Panicked? {
      return;
    }
    LoggedThen(v.sb, d0, l0, d1, l1, x, v.OnDisk(), v.logged, y + data1, x + y + data1);
    ghost var d2, l2 := v.OnDisk(), v.logged;
    r, data2 := WriteEntry(v, ip, DIRENT, Entry(dp, DOTDOT));
    data := data1 + data2;
    if r.Panicked? {
      return;
    }
    UnionSize(data1, data2);
    LoggedThen(v.sb, d0, l0, d2, l2, x + y + data1, v.OnDisk(), v.logged, y + data2,
               {InodeBlock(v.sb, dp), InodeBlock(v.sb, ip)} + data);
  }

  /** A fresh and empty inode `ip` made ready in directory `dp`. */
  ghost function Prepared(files: Files, dp: nat, ip: nat, major: int, minor: int): Files
    requires dp in files && ip in files && dp != ip
  {
    var files2 := files[ip := files[ip].(major := major, minor := minor, nlink := 1)];
    if files[ip].kind == T_DIR then Dotted(files2, ip, dp) else files2
  }

  /** create between ialloc and its last dirlink. */
  method Prepare(v: Volume, dp: nat, ip: nat, major: int, minor: int) returns (r: Outcome<()>, ghost dots: set<nat>)
    requires v.Valid() && ip in v.inodes && dp in v.inodes && ip != dp && v.inodes[ip].size == 0
    modifies v`bitmap, v`blocks, v`inodes, v`table, v`logged, v`owner
    ensures r.Panicked? <==> old(v.inodes)[ip].kind == T_DIR && FreeCount(old(v.View().used)) < 1
    ensures r.Returned? ==>
              && v.Valid() && v.inodes.Keys == old(v.inodes.Keys)
              && v.inodes[dp].size == old(v.inodes)[dp].size && v.inodes[dp].kind == old(v.inodes)[dp].kind
              && ip in FilesOf(old(v.View())) && dp in FilesOf(old(v.View()))
              && FilesOf(v.View()) == Prepared(FilesOf(old(v.View())), dp, ip, major, minor)
              && FreeCount(v.View().used)
                 == FreeCount(old(v.View().used)) - (if old(v.inodes)[ip].kind == T_DIR then 1 else 0)
              && |dots| <= 2
              && LoggedFor(v.sb, old(v.OnDisk()), old(v.logged), v.OnDisk(), v.logged,
                           {InodeBlock(v.sb, dp), InodeBlock(v.sb, ip)} + dots)
  {
    hide FreeCount, Consistent, FileOf, FilesOf, LoggedFor, Dotted, InodeBlock;
    ghost var d0, l0, x := v.OnDisk(), v.logged, {InodeBlock(v.sb, dp), InodeBlock(v.sb, ip)};
    FilesFacts(v, ip);
    FilesFacts(v, dp);
    dots := {};
    SetFields(v, ip, major, minor, 1);
    LoggedNothing(v.sb, v.OnDisk(), v.logged, {});
    LoggedThen(v.sb, d0, l0, v.OnDisk(), v.logged, {InodeBlock(v.sb, ip)}, v.OnDisk(), v.logged, {}, x + dots);
    if v.inodes[ip].kind == T_DIR {
      ghost var d2, l2 := v.OnDisk(), v.logged;
      r, dots := MakeDots(v, ip, dp);
      if r.Panicked? {
        return;
      }
      LoggedThen(v.sb, d0, l0, d2, l2, x + {}, v.OnDisk(), v.logged, x + dots, x + dots);
    }
    r := Returned(());
  }

  /** create of `name` at `off` of directory `dp`, with inode `ip`. */
  ghost function Created(
    files: Files, dp: nat, off: nat, name: seq<Byte>, ip: nat, kind: int, major: int, minor: int): Files
    requires dp in files && off <= |files[dp].bytes|
  {
    var d := files[dp];
    files[ip := File(kind, major, minor, 1, if kind == T_DIR then Entry(ip, DOT) + Entry(dp, DOTDOT) else [])]
         [dp := d.(nlink := d.nlink + if kind == T_DIR then 1 else 0,
                   bytes := Overwrite(d.bytes, off, Entry(ip, name)))]
  }

  /** The steps of create come to `Created`. */
  lemma CreateSteps(
    files: Files, files1: Files, dp: nat, off: nat, name: seq<Byte>, ip: nat, kind: int, major: int, minor: int)
    requires dp in files && off <= |files[dp].bytes| && ip != dp && ip in files1
    requires files1[ip].kind == kind && files1[ip].bytes == [] && files1 == files[ip := files1[ip]]
    ensures var files2 := Prepared(files1, dp, ip, major, minor);
            && dp in files2 && files2[dp].bytes == files[dp].bytes
            && Written(files2, dp, off, Entry(ip, name)) == Created(files, dp, off, name, ip, kind, major, minor)
  {
    hide Entry, Overwrite;
  }

  lemma NewFile(fs: Fs, fs': Fs, table: map<nat, Inode>, dataStart: nat, owner: map<nat, Slot>, i: nat)
    requires AllReadable(fs) && i in fs.inodes && OthersSame(fs, fs', i) && fs'.inodes.Keys == fs.inodes.Keys
    requires Consistent(fs', table, dataStart, owner)
    ensures i in FilesOf(fs') && FilesOf(fs') == FilesOf(fs)[i := FilesOf(fs')[i]]
    ensures forall j | j in fs.inodes && j != i :: fs'.inodes[j] == fs.inodes[j]
  {
    ConsistentIsReadable(fs', table, dataStart, owner);
    OneFileChanges(fs, fs', i);
  }

  /**
   create of a name that is not there, as an operation of its own. It panics exactly if no inode is free, the directory
   cannot grow or the blocks do not suffice; otherwise the lowest free inode becomes the new file, all other files stay,
   and at most seven blocks are logged.
   */
  method Create(v: Volume, dp: nat, name: seq<Byte>, off: Word, kind: int, major: int, minor: int, ninodes: nat)
    returns (r: Outcome<nat>)
    requires v.Valid() && dp in v.inodes && v.inodes[dp].kind == T_DIR && kind != 0
    requires forall i | 1 <= i < ninodes :: i in v.inodes
    requires off % DIRENT == 0 && off <= v.inodes[dp].size
    modifies v`bitmap, v`blocks, v`inodes, v`table, v`logged, v`owner
    ensures r.Panicked? <==>
              || (forall i | 1 <= i < ninodes :: old(v.inodes)[i].kind != 0)
              || off + DIRENT > LIMIT
              || FreeCount(old(v.View().used))
                 < (if kind == T_DIR then 1 else 0) + Demand(old(v.inodes)[dp].size, off, DIRENT)
    ensures r.Returned? ==>
              && v.Valid() && 1 <= r.value < ninodes && old(v.inodes)[r.value].kind == 0
              && (forall i | 1 <= i < r.value :: old(v.inodes)[i].kind != 0)
              && dp in FilesOf(old(v.View())) && off <= |FilesOf(old(v.View()))[dp].bytes|
              && FilesOf(v.View()) == Created(FilesOf(old(v.View())), dp, off, name, r.value, kind, major, minor)
              && OpOk(v.sb, Op(old(v.OnDisk()), v.OnDisk(), v.logged))
  {
    hide FreeCount, Consistent, FileOf, FilesOf, LoggedFor, Demand, Written, Prepared, Created, Entry, InodeBlock;
    hide OthersSame, Content, Covered;
    ghost var fs, files, d0, sb := v.View(), FilesOf(v.View()), v.OnDisk(), v.sb;
    FilesFacts(v, dp);
    ConsistentIsReadable(fs, v.table, DataStart(sb), v.owner);
    DemandIsNat(v.inodes[dp].size, off);
    v.logged := {};
    var a := v.Ialloc(kind, ninodes);
    if a.Panicked? {
      return Panicked;
    }
    var ip := a.value;
    ghost var x := {InodeBlock(sb, dp), InodeBlock(sb, ip)};
    FilesFacts(v, ip);
    NewFile(fs, v.View(), v.table, DataStart(sb), v.owner, ip);
    CreateSteps(files, FilesOf(v.View()), dp, off, name, ip, kind, major, minor);
    ghost var d1, l1 := v.OnDisk(), v.logged;
    var b;
    ghost var dots, data;
    b, dots := Prepare(v, dp, ip, major, minor);
    if b.Panicked? {
      return Panicked;
    }
    LoggedThen(sb, d0, {}, d1, l1, {InodeBlock(sb, ip)}, v.OnDisk(), v.logged, x + dots, x + dots);
    ghost var d2, l2 := v.OnDisk(), v.logged;
    b, data := WriteEntry(v, dp, off, Entry(ip, name));
    if b.Panicked? {
      return Panicked;
    }
    LoggedThen(sb, d0, {}, d2, l2, x + dots, v.OnDisk(), v.logged, {InodeBlock(sb, dp)} + data, x + dots + data);
    UnionSize(x, dots);
    UnionSize(x + dots, data);
    LoggedAtMost(sb, d0, v.OnDisk(), v.logged, x + dots + data);
    return Returned(ip);
  }

  lemma DemandIsNat(size: nat, off: nat)
    ensures Demand(size, off, DIRENT) >= 0
    ensures off + DIRENT <= size ==> Demand(size, off, DIRENT) == 0
  {
  }

  // ---- unlink ----

  /** sys_unlink of the entry at `off` of `dp`, which names `ip`; `last` if nobody else uses an `ip` without links. */
  ghost function Unlinked(files: Files, dp: nat, off: nat, ip: nat, last: bool): Files
    requires dp in files && ip in files && off <= |files[dp].bytes|
  {
    var d, f := files[dp], files[ip];
    files[dp := d.(nlink := d.nlink - if f.kind == T_DIR then 1 else 0,
                   bytes := Overwrite(d.bytes, off, Zeros(DIRENT)))]
         [ip := if last && f.nlink == 1 then File(0, f.major, f.minor, 0, []) else f.(nlink := f.nlink - 1)]
  }

  /** The end of iput on an inode without links that nobody else uses. */
  method Drop(v: Volume, ip: nat)
    requires v.Valid() && ip in v.inodes
    modifies v`bitmap, v`inodes, v`table, v`logged, v`owner
    ensures v.Valid() && ip in FilesOf(old(v.View()))
    ensures FilesOf(v.View()) == FilesOf(old(v.View()))[ip := FilesOf(old(v.View()))[ip].(kind := 0, bytes := [])]
    ensures LoggedFor(v.sb, old(v.OnDisk()), old(v.logged), v.OnDisk(), v.logged, {InodeBlock(v.sb, ip)})
  {
    hide FreeCount, Consistent, FilesOf, LoggedFor, OthersSame, Content;
    ghost var fs := v.View();
    FilesFacts(v, ip);
    ConsistentIsReadable(fs, v.table, DataStart(v.sb), v.owner);
    v.Release(ip);
    NewFile(fs, v.View(), v.table, DataStart(v.sb), v.owner, ip);
    FilesFacts(v, ip);
  }

  /** The first half of sys_unlink: the entry is cleared, and the link that ".." was is taken back. */
  ghost function Cleared(files: Files, dp: nat, off: nat, dir: bool): Files
    requires dp in files && off <= |files[dp].bytes|
  {
    var d := files[dp];
    files[dp := d.(nlink := d.nlink - if dir then 1 else 0, bytes := Overwrite(d.bytes, off, Zeros(DIRENT)))]
  }

  method ClearEntry(v: Volume, dp: nat, off: Word, dir: bool) returns (ghost x: set<nat>)
    requires v.Valid() && dp in v.inodes && v.inodes[dp].kind == T_DIR
    requires off % DIRENT == 0 && off + DIRENT <= v.inodes[dp].size
    modifies v`bitmap, v`blocks, v`inodes, v`table, v`logged, v`owner
    ensures v.Valid() && v.inodes.Keys == old(v.inodes.Keys)
    ensures dp in FilesOf(old(v.View())) && off <= |FilesOf(old(v.View()))[dp].bytes|
    ensures FilesOf(v.View()) == Cleared(FilesOf(old(v.View())), dp, off, dir)
    ensures |x| <= 3 && LoggedFor(v.sb, old(v.OnDisk()), old(v.logged), v.OnDisk(), v.logged, x)
  {
    hide FreeCount, Consistent, FileOf, FilesOf, LoggedFor, Demand, Overwrite, InodeBlock;
    ghost var d0, l0 := v.OnDisk(), v.logged;
    ghost var data;
    FilesFacts(v, dp);
    DemandIsNat(v.inodes[dp].size, off);
    var r;
    r, data := WriteEntry(v, dp, off, Zeros(DIRENT));
    x := {InodeBlock(v.sb, dp)} + data;
    UnionSize({InodeBlock(v.sb, dp)}, data);
    if dir {
      ghost var d1, l1 := v.OnDisk(), v.logged;
      FilesFacts(v, dp);
      SetFields(v, dp, v.inodes[dp].major, v.inodes[dp].minor, v.inodes[dp].nlink - 1);
      LoggedThen(v.sb, d0, l0, d1, l1, x, v.OnDisk(), v.logged, {InodeBlock(v.sb, dp)}, x);
    }
  }

  lemma UnlinkSteps(files: Files, dp: nat, off: nat, ip: nat, last: bool)
    requires dp in files && ip in files && dp != ip && off <= |files[dp].bytes|
    ensures var files1 := Cleared(files, dp, off, files[ip].kind == T_DIR);
            var files2 := files1[ip := files1[ip].(nlink := files1[ip].nlink - 1)];
            Unlinked(files, dp, off, ip, last)
            == if last && files[ip].nlink == 1 then files2[ip := files2[ip].(kind := 0, bytes := [])] else files2
  {
    hide Overwrite;
  }

  /**
   sys_unlink of the entry at `off`, which names `ip`, as an operation of its own. It panics exactly if `ip` has no
   links, so its writei never does; it logs at most five blocks, even if the file goes away.
   */
  method Unlink(v: Volume, dp: nat, off: Word, ip: nat, last: bool) returns (r: Outcome<()>)
    requires v.Valid() && dp in v.inodes && ip in v.inodes && dp != ip && v.inodes[dp].kind == T_DIR
    requires off % DIRENT == 0 && off + DIRENT <= v.inodes[dp].size
    modifies v`bitmap, v`blocks, v`inodes, v`table, v`logged, v`owner
    ensures r.Panicked? <==> old(v.inodes)[ip].nlink < 1
    ensures r.Returned? ==>
              && v.Valid() && dp in FilesOf(old(v.View())) && ip in FilesOf(old(v.View()))
              && off <= |FilesOf(old(v.View()))[dp].bytes|
              && FilesOf(v.View()) == Unlinked(FilesOf(old(v.View())), dp, off, ip, last)
              && OpOk(v.sb, Op(old(v.OnDisk()), v.OnDisk(), v.logged)) && (v.sb.size <= BPB ==> |v.logged| <= 5)
  {
    hide FreeCount, Consistent, FileOf, FilesOf, LoggedFor, Cleared, Unlinked, InodeBlock, Covered;
    ghost var files, d0, sb := FilesOf(v.View()), v.OnDisk(), v.sb;
    FilesFacts(v, dp);
    FilesFacts(v, ip);
    UnlinkSteps(files, dp, off, ip, last);
    if v.inodes[ip].nlink < 1 {
      return Panicked;
    }
    v.logged := {};
    ghost var x := ClearEntry(v, dp, off, v.inodes[ip].kind == T_DIR);
    ghost var d1, l1, y := v.OnDisk(), v.logged, {InodeBlock(sb, ip)};
    ClearedSame(files, dp, off, files[ip].kind == T_DIR, ip);
    FilesFacts(v, ip);
    SetFields(v, ip, v.inodes[ip].major, v.inodes[ip].minor, v.inodes[ip].nlink - 1);
    LoggedThen(sb, d0, {}, d1, l1, x, v.OnDisk(), v.logged, y, x + y);
    if last && v.inodes[ip].nlink == 0 {
      ghost var d2, l2 := v.OnDisk(), v.logged;
      Drop(v, ip);
      LoggedThen(sb, d0, {}, d2, l2, x + y, v.OnDisk(), v.logged, y, x + y);
    }
    UnionSize(x, y);
    LoggedAtMost(sb, d0, v.OnDisk(), v.logged, x + y);
    return Returned(());
  }

  lemma ClearedSame(files: Files, dp: nat, off: nat, dir: bool, ip: nat)
    requires dp in files && off <= |files[dp].bytes| && ip in files && ip != dp
    ensures ip in Cleared(files, dp, off, dir) && Cleared(files, dp, off, dir)[ip] == files[ip]
  {
  }

  // ---- link ----

  /** sys_link of `ip` under `name` at `off` of `dp`. */
  ghost function LinkedTo(files: Files, ip: nat, dp: nat, off: nat, name: seq<Byte>): Files
    requires dp in files && ip in files && off <= |files[dp].bytes|
  {
    var d, f := files[dp], files[ip];
    files[ip := f.(nlink := f.nlink + 1)][dp := d.(bytes := Overwrite(d.bytes, off, Entry(ip, name)))]
  }

  /**
   sys_link as an operation of its own; `found` is false if there is no parent directory or the name is taken. Then all
   files are as before, links included. It logs at most five blocks, and panics exactly if the directory cannot grow.
   */
  method Link(v: Volume, ip: nat, found: bool, dp: nat, off: Word, name: seq<Byte>) returns (r: Outcome<bool>)
    requires v.Valid() && ip in v.inodes && v.inodes[ip].kind != T_DIR
    requires found ==> dp in v.inodes && v.inodes[dp].kind == T_DIR && off % DIRENT == 0 && off <= v.inodes[dp].size
    modifies v`bitmap, v`blocks, v`inodes, v`table, v`logged, v`owner
    ensures r.Panicked? <==>
              && found
              && (|| off + DIRENT > LIMIT
                  || FreeCount(old(v.View().used)) < Demand(old(v.inodes)[dp].size, off, DIRENT))
    ensures r.Returned? ==>
              && v.Valid() && r.value == found && ip in FilesOf(old(v.View()))
              && (found ==>
                    && dp in FilesOf(old(v.View())) && off <= |FilesOf(old(v.View()))[dp].bytes|
                    && FilesOf(v.View()) == LinkedTo(FilesOf(old(v.View())), ip, dp, off, name))
              && (!found ==> FilesOf(v.View()) == FilesOf(old(v.View())))
              && OpOk(v.sb, Op(old(v.OnDisk()), v.OnDisk(), v.logged)) && (v.sb.size <= BPB ==> |v.logged| <= 5)
  {
    hide FreeCount, Consistent, FileOf, FilesOf, LoggedFor, InodeBlock, Covered, Demand, Entry, Overwrite;
    ghost var files, d0, sb, x := FilesOf(v.View()), v.OnDisk(), v.sb, {InodeBlock(v.sb, ip)};
    FilesFacts(v, ip);
    if found {
      FilesFacts(v, dp);
    }
    v.logged := {};
    SetFields(v, ip, v.inodes[ip].major, v.inodes[ip].minor, v.inodes[ip].nlink + 1);
    ghost var d1, l1 := v.OnDisk(), v.logged;
    FilesFacts(v, ip);
    if !found {
      SetFields(v, ip, v.inodes[ip].major, v.inodes[ip].minor, v.inodes[ip].nlink - 1);
      assert FilesOf(v.View()) == files;
      LoggedThen(sb, d0, {}, d1, l1, x, v.OnDisk(), v.logged, x, x);
      LoggedAtMost(sb, d0, v.OnDisk(), v.logged, x);
      return Returned(false);
    }
    FilesFacts(v, dp);
    var w;
    ghost var data;
    w, data := WriteEntry(v, dp, off, Entry(ip, name));
    if w.Panicked? {
      return Panicked;
    }
    ghost var y := {InodeBlock(sb, dp)} + data;
    LoggedThen(sb, d0, {}, d1, l1, x, v.OnDisk(), v.logged, y, x + y);
    UnionSize({InodeBlock(sb, dp)}, data);
    UnionSize(x, y);
    LoggedAtMost(sb, d0, v.OnDisk(), v.logged, x + y);
    return Returned(true);
  }

  // ---- What each operation leaves ----

  /** `b'` is `b` with `e` at `off`, longer if need be. */
  ghost predicate HasEntry(b: seq<Byte>, b': seq<Byte>, off: nat, e: seq<Byte>) {
    && off <= |b| && |b'| == Max(|b|, off + |e|) && b'[off..off + |e|] == e
    && forall i | 0 <= i < |b| && !(off <= i < off + |e|) :: b'[i] == b[i]
  }

  ghost predicate OnlyThese(files: Files, files': Files, a: nat, b: nat) {
    forall i | i in files && i != a && i != b :: i in files' && files'[i] == files[i]
  }

  /** create: the new file as asked for, its entry, one link for "..", and nothing else. */
  lemma CreatedLeaves(
    files: Files, dp: nat, off: nat, name: seq<Byte>, ip: nat, kind: int, major: int, minor: int)
    requires dp in files && off <= |files[dp].bytes| && ip != dp
    ensures var files' := Created(files, dp, off, name, ip, kind, major, minor);
            && OnlyThese(files, files', dp, ip) && files'.Keys == files.Keys + {ip}
            && files'[ip].kind == kind && files'[ip].major == major && files'[ip].minor == minor
            && files'[ip].nlink == 1 && (kind != T_DIR ==> files'[ip].bytes == [])
            && (kind == T_DIR ==> |files'[ip].bytes| == 2 * DIRENT && files'[ip].bytes[..DIRENT] == Entry(ip, DOT)
                                  && files'[ip].bytes[DIRENT..] == Entry(dp, DOTDOT))
            && HasEntry(files[dp].bytes, files'[dp].bytes, off, Entry(ip, name))
            && files'[dp].nlink - files[dp].nlink == (if kind == T_DIR then 1 else 0)
            && files'[dp].kind == files[dp].kind && files'[dp].major == files[dp].major
            && files'[dp].minor == files[dp].minor
  {
    hide Entry;
  }

  /** unlink: a cleared entry, one link less for the file and, for a directory, for its parent; or the file is gone. */
  lemma UnlinkedLeaves(files: Files, dp: nat, off: nat, ip: nat, last: bool)
    requires dp in files && ip in files && ip != dp && off <= |files[dp].bytes|
    ensures var files' := Unlinked(files, dp, off, ip, last);
            && OnlyThese(files, files', dp, ip) && files'.Keys == files.Keys
            && HasEntry(files[dp].bytes, files'[dp].bytes, off, Zeros(DIRENT))
            && files[dp].nlink - files'[dp].nlink == (if files[ip].kind == T_DIR then 1 else 0)
            && files'[dp].kind == files[dp].kind && files'[dp].major == files[dp].major
            && files'[dp].minor == files[dp].minor
            && files'[ip].nlink == files[ip].nlink - 1
            && files'[ip].major == files[ip].major && files'[ip].minor == files[ip].minor
            && if last && files[ip].nlink == 1 then files'[ip].kind == 0 && files'[ip].bytes == []
               else files'[ip].kind == files[ip].kind && files'[ip].bytes == files[ip].bytes
  {
  }

  /** link: an entry and one link more. */
  lemma LinkedLeaves(files: Files, ip: nat, dp: nat, off: nat, name: seq<Byte>)
    requires dp in files && ip in files && ip != dp && off <= |files[dp].bytes|
    ensures var files' := LinkedTo(files, ip, dp, off, name);
            && OnlyThese(files, files', dp, ip) && files'.Keys == files.Keys
            && HasEntry(files[dp].bytes, files'[dp].bytes, off, Entry(ip, name))
            && files'[dp] == files[dp].(bytes := files'[dp].bytes)
            && files'[ip] == files[ip].(nlink := files'[ip].nlink) && files'[ip].nlink == files[ip].nlink + 1
  {
    hide Entry;
  }
}
