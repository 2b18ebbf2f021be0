/**
 create, link and unlink of part1/sysfile.c on a volume, with their searches through the directory's bytes. They are the
 operations of module LinkCounts on the tree that the bytes mean, so the link counts on the volume stay right.
 */
module VolumeDirectories {
  import opened Blocks
  import opened Bitmap
  import opened FileBlocks
  import opened FileContents
  import opened FileSystem
  import DirOperations
  import Directories
  import opened LinkCounts
  import opened DirectoryBytes

  /** The tree on the volume, with the links that are under way. */
  ghost function StateOf(v: Volume, pending: multiset<nat>, root: nat): State
    reads v
  {
    State(TreeOf(DirOperations.FilesOf(v.View())), pending, root)
  }

  /** Consistent, and directories consist of whole entries. */
  ghost predicate Sound(v: Volume)
    reads v
  {
    v.Valid() && Whole(DirOperations.FilesOf(v.View()))
  }

  /** A directory of the volume. */
  ghost predicate IsDir(v: Volume, dp: nat)
    reads v
  {
    dp in v.inodes && dp != 0 && v.inodes[dp].kind == DIR
  }

  /** The entries of directory `dp`. */
  ghost function Entries(v: Volume, dp: nat): seq<Dirent>
    reads v
    requires Sound(v) && dp in v.inodes
  {
    Dirents(v.File(dp))
  }

  lemma NodeHere(v: Volume, pending: multiset<nat>, root: nat, i: nat)
    requires Sound(v) && i in v.inodes && i != 0
    ensures i in StateOf(v, pending, root).t && i in DirOperations.FilesOf(v.View()) && i < INUMS
    ensures var n, ino := StateOf(v, pending, root).t[i], v.inodes[i];
            && n.kind == ino.kind && n.nlink == ino.nlink && (n.kind == DIR ==> n.entries == Entries(v, i))
            && ino.size == |v.File(i)| && v.File(i) == DirOperations.FilesOf(v.View())[i].bytes
  {
    DirOperations.FilesFacts(v, i);
  }

  lemma TreeKeys(v: Volume, pending: multiset<nat>, root: nat)
    requires Sound(v)
    ensures forall i :: i in StateOf(v, pending, root).t <==> i in v.inodes && i != 0
    ensures forall i | i in v.inodes && i != 0 :: StateOf(v, pending, root).t[i].kind == v.inodes[i].kind
  {
    hide Content, TreeOf;
    DirOperations.ConsistentIsReadable(v.View(), v.table, DataStart(v.sb), v.owner);
    forall i | i in v.inodes && i != 0
      ensures StateOf(v, pending, root).t[i].kind == v.inodes[i].kind
    {
      NodeHere(v, pending, root, i);
    }
  }

  /** readi of entry `i`. */
  method ReadEntry(v: Volume, dp: nat, i: nat) returns (d: Dirent)
    requires Sound(v) && IsDir(v, dp) && DIRENT * i + DIRENT <= v.inodes[dp].size
    modifies v`bitmap, v`blocks, v`inodes, v`logged, v`owner
    ensures Sound(v) && v.View() == old(v.View()) && v.OnDisk() == old(v.OnDisk()) && v.logged == old(v.logged)
    ensures i < |Entries(v, dp)| && d == Entries(v, dp)[i]
  {
    hide FileBlocks.Owned, Consistent, Whole, Content, DirentOf;
    ghost var fs := v.View();
    NodeHere(v, multiset{}, 0, dp);
    SmallFile(v, dp);
    var r, e := v.Readi(dp, DIRENT * i, DIRENT);
    assert v.File(dp) == Content(fs, dp);
    d := DirentOf(e);
  }

  lemma SmallFile(v: Volume, dp: nat)
    requires v.Valid() && dp in v.inodes
    ensures v.inodes[dp].size <= LIMIT
  {
    DirOperations.FilesFacts(v, dp);
  }

  /** dirlookup. */
  method DirLookup(v: Volume, dp: nat, name: string) returns (k: nat)
    requires Sound(v) && IsDir(v, dp)
    modifies v`bitmap, v`blocks, v`inodes, v`logged, v`owner
    ensures Sound(v) && v.View() == old(v.View()) && v.OnDisk() == old(v.OnDisk()) && v.logged == old(v.logged)
    ensures k == Lookup(Entries(v, dp), name, 0)
  {
    hide FileBlocks.Owned, Consistent, Whole, Content, Lookup;
    ghost var es := Entries(v, dp);
    EntriesEnd(v, dp);
    k := 0;
    while DIRENT * k < v.inodes[dp].size
      invariant Sound(v) && v.View() == old(v.View()) && v.OnDisk() == old(v.OnDisk()) && v.logged == old(v.logged)
      invariant Entries(v, dp) == es && k <= |es| && v.inodes[dp].size == DIRENT * |es|
      invariant Lookup(es, name, 0) == Lookup(es, name, k)
    {
      LookupFrom(es, name, k);
      var d := ReadEntry(v, dp, k);
      if d.inum != 0 && d.name == name {
        return;
      }
      k := k + 1;
    }
    LookupFrom(es, name, k);
  }

  lemma LookupFrom(es: seq<Dirent>, name: string, k: nat)
    requires k <= |es|
    ensures Lookup(es, name, k)
            == if k == |es| || (es[k].inum != 0 && es[k].name == name) then k else Lookup(es, name, k + 1)
  {
  }

  lemma UnusedFrom(es: seq<Dirent>, k: nat)
    requires k <= |es|
    ensures Unused(es, k) == if k == |es| || es[k].inum == 0 then k else Unused(es, k + 1)
  {
  }

  lemma EntriesEnd(v: Volume, dp: nat)
    requires Sound(v) && IsDir(v, dp)
    ensures v.inodes[dp].size == DIRENT * |Entries(v, dp)| <= LIMIT
  {
    DirOperations.FilesFacts(v, dp);
  }

  /** dirlink's search for a place. */
  method FindPlace(v: Volume, dp: nat) returns (k: nat)
    requires Sound(v) && IsDir(v, dp)
    modifies v`bitmap, v`blocks, v`inodes, v`logged, v`owner
    ensures Sound(v) && v.View() == old(v.View()) && v.OnDisk() == old(v.OnDisk()) && v.logged == old(v.logged)
    ensures k == Unused(Entries(v, dp), 0)
  {
    hide FileBlocks.Owned, Consistent, Whole, Content, Unused;
    ghost var es := Entries(v, dp);
    EntriesEnd(v, dp);
    k := 0;
    while DIRENT * k < v.inodes[dp].size
      invariant Sound(v) && v.View() == old(v.View()) && v.OnDisk() == old(v.OnDisk()) && v.logged == old(v.logged)
      invariant Entries(v, dp) == es && k <= |es| && v.inodes[dp].size == DIRENT * |es|
      invariant Unused(es, 0) == Unused(es, k)
    {
      UnusedFrom(es, k);
      var d := ReadEntry(v, dp, k);
      if d.inum == 0 {
        return;
      }
      k := k + 1;
    }
    UnusedFrom(es, k);
  }

  /** isdirempty. */
  method IsDirEmpty(v: Volume, dp: nat) returns (b: bool)
    requires Sound(v) && IsDir(v, dp)
    modifies v`bitmap, v`blocks, v`inodes, v`logged, v`owner
    ensures Sound(v) && v.View() == old(v.View()) && v.OnDisk() == old(v.OnDisk()) && v.logged == old(v.logged)
    ensures b <==> IsEmpty(Entries(v, dp))
  {
    hide FileBlocks.Owned, Consistent, Whole, Content, EmptyUpTo, IsEmpty;
    ghost var es := Entries(v, dp);
    EntriesEnd(v, dp);
    var k := 2;
    EmptySteps(es, k);
    while DIRENT * k < v.inodes[dp].size
      invariant Sound(v) && v.View() == old(v.View()) && v.OnDisk() == old(v.OnDisk()) && v.logged == old(v.logged)
      invariant Entries(v, dp) == es && 2 <= k && v.inodes[dp].size == DIRENT * |es| && EmptyUpTo(es, k)
    {
      EmptySteps(es, k);
      var d := ReadEntry(v, dp, k);
      if d.inum != 0 {
        return false;
      }
      k := k + 1;
    }
    EmptySteps(es, k);
    return true;
  }

  ghost predicate EmptyUpTo(es: seq<Dirent>, k: nat) {
    forall i | 2 <= i < k && i < |es| :: es[i].inum == 0
  }

  lemma EmptySteps(es: seq<Dirent>, k: nat)
    ensures EmptyUpTo(es, 2)
    ensures EmptyUpTo(es, k) && k < |es| && es[k].inum == 0 ==> EmptyUpTo(es, k + 1)
    ensures 2 <= k < |es| && es[k].inum != 0 ==> !IsEmpty(es)
    ensures EmptyUpTo(es, k) && k >= |es| ==> IsEmpty(es)
  {
  }

  // ---- Operations ----

  /**
   create. A name that is there is returned if file and request are regular files, else refused, and nothing changes.
   Otherwise the tree becomes that of LinkCounts.Created; it panics exactly if no inode is free, the directory cannot
   grow or the blocks do not suffice. Counts stay right exactly if the directory has links.
   */
  method Create(
    v: Volume, ghost pending: multiset<nat>, ghost root: nat, dp: nat, name: seq<Byte>, kind: int, major: int,
    minor: int, ninodes: nat)
    returns (r: Outcome<nat>)
    requires Sound(v) && Linked(StateOf(v, pending, root)) && IsDir(v, dp) && kind != 0
    requires forall i | 1 <= i < ninodes :: i in v.inodes
    modifies v`bitmap, v`blocks, v`inodes, v`table, v`logged, v`owner
    ensures var s, es := old(StateOf(v, pending, root)), old(Entries(v, dp));
            var k, j := Lookup(es, Cut(name), 0), Unused(es, 0);
            if k < |es| then
              && Sound(v) && StateOf(v, pending, root) == s && v.OnDisk() == old(v.OnDisk()) && es[k].inum in s.t
              && r == Returned(if kind == FILE && s.t[es[k].inum].kind == FILE then es[k].inum else 0)
            else
              && (r.Panicked? <==>
                    || (forall i | 1 <= i < ninodes :: old(v.inodes)[i].kind != 0)
                    || DIRENT * j + DIRENT > LIMIT
                    || FreeCount(old(v.View().used))
                       < (if kind == DIR then 1 else 0) + Demand(old(v.inodes)[dp].size, DIRENT * j, DIRENT))
              && (r.Returned? ==>
                    && Sound(v) && dp in s.t && r.value in s.t && s.t[r.value].kind == 0
                    && StateOf(v, pending, root) == Created(s, dp, Cut(name), r.value, kind)
                    && (Linked(StateOf(v, pending, root)) <==> s.t[dp].nlink > 0)
                    && OpOk(v.sb, Op(old(v.OnDisk()), v.OnDisk(), v.logged)))
  {
    hide FileBlocks.Owned, Consistent, Whole, Content, Lookup, Unused, Linked, Dirents, DirOperations.FilesOf, TreeOf;
    hide Created, Cut, OpOk, FreeCount, Demand;
    ghost var s, es, d0 := StateOf(v, pending, root), Entries(v, dp), v.OnDisk();
    NodeHere(v, pending, root, dp);
    TreeKeys(v, pending, root);
    EntriesEnd(v, dp);
    var k := DirLookup(v, dp, Cut(name));
    if DIRENT * k < v.inodes[dp].size {
      var d := ReadEntry(v, dp, k);
      FoundName(es, Cut(name));
      Directories.EntryInTree(s, dp, k);
      NodeHere(v, pending, root, d.inum);
      return Returned(if kind == FILE && v.inodes[d.inum].kind == FILE then d.inum else 0);
    }
    FoundName(es, Cut(name));
    r := CreateAbsent(v, pending, root, dp, name, kind, major, minor, ninodes);
  }

  /** create from ialloc on. */
  method CreateAbsent(
    v: Volume, ghost pending: multiset<nat>, ghost root: nat, dp: nat, name: seq<Byte>, kind: int, major: int,
    minor: int, ninodes: nat)
    returns (r: Outcome<nat>)
    requires Sound(v) && Linked(StateOf(v, pending, root)) && IsDir(v, dp) && kind != 0
    requires Lookup(Entries(v, dp), Cut(name), 0) == |Entries(v, dp)|
    requires forall i | 1 <= i < ninodes :: i in v.inodes
    modifies v`bitmap, v`blocks, v`inodes, v`table, v`logged, v`owner
    ensures var j := Unused(old(Entries(v, dp)), 0);
            r.Panicked? <==>
              || (forall i | 1 <= i < ninodes :: old(v.inodes)[i].kind != 0)
              || DIRENT * j + DIRENT > LIMIT
              || FreeCount(old(v.View().used))
                 < (if kind == DIR then 1 else 0) + Demand(old(v.inodes)[dp].size, DIRENT * j, DIRENT)
    ensures r.Returned? ==>
              var s := old(StateOf(v, pending, root));
              && Sound(v) && dp in s.t && r.value in s.t && s.t[r.value].kind == 0
              && StateOf(v, pending, root) == Created(s, dp, Cut(name), r.value, kind)
              && (Linked(StateOf(v, pending, root)) <==> s.t[dp].nlink > 0)
              && OpOk(v.sb, Op(old(v.OnDisk()), v.OnDisk(), v.logged))
  {
    hide FileBlocks.Owned, Consistent, Whole, Content, Lookup, Unused, Linked, Dirents, DirOperations.FilesOf, TreeOf;
    hide Created, Cut, OpOk, FreeCount, Demand, DirOperations.Created;
    ghost var s, es, files := StateOf(v, pending, root), Entries(v, dp), DirOperations.FilesOf(v.View());
    NodeHere(v, pending, root, dp);
    TreeKeys(v, pending, root);
    EntriesEnd(v, dp);
    var j := FindPlace(v, dp);
    PlaceFits(es, DIRENT * |es|);
    r := DirOperations.Create(v, dp, name, DIRENT * j, kind, major, minor, ninodes);
    if r.Returned? {
      CreatedDecodes(files, s, dp, name, r.value, kind, major, minor);
      CreatedCounts(s, es, dp, Cut(name), r.value, kind);
    }
  }

  lemma CreatedCounts(s: State, es: seq<Dirent>, dp: nat, name: string, ip: nat, kind: int)
    requires Linked(s) && dp in s.t && ip in s.t && s.t[dp].kind == DIR && s.t[dp].entries == es
    requires s.t[ip].kind == 0 && kind != 0 && Lookup(es, name, 0) == |es|
    ensures Linked(Created(s, dp, name, ip, kind)) <==> s.t[dp].nlink > 0
    ensures Created(s, dp, name, ip, kind).pending == s.pending && Created(s, dp, name, ip, kind).root == s.root
  {
    hide Linked, Lookup;
    Directories.LiveOrNot(s, dp);
    if s.t[dp].nlink > 0 {
      CreatedKeeps(s, dp, name, ip, kind);
    } else {
      CreatedInRemoved(s, dp, name, ip, kind);
    }
  }

  /** What unlink leaves of the tree: an inode that lost its last link is freed unless somebody uses it. */
  ghost function Removed(s: State, dp: nat, k: nat, last: bool): State
    requires dp in s.t && k < |s.t[dp].entries| && s.t[dp].entries[k].inum in s.t
  {
    var ip := s.t[dp].entries[k].inum;
    if last && s.t[ip].nlink == 1 then Released(Unlinked(s, dp, k), ip) else Unlinked(s, dp, k)
  }

  /**
   unlink: removes exactly the removable names and changes nothing otherwise; `last` if nobody else uses the inode.
   Counts stay right, nothing panics, and at most five blocks are logged.
   */
  method Unlink(v: Volume, ghost pending: multiset<nat>, ghost root: nat, dp: nat, name: seq<Byte>, last: bool)
    returns (ok: bool)
    requires Sound(v) && Linked(StateOf(v, pending, root)) && IsDir(v, dp)
    modifies v`bitmap, v`blocks, v`inodes, v`table, v`logged, v`owner
    ensures Sound(v) && Linked(StateOf(v, pending, root))
    ensures ok <==> Directories.Removable(old(StateOf(v, pending, root)), dp, Cut(name))
    ensures !ok ==> StateOf(v, pending, root) == old(StateOf(v, pending, root)) && v.OnDisk() == old(v.OnDisk())
    ensures ok ==>
              var s := old(StateOf(v, pending, root));
              && dp in s.t
              && var k := Lookup(s.t[dp].entries, Cut(name), 0);
                 && k < |s.t[dp].entries| && s.t[dp].entries[k].inum in s.t
                 && StateOf(v, pending, root) == Removed(s, dp, k, last)
                 && OpOk(v.sb, Op(old(v.OnDisk()), v.OnDisk(), v.logged)) && (v.sb.size <= BPB ==> |v.logged| <= 5)
  {
    hide FileBlocks.Owned, Consistent, Whole, Content, Lookup, Linked, Dirents, DirOperations.FilesOf, TreeOf, IsEmpty;
    hide Cut, OpOk, Removed, DirOperations.Unlinked;
    ghost var s, es := StateOf(v, pending, root), Entries(v, dp);
    NodeHere(v, pending, root, dp);
    TreeKeys(v, pending, root);
    EntriesEnd(v, dp);
    FoundName(es, Cut(name));
    if Cut(name) == "." || Cut(name) == ".." {
      return false;
    }
    var k := DirLookup(v, dp, Cut(name));
    if DIRENT * k >= v.inodes[dp].size {
      return false;
    }
    var d := ReadEntry(v, dp, k);
    FoundEntry(s, dp, Cut(name), k);
    NodeHere(v, pending, root, d.inum);
    if v.inodes[d.inum].kind == DIR {
      var empty := IsDirEmpty(v, d.inum);
      if !empty {
        return false;
      }
    }
    RemoveEntry(v, pending, root, dp, Cut(name), k, d.inum, last);
    return true;
  }

  /** unlink from the clearing of entry `k` on, which names `ip`. */
  method RemoveEntry(
    v: Volume, ghost pending: multiset<nat>, ghost root: nat, dp: nat, ghost name: string, k: nat, ip: nat, last: bool)
    requires Sound(v) && Linked(StateOf(v, pending, root)) && IsDir(v, dp)
    requires CanUnlink(StateOf(v, pending, root), dp, name, k) && StateOf(v, pending, root).t[dp].entries[k].inum == ip
    requires ip in v.inodes && (v.inodes[ip].kind == DIR ==> IsEmpty(Entries(v, ip)))
    modifies v`bitmap, v`blocks, v`inodes, v`table, v`logged, v`owner
    ensures Sound(v) && Linked(StateOf(v, pending, root))
    ensures var s := old(StateOf(v, pending, root));
            && dp in s.t && k < |s.t[dp].entries| && ip in s.t && s.t[dp].entries[k].inum == ip
            && StateOf(v, pending, root) == Removed(s, dp, k, last)
    ensures OpOk(v.sb, Op(old(v.OnDisk()), v.OnDisk(), v.logged)) && (v.sb.size <= BPB ==> |v.logged| <= 5)
  {
    hide FileBlocks.Owned, Consistent, Whole, Content, Lookup, Linked, Dirents, DirOperations.FilesOf, TreeOf, IsEmpty;
    hide Cut, OpOk, Removed, DirOperations.Unlinked;
    ghost var s, files := StateOf(v, pending, root), DirOperations.FilesOf(v.View());
    NodeHere(v, pending, root, dp);
    EntriesEnd(v, dp);
    FoundEntry(s, dp, name, k);
    NodeHere(v, pending, root, ip);
    UnlinkedCounts(s, dp, name, k, last);
    var r := DirOperations.Unlink(v, dp, DIRENT * k, ip, last);
    UnlinkedDecodes(files, s, dp, k, ip, last);
  }

  lemma UnlinkedCounts(s: State, dp: nat, name: string, k: nat, last: bool)
    requires Linked(s) && CanUnlink(s, dp, name, k)
    requires var ip := s.t[dp].entries[k].inum;
             ip in s.t && (s.t[ip].kind == DIR ==> IsEmpty(s.t[ip].entries))
    ensures var ip, s' := s.t[dp].entries[k].inum, Removed(s, dp, k, last);
            && Linked(s') && s'.pending == s.pending && s'.root == s.root
            && s'.t == (if last && s.t[ip].nlink == 1 then Released(Unlinked(s, dp, k), ip) else Unlinked(s, dp, k)).t
  {
    hide Linked, IsEmpty, Lookup, NamesAt;
    var ip := s.t[dp].entries[k].inum;
    UnlinkedKeeps(s, dp, name, k);
    FoundEntry(s, dp, name, k);
    if last && s.t[ip].nlink == 1 {
      NoPending(s, dp, k, ip);
      ReleasedKeeps(Unlinked(s, dp, k), ip);
    }
  }

  /** The one link of an inode is the entry, so no link is under way. */
  lemma NoPending(s: State, dp: nat, k: nat, ip: nat)
    requires Linked(s) && ip in s.t && s.t[ip].nlink == 1 && NamesAt(s.t, Pos(dp, k), ip)
    ensures ip !in s.pending
  {
    hide Linked, Refs, NamesAt;
    Parts(s, ip);
    RefsAre(s.t, ip);
    assert Pos(dp, k) in Refs(s.t, ip);
    assert Refs(s.t, ip) == Refs(s.t, ip) - {Pos(dp, k)} + {Pos(dp, k)};
  }

  /**
   link of `ip` under `name` in `dp`, if the path has a parent (`found`). Refused, with everything as before, exactly
   for a directory, without a parent or if the name is taken; otherwise the entry is made, or there is no room for it.
   Counts stay right exactly if the directory has links.
   */
  method Link(
    v: Volume, ghost pending: multiset<nat>, ghost root: nat, ip: nat, found: bool, dp: nat, name: seq<Byte>)
    returns (r: Outcome<bool>)
    requires Sound(v) && Linked(StateOf(v, pending, root)) && ip in v.inodes && ip != 0 && v.inodes[ip].kind != 0
    requires found ==> IsDir(v, dp)
    modifies v`bitmap, v`blocks, v`inodes, v`table, v`logged, v`owner
    ensures var s := old(StateOf(v, pending, root));
            if old(v.inodes)[ip].kind == DIR || !found || !CanLink(s, dp, Cut(name)) then
              r == Returned(false) && Sound(v) && StateOf(v, pending, root) == s
            else
              && dp in s.t && ip in s.t
              && (r.Panicked? <==>
                    var j := Unused(s.t[dp].entries, 0);
                    || DIRENT * j + DIRENT > LIMIT
                    || FreeCount(old(v.View().used)) < Demand(old(v.inodes)[dp].size, DIRENT * j, DIRENT))
              && (r.Returned? ==>
                    && r.value && Sound(v)
                    && StateOf(v, pending, root) == LinkDone(LinkBegun(s, ip), ip, dp, Cut(name))
                    && (Linked(StateOf(v, pending, root)) <==> s.t[dp].nlink > 0)
                    && OpOk(v.sb, Op(old(v.OnDisk()), v.OnDisk(), v.logged)) && (v.sb.size <= BPB ==> |v.logged| <= 5))
  {
    hide FileBlocks.Owned, Consistent, Whole, Content, Lookup, Unused, Linked, Dirents, DirOperations.FilesOf, TreeOf;
    hide Cut, OpOk, FreeCount, Demand, DirOperations.LinkedTo;
    if v.inodes[ip].kind == DIR {
      return Returned(false);
    }
    ghost var s, files := StateOf(v, pending, root), DirOperations.FilesOf(v.View());
    NodeHere(v, pending, root, ip);
    var free := found;
    var off: Word := 0;
    if found {
      NodeHere(v, pending, root, dp);
      EntriesEnd(v, dp);
      ghost var es := Entries(v, dp);
      FoundName(es, Cut(name));
      PlaceFits(es, DIRENT * |es|);
      var k := DirLookup(v, dp, Cut(name));
      free := DIRENT * k >= v.inodes[dp].size;
      var j := FindPlace(v, dp);
      off := DIRENT * j;
    }
    r := DirOperations.Link(v, ip, free, dp, off, name);
    if r.Returned? && free {
      LinkedDecodes(files, s, ip, dp, name);
      LinkedCounts(s, ip, dp, Cut(name));
    }
  }

  lemma LinkedCounts(s: State, ip: nat, dp: nat, name: string)
    requires Linked(s) && ip in s.t && s.t[ip].kind != 0 && s.t[ip].kind != DIR && CanLink(s, dp, name)
    ensures var s' := LinkDone(LinkBegun(s, ip), ip, dp, name);
            && (Linked(s') <==> s.t[dp].nlink > 0)
            && s'.pending == s.pending && s'.root == s.root
  {
    hide Linked, Lookup;
    LinkBegunKeeps(s, ip);
    LinkDoneKeeps(LinkBegun(s, ip), ip, dp, name);
    Directories.LiveOrNot(s, dp);
    if s.t[dp].nlink == 0 {
      Directories.LinkedCount(LinkDone(LinkBegun(s, ip), ip, dp, name), ip);
    }
  }

  lemma FoundName(es: seq<Dirent>, name: string)
    ensures var k := Lookup(es, name, 0);
            k <= |es| && (k < |es| ==> es[k].inum != 0 && es[k].name == name)
  {
  }

  lemma PlaceFits(es: seq<Dirent>, size: nat)
    requires size == DIRENT * |es| <= LIMIT
    ensures DIRENT * Unused(es, 0) <= size
  {
  }
}
