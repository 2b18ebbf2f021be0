/** sys_link, sys_unlink and create of part1/sysfile.c over the directory routines of part1/fs.c. */
module Directories {
  import opened LinkCounts

  datatype Reply = Ok(inum: nat) | Refused | NoInodes

  /** The name is there, is no dot name, and is no directory with entries. */
  ghost predicate Removable(s: State, dp: nat, name: string) {
    && dp in s.t && name != "." && name != ".."
    && var off := Lookup(s.t[dp].entries, name, 0);
       && off < |s.t[dp].entries| && s.t[dp].entries[off].inum in s.t
       && var ip := s.t[s.t[dp].entries[off].inum];
          ip.kind != DIR || IsEmpty(ip.entries)
  }

  class Namespace {
    const root: nat
    const ninodes: nat
    var t: Tree
    var pending: multiset<nat>

    ghost function View(): State
      reads this
    {
      State(t, pending, root)
    }

    /** The inode numbers, and every count right. */
    ghost predicate Valid()
      reads this
    {
      Linked(View()) && forall i | 1 <= i < ninodes :: i in t
    }

    /** A volume as mkfs leaves it: a root directory and free inodes. */
    constructor (ninodes: nat)
      requires ninodes >= 2
      ensures Valid() && root == 1 && this.ninodes == ninodes
    {
      this.root, this.ninodes, pending := 1, ninodes, multiset{};
      t := MkTree(ninodes);
      new;
      OneDirectory(View());
    }

    method DirLookup(dp: nat, name: string) returns (off: nat)
      requires dp in t
      ensures off == Lookup(t[dp].entries, name, 0)
    {
      off := 0;
      while off < |t[dp].entries|
        invariant off <= |t[dp].entries| && Lookup(t[dp].entries, name, 0) == Lookup(t[dp].entries, name, off)
      {
        if t[dp].entries[off].inum != 0 && t[dp].entries[off].name == name {
          return;
        }
        off := off + 1;
      }
    }

    /** dirlink: false if the name is taken. */
    method DirLink(dp: nat, name: string, inum: nat) returns (ok: bool)
      requires dp in t
      modifies this`t
      ensures ok <==> Lookup(old(t[dp].entries), name, 0) == |old(t[dp].entries)|
      ensures t == if ok then old(t)[dp := old(t[dp]).(entries := WithDirent(old(t[dp].entries), name, inum))]
              else old(t)
    {
      var off := DirLookup(dp, name);
      var es := t[dp].entries;
      if off < |es| {
        return false;
      }
      off := 0;
      while off < |es| && es[off].inum != 0
        invariant off <= |es| && Unused(es, 0) == Unused(es, off)
      {
        off := off + 1;
      }
      var de := Dirent(inum, name);
      t := t[dp := t[dp].(entries := if off < |es| then es[off := de] else es + [de])];
      return true;
    }

    method IsDirEmpty(dp: nat) returns (b: bool)
      requires dp in t
      ensures b <==> IsEmpty(t[dp].entries)
    {
      var off := 2;
      while off < |t[dp].entries|
        invariant 2 <= off && forall i | 2 <= i < off && i < |t[dp].entries| :: t[dp].entries[i].inum == 0
      {
        if t[dp].entries[off].inum != 0 {
          return false;
        }
        off := off + 1;
      }
      return true;
    }

    /** sys_link up to iunlock(ip): the count is raised unless `ip` is a directory. */
    method LinkBegin(ip: nat) returns (ok: bool)
      requires Valid() && ip in t && t[ip].kind != 0
      modifies this
      ensures Valid() && (ok <==> old(t[ip]).kind != DIR)
      ensures View() == if ok then LinkBegun(old(View()), ip) else old(View())
    {
      hide Linked;
      if t[ip].kind == DIR {
        return false;
      }
      LinkBegunKeeps(View(), ip);
      t := t[ip := t[ip].(nlink := t[ip].nlink + 1)];
      pending := pending + multiset{ip};
      return true;
    }

    /** The rest of sys_link; `found` is false if the new path has no parent directory. */
    method LinkEnd(ip: nat, found: bool, dp: nat, name: string) returns (ok: bool)
      requires Valid() && ip in pending && (found ==> dp in t && t[dp].kind == DIR)
      modifies this
      ensures ok <==> found && CanLink(old(View()), dp, name)
      ensures ok ==> dp in old(t) && View() == LinkDone(old(View()), ip, dp, name)
      ensures !ok ==> ip in old(t) && View() == LinkFailed(old(View()), ip)
      ensures Valid() <==> !(ok && old(t)[dp].nlink == 0)
    {
      hide Linked;
      PendingIsFile(View(), ip);
      ghost var s := View();
      ok := false;
      if found {
        ok := DirLink(dp, name, ip);
      }
      if ok {
        LinkDoneKeeps(s, ip, dp, name);
        LiveOrNot(s, dp);
        LinkedCount(LinkDone(s, ip, dp, name), ip);
      } else {
        LinkFailedKeeps(s, ip);
        t := t[ip := t[ip].(nlink := t[ip].nlink - 1)];
      }
      pending := pending - multiset{ip};
    }

    /** sys_unlink of `name` in `dp`; the panic on nlink < 1 is unreachable. */
    method Unlink(dp: nat, name: string) returns (ok: bool)
      requires Valid() && dp in t && t[dp].kind == DIR
      modifies this`t
      ensures Valid()
      ensures ok <==> Removable(old(View()), dp, name)
      ensures ok ==>
                var off := Lookup(old(t[dp].entries), name, 0);
                var ip := old(t[dp].entries)[off].inum;
                && View() == Unlinked(old(View()), dp, off)
                && ip in t && (t[ip].kind == DIR ==> t[ip].nlink == 0)
      ensures !ok ==> View() == old(View())
    {
      hide Linked, IsEmpty;
      if name == "." || name == ".." {
        return false;
      }
      var off := DirLookup(dp, name);
      if off == |t[dp].entries| {
        return false;
      }
      UnlinkedKeeps(View(), dp, name, off);
      FoundEntry(View(), dp, name, off);
      var ip := t[dp].entries[off].inum;
      assert t[ip].nlink >= 1;
      if t[ip].kind == DIR {
        var empty := IsDirEmpty(ip);
        if !empty {
          return false;
        }
      }
      var dir := t[ip].kind == DIR;
      t := t[dp := t[dp].(entries := t[dp].entries[off := EMPTY])];
      if dir {
        t := t[dp := t[dp].(nlink := t[dp].nlink - 1)];
      }
      t := t[ip := t[ip].(nlink := t[ip].nlink - 1)];
      assert View() == Unlinked(old(View()), dp, off);
      return true;
    }

    /** create: an existing file, or a new inode under `name`. */
    method Create(dp: nat, name: string, kind: int) returns (r: Reply)
      requires Valid() && dp in t && t[dp].kind == DIR && kind != 0
      modifies this`t
      ensures var off := Lookup(old(t[dp].entries), name, 0);
              if off < |old(t[dp].entries)| then
                && View() == old(View()) && Valid() && old(t[dp].entries)[off].inum in t
                && r == if kind == FILE && t[old(t[dp].entries)[off].inum].kind == FILE then
                     Ok(old(t[dp].entries)[off].inum) else Refused
              else if r.NoInodes? then
                View() == old(View()) && forall i | 1 <= i < ninodes :: i in old(t) && old(t)[i].kind != 0
              else
                && r.Ok? && r.inum in old(t) && old(t)[r.inum].kind == 0
                && View() == Created(old(View()), dp, name, r.inum, kind)
                && (Valid() <==> old(t[dp]).nlink > 0)
    {
      hide Linked;
      var off := DirLookup(dp, name);
      if off < |t[dp].entries| {
        var ip := t[dp].entries[off].inum;
        EntryInTree(View(), dp, off);
        return if kind == FILE && t[ip].kind == FILE then Ok(ip) else Refused;
      }
      var ip := 1;
      while ip < ninodes && t[ip].kind != 0
        invariant 1 <= ip && forall i | 1 <= i < ip && i < ninodes :: t[i].kind != 0
      {
        ip := ip + 1;
      }
      if ip >= ninodes {
        return NoInodes;
      }
      ghost var s := View();
      LiveOrNot(s, dp);
      if s.t[dp].nlink > 0 {
        CreatedKeeps(s, dp, name, ip, kind);
      } else {
        CreatedInRemoved(s, dp, name, ip, kind);
      }
      MakeInode(dp, name, ip, kind);
      return Ok(ip);
    }

    /** create from ilock(ip) on; its dirlinks cannot fail. */
    method MakeInode(dp: nat, name: string, ip: nat, kind: int)
      requires dp in t && ip in t && ip != dp && ip != 0 && Lookup(t[dp].entries, name, 0) == |t[dp].entries|
      modifies this`t
      ensures View() == Created(old(View()), dp, name, ip, kind)
    {
      t := t[ip := Node(kind, 1, [])];
      if kind == DIR {
        t := t[dp := t[dp].(nlink := t[dp].nlink + 1)];
        TwoDots(ip, dp);
        var _ := DirLink(ip, ".", ip);
        var _ := DirLink(ip, "..", dp);
      }
      var _ := DirLink(dp, name, ip);
      assert View().t == Created(old(View()), dp, name, ip, kind).t;
    }

    /** The end of iput on an inode without links. */
    method Release(x: nat)
      requires Valid() && x in t && t[x].nlink == 0 && x !in pending
      modifies this`t
      ensures Valid() && View() == Released(old(View()), x)
    {
      hide Linked;
      ReleasedKeeps(View(), x);
      t := t[x := Node(0, 0, [])];
    }
  }

  lemma LinkedCount(s: State, x: nat)
    ensures Linked(s) && x in s.t ==> CountOk(s, x)
  {
  }

  lemma LiveOrNot(s: State, dp: nat)
    requires Linked(s) && dp in s.t
    ensures s.t[dp].nlink >= 0
  {
    assert NodeOk(s.t, dp);
  }

  /** Any entry that dirlookup can find names an inode. */
  lemma EntryInTree(s: State, dp: nat, off: nat)
    requires Linked(s) && dp in s.t && s.t[dp].kind == DIR && off < |s.t[dp].entries| && s.t[dp].entries[off].inum != 0
    ensures s.t[dp].entries[off].inum in s.t
  {
    hide Linked;
    Parts(s, dp);
    if off >= 2 {
      assert EntryOk(s.t[dp], off);
      NamedInTree(s, Pos(dp, off), s.t[dp].entries[off].inum);
    }
  }

  lemma NamedInTree(s: State, p: Pos, x: nat)
    requires Linked(s) && NamesAt(s.t, p, x) && x != 0
    ensures x in s.t
  {
    hide NamesAt, NodeOk, CountOk, DirOk;
  }

  lemma TwoDots(ip: nat, dp: nat)
    requires ip != 0
    ensures WithDirent(WithDirent([], ".", ip), "..", dp) == [Dirent(ip, "."), Dirent(dp, "..")]
    ensures Lookup([], ".", 0) == 0 && Lookup([Dirent(ip, ".")], "..", 0) == 1
  {
    assert WithDirent([], ".", ip) == [Dirent(ip, ".")];
    assert Unused([Dirent(ip, ".")], 0) == 1;
  }

  const ROOT := Node(DIR, 1, [Dirent(1, "."), Dirent(1, "..")])
  const FREE := Node(0, 0, [])

  function MkTree(ninodes: nat): (t: Tree)
    ensures forall i :: i in t <==> 1 <= i < ninodes
    ensures forall i | i in t :: t[i] == if i == 1 then ROOT else FREE
  {
    if ninodes <= 1 then map[]
    else MkTree(ninodes - 1)[ninodes - 1 := if ninodes == 2 then ROOT else FREE]
  }

  lemma OneDirectory(s: State)
    requires s.root == 1 && 1 in s.t && 0 !in s.t && s.pending == multiset{}
    requires forall i | i in s.t :: s.t[i] == if i == 1 then ROOT else FREE
    ensures Linked(s)
  {
    hide Refs;
    forall x | x in s.t
      ensures NodeOk(s.t, x) && CountOk(s, x) && DirOk(s, x)
    {
      RefsAre(s.t, x);
      if x == 1 {
        assert NamesAt(s.t, Pos(1, 1), 1);
        assert Refs(s.t, 1) == {Pos(1, 1)};
      } else {
        assert Refs(s.t, x) == {};
      }
    }
  }

  /**
   A removed directory can be reached: mkdir a, then open a, then rmdir a, then create b in it. The last step is what a
   process does that resolved the parent before the rmdir. The directory has no links by then, and create breaks the
   counts of a file system whose counts were right so far.
   */
  lemma CreatingInRemovedDirectory()
    ensures var s0 := State(MkTree(4), multiset{}, 1);
            var s1 := Created(s0, 1, "a", 2, DIR);
            && Linked(s0) && CanCreate(s0, 1, "a", 2, DIR) && Linked(s1)
            && CanUnlink(s1, 1, "a", 2) && Removable(s1, 1, "a")
            && var s2 := Unlinked(s1, 1, 2);
               && Linked(s2) && s2.t[2].kind == DIR && s2.t[2].nlink == 0
               && CanCreate(s2, 2, "b", 3, FILE) && !Linked(Created(s2, 2, "b", 3, FILE))
  {
    hide Linked, IsEmpty, Lookup, Unused, WithDirent;
    var s0 := State(MkTree(4), multiset{}, 1);
    OneDirectory(s0);
    var root, two := [Dirent(1, "."), Dirent(1, "..")], [Dirent(2, "."), Dirent(1, "..")];
    NoSuchName(root, "a");
    CreatedKeeps(s0, 1, "a", 2, DIR);
    var s1 := Created(s0, 1, "a", 2, DIR);
    AppendedAfterDots(root, "a", 2);
    assert s1.t[1].entries == root + [Dirent(2, "a")] && s1.t[2] == Node(DIR, 1, two);
    EmptyDots(two);
    UnlinkedKeeps(s1, 1, "a", 2);
    var s2 := Unlinked(s1, 1, 2);
    NoSuchName(two, "b");
    CreatedInRemoved(s2, 2, "b", 3, FILE);
  }

  lemma NoSuchName(es: seq<Dirent>, name: string)
    requires |es| == 2 && es[0].name == "." && es[1].name == ".." && name != "." && name != ".."
    ensures Lookup(es, name, 0) == 2
  {
  }

  lemma EmptyDots(es: seq<Dirent>)
    requires |es| == 2
    ensures IsEmpty(es)
  {
  }

  lemma AppendedAfterDots(es: seq<Dirent>, name: string, inum: nat)
    requires |es| == 2 && es[0].name == "." && es[1].name == ".." && es[0].inum != 0 && es[1].inum != 0
    requires inum != 0 && name != "." && name != ".."
    ensures WithDirent(es, name, inum) == es + [Dirent(inum, name)]
    ensures Lookup(es + [Dirent(inum, name)], name, 0) == 2
  {
    assert Unused(es, 0) == 2;
  }
}
