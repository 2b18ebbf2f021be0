/** What names lead to before and after create, link and unlink of part1/sysfile.c. */
module NameLookup {
  import Directories
  import opened LinkCounts

  /** The inode that `name` leads to from a directory with these entries; 0 if there is no such name. */
  function Found(es: seq<Dirent>, name: string): (inum: nat) {
    var k := Lookup(es, name, 0);
    if k < |es| then es[k].inum else 0
  }

  ghost predicate OneName(es: seq<Dirent>) {
    forall i, j | 0 <= i < j < |es| && es[i].inum != 0 && es[j].inum != 0 :: es[i].name != es[j].name
  }

  /** No directory has a name twice. */
  ghost predicate NamesOnce(t: Tree) {
    forall d | d in t :: OneName(t[d].entries)
  }

  /** Directory `d` leads where it led, but for `name`, which leads to `x`. */
  ghost predicate Rebound(t: Tree, t': Tree, d: nat, name: string, x: nat) {
    && d in t && d in t' && Found(t'[d].entries, name) == x
    && forall n | n != name :: Found(t'[d].entries, n) == Found(t[d].entries, n)
  }

  lemma AddedFound(es: seq<Dirent>, name: string, inum: nat, n: string)
    requires Lookup(es, name, 0) == |es| && inum != 0
    ensures Found(WithDirent(es, name, inum), n) == if n == name then inum else Found(es, n)
  {
    var es', j, k := WithDirent(es, name, inum), Unused(es, 0), Lookup(es, n, 0);
    hide WithDirent, Unused, Lookup;
    var k' := Lookup(es', n, 0);
    if n == name {
      assert forall i | 0 <= i < |es'| && i != j :: es'[i] == es[i];
      assert k' == j;
    } else if k < |es| {
      assert k != j && es'[k] == es[k];
      assert k' == k;
    } else {
      assert forall i | 0 <= i < |es'| && i != j :: es'[i] == es[i];
    }
  }

  lemma AddedOnce(es: seq<Dirent>, name: string, inum: nat)
    requires OneName(es) && Lookup(es, name, 0) == |es|
    ensures OneName(WithDirent(es, name, inum))
  {
    hide WithDirent, Unused, Lookup;
  }

  lemma RemovedFound(es: seq<Dirent>, k: nat, n: string)
    requires OneName(es) && k < |es| && es[k].inum != 0
    ensures OneName(es[k := EMPTY])
    ensures Found(es[k := EMPTY], n) == if n == es[k].name then 0 else Found(es, n)
  {
    hide Lookup;
    var es' := es[k := EMPTY];
    var i, i' := Lookup(es, n, 0), Lookup(es', n, 0);
    if n == es[k].name {
      assert forall j | 0 <= j < |es| && j != k && es[j].inum != 0 :: es[j].name != n;
    } else if i < |es| {
      assert i != k && es'[i] == es[i];
      assert i' == i;
    }
  }

  /** link and create go through exactly if the name leads nowhere. */
  lemma FreeName(s: State, dp: nat, name: string)
    requires 0 !in s.t
    ensures CanLink(s, dp, name) <==> dp in s.t && s.t[dp].kind == DIR && Found(s.t[dp].entries, name) == 0
  {
  }

  /** unlink goes through exactly if the name leads to a file, or to a directory where only the dots lead anywhere. */
  lemma RemovableName(s: State, dp: nat, name: string)
    requires Linked(s)
    ensures Directories.Removable(s, dp, name) <==>
              && dp in s.t && name != "." && name != ".."
              && var x := Found(s.t[dp].entries, name);
                 && x in s.t
                 && (s.t[x].kind == DIR ==> forall n | n != "." && n != ".." :: Found(s.t[x].entries, n) == 0)
  {
    if dp in s.t {
      var x := Found(s.t[dp].entries, name);
      if x in s.t && s.t[x].kind == DIR {
        assert NodeOk(s.t, x);
        OnlyDots(s.t[x]);
      }
    }
  }

  lemma OnlyDots(d: Node)
    requires |d.entries| >= 2 && d.entries[0].name == "." && d.entries[1].name == ".."
    requires d.entries[0].inum != 0 && d.entries[1].inum != 0
    requires forall i: nat | 2 <= i < |d.entries| :: EntryOk(d, i)
    ensures IsEmpty(d.entries) <==> forall n | n != "." && n != ".." :: Found(d.entries, n) == 0
  {
    var es := d.entries;
    hide Lookup;
    if !IsEmpty(es) {
      var i :| 2 <= i < |es| && es[i].inum != 0;
      assert EntryOk(d, i);
      assert Found(es, es[i].name) != 0;
    }
  }

  /**
   create: the name leads to the new inode, all other names of the directory lead where they led, all other inodes stay;
   a new directory has "." and ".." and nothing else.
   */
  lemma CreateBinds(s: State, dp: nat, name: string, ip: nat, kind: int)
    requires CanCreate(s, dp, name, ip, kind) && 0 !in s.t && NamesOnce(s.t)
    ensures var t, t' := s.t, Created(s, dp, name, ip, kind).t;
            && t'.Keys == t.Keys && (forall d | d in t && d != dp && d != ip :: t'[d] == t[d])
            && Rebound(t, t', dp, name, ip) && NamesOnce(t') && t'[dp].kind == DIR
            && t'[ip].kind == kind && t'[ip].nlink == 1
            && forall n :: Found(t'[ip].entries, n) ==
                           if kind == DIR && n == "." then ip else if kind == DIR && n == ".." then dp else 0
  {
    hide Lookup, WithDirent, Unused, Found, OneName;
    var t' := Created(s, dp, name, ip, kind).t;
    forall n
      ensures Found(t'[dp].entries, n) == if n == name then ip else Found(s.t[dp].entries, n)
    {
      AddedFound(s.t[dp].entries, name, ip, n);
    }
    AddedOnce(s.t[dp].entries, name, ip);
    NewFound(ip, dp);
  }

  lemma NewFound(ip: nat, dp: nat)
    requires ip != 0 && dp != 0
    ensures var es := [Dirent(ip, "."), Dirent(dp, "..")];
            OneName(es) && forall n :: Found(es, n) == if n == "." then ip else if n == ".." then dp else 0
    ensures OneName([]) && forall n :: Found([], n) == 0
  {
    assert |"."| != |".."|;
    var es := [Dirent(ip, "."), Dirent(dp, "..")];
    forall n
      ensures Found(es, n) == if n == "." then ip else if n == ".." then dp else 0
    {
      assert Lookup(es, n, 0) == if n == "." then 0 else if n == ".." then 1 else 2;
    }
  }

  /** link: the name leads to the file, which has one link more, and nothing else changes. */
  lemma LinkBinds(s: State, ip: nat, dp: nat, name: string)
    requires CanLink(s, dp, name) && ip in s.t && 0 !in s.t && NamesOnce(s.t) && s.t[ip].kind != DIR
    ensures var t, t' := s.t, LinkDone(LinkBegun(s, ip), ip, dp, name).t;
            && t'.Keys == t.Keys && (forall d | d in t && d != dp && d != ip :: t'[d] == t[d])
            && Rebound(t, t', dp, name, ip) && NamesOnce(t')
            && t'[dp] == t[dp].(entries := t'[dp].entries) && t'[ip] == t[ip].(nlink := t[ip].nlink + 1)
  {
    hide Lookup, WithDirent, Unused, Found, OneName;
    forall n
      ensures Found(WithDirent(s.t[dp].entries, name, ip), n) == if n == name then ip else Found(s.t[dp].entries, n)
    {
      AddedFound(s.t[dp].entries, name, ip, n);
    }
    AddedOnce(s.t[dp].entries, name, ip);
  }

  /** unlink: the name leads nowhere, and all other names of all directories lead where they led. */
  lemma UnlinkUnbinds(s: State, dp: nat, name: string, k: nat)
    requires CanUnlink(s, dp, name, k) && s.t[dp].entries[k].inum in s.t && NamesOnce(s.t)
    ensures var t, t' := s.t, Unlinked(s, dp, k).t;
            && t'.Keys == t.Keys && Rebound(t, t', dp, name, 0) && NamesOnce(t')
            && (forall d | d in t && d != dp :: t'[d].entries == t[d].entries)
            && (forall d | d in t && d != dp && d != t[dp].entries[k].inum :: t'[d] == t[d])
  {
    hide Lookup, Found, OneName;
    var es := s.t[dp].entries;
    forall n
      ensures Found(es[k := EMPTY], n) == (if n == name then 0 else Found(es, n)) && OneName(es[k := EMPTY])
    {
      RemovedFound(es, k, n);
    }
    RemovedFound(es, k, name);
  }

  /** mkfs starts so, and freeing an inode changes nothing about it. */
  lemma NamesStartOnce(ninodes: nat, s: State, x: nat)
    requires NamesOnce(s.t) && x in s.t
    ensures NamesOnce(Directories.MkTree(ninodes)) && NamesOnce(Released(s, x).t)
  {
    NewFound(1, 1);
  }
}
