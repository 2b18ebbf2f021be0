/**
 Directories and link counts of part1/sysfile.c: inodes with their nlink field and, for directories, their entries.
 `pending` holds the inodes whose count sys_link has raised for an entry it has not written yet.
 */
module LinkCounts {
  const DIR := 1
  const FILE := 2

  datatype Dirent = Dirent(inum: nat, name: string)

  datatype Node = Node(kind: int, nlink: int, entries: seq<Dirent>) {
    predicate Live() {
      kind == DIR && nlink > 0
    }
  }

  type Tree = map<nat, Node>

  datatype State = State(t: Tree, pending: multiset<nat>, root: nat)

  const EMPTY := Dirent(0, "")

  /** Entry `i` of directory `d`. */
  datatype Pos = Pos(d: nat, i: nat)

  ghost predicate NamesAt(t: Tree, p: Pos, x: nat) {
    && p.d in t && t[p.d].Live() && p.i < |t[p.d].entries|
    && t[p.d].entries[p.i].inum == x && t[p.d].entries[p.i].name != "."
  }

  /** The entries, other than ".", that name `x` in directories with links. */
  ghost function Refs(t: Tree, x: nat): set<Pos> {
    set d, i | d in t && 0 <= i < |t[d].entries| && NamesAt(t, Pos(d, i), x) :: Pos(d, i)
  }

  lemma RefsAre(t: Tree, x: nat)
    ensures forall p :: p in Refs(t, x) <==> NamesAt(t, p, x)
  {
    forall p | NamesAt(t, p, x)
      ensures p in Refs(t, x)
    {
      assert p == Pos(p.d, p.i);
    }
  }

  /** The shape of an inode: files have no entries, directories start with "." and "..", removed ones have no others. */
  ghost predicate NodeOk(t: Tree, x: nat)
    requires x in t
  {
    var n := t[x];
    && n.nlink >= 0 && (n.kind == 0 ==> n.nlink == 0) && (n.kind != DIR ==> n.entries == [])
    && (n.kind == DIR ==>
          && |n.entries| >= 2 && n.entries[0] == Dirent(x, ".") && n.entries[1].name == ".."
          && n.entries[1].inum != 0 && n.entries[1].inum in t
          && forall i: nat | 2 <= i < |n.entries| :: EntryOk(n, i))
  }

  ghost predicate EntryOk(n: Node, i: nat)
    requires i < |n.entries|
  {
    n.entries[i].inum != 0 ==> n.nlink > 0 && n.entries[i].name != "." && n.entries[i].name != ".."
  }

  /** A directory with links is named by one entry besides "..", in the directory that its own ".." names. */
  ghost predicate DirOk(s: State, c: nat)
    requires c in s.t
  {
    s.t[c].Live() && |s.t[c].entries| >= 2 ==>
      var up := s.t[c].entries[1].inum;
      if c == s.root then up == c && forall p | NamesAt(s.t, p, c) :: p.i < 2
      else
        && up != c && s.pending[c] == 0
        && (exists p: Pos :: p.d == up && p.i >= 2 && NamesAt(s.t, p, c))
        && (forall p, q | NamesAt(s.t, p, c) && NamesAt(s.t, q, c) && p.i >= 2 && q.i >= 2 :: p == q)
  }

  ghost predicate CountOk(s: State, x: nat)
    requires x in s.t
  {
    s.t[x].nlink == |Refs(s.t, x)| + s.pending[x]
  }

  ghost predicate Linked(s: State) {
    && 0 !in s.t && s.root in s.t && s.t[s.root].Live()
    && (forall x | x in s.t :: NodeOk(s.t, x))
    && (forall x | x in s.t :: CountOk(s, x))
    && (forall x | x in s.t :: DirOk(s, x))
    && (forall x | x in s.pending :: x in s.t && s.t[x].kind != 0 && s.t[x].kind != DIR)
    && (forall p, x | x != 0 && NamesAt(s.t, p, x) :: x in s.t)
  }

  // ---- Operations on one directory ----

  /** dirlookup: the first entry with that name; |es| if there is none. */
  function Lookup(es: seq<Dirent>, name: string, i: nat): (j: nat)
    requires i <= |es|
    ensures i <= j <= |es| && (j < |es| ==> es[j].inum != 0 && es[j].name == name)
    ensures forall k | i <= k < j :: es[k].inum == 0 || es[k].name != name
    decreases |es| - i
  {
    if i == |es| || (es[i].inum != 0 && es[i].name == name) then i else Lookup(es, name, i + 1)
  }

  /** The first unused entry; |es| if there is none. */
  function Unused(es: seq<Dirent>, i: nat): (j: nat)
    requires i <= |es|
    ensures i <= j <= |es| && (j < |es| ==> es[j].inum == 0) && forall k | i <= k < j :: es[k].inum != 0
    decreases |es| - i
  {
    if i == |es| || es[i].inum == 0 then i else Unused(es, i + 1)
  }

  /** The entries after dirlink wrote (name, inum). */
  function WithDirent(es: seq<Dirent>, name: string, inum: nat): (r: seq<Dirent>)
    ensures var j := Unused(es, 0); |r| == (if j < |es| then |es| else |es| + 1) && r[j] == Dirent(inum, name)
    ensures forall i | 0 <= i < |es| && i != Unused(es, 0) :: r[i] == es[i]
  {
    var j := Unused(es, 0);
    if j < |es| then es[j := Dirent(inum, name)] else es + [Dirent(inum, name)]
  }

  predicate IsEmpty(es: seq<Dirent>) {
    forall i | 2 <= i < |es| :: es[i].inum == 0
  }

  // ---- The system calls as changes of the state ----

  ghost predicate CanLink(s: State, dp: nat, name: string) {
    && dp in s.t && s.t[dp].kind == DIR && Lookup(s.t[dp].entries, name, 0) == |s.t[dp].entries|
  }

  /** sys_link first raises the count. */
  ghost function LinkBegun(s: State, ip: nat): State
    requires ip in s.t
  {
    s.(t := s.t[ip := s.t[ip].(nlink := s.t[ip].nlink + 1)], pending := s.pending + multiset{ip})
  }

  /** Then it writes the entry ... */
  ghost function LinkDone(s: State, ip: nat, dp: nat, name: string): State
    requires dp in s.t
  {
    s.(t := s.t[dp := s.t[dp].(entries := WithDirent(s.t[dp].entries, name, ip))], pending := s.pending - multiset{ip})
  }

  /** ... or takes the count back. */
  ghost function LinkFailed(s: State, ip: nat): State
    requires ip in s.t
  {
    s.(t := s.t[ip := s.t[ip].(nlink := s.t[ip].nlink - 1)], pending := s.pending - multiset{ip})
  }

  /** sys_unlink of entry `off` of `dp`. */
  ghost function Unlinked(s: State, dp: nat, off: nat): State
    requires dp in s.t && off < |s.t[dp].entries| && s.t[dp].entries[off].inum in s.t
  {
    var ip := s.t[dp].entries[off].inum;
    var isDir := s.t[ip].kind == DIR;
    var d := s.t[dp].(entries := s.t[dp].entries[off := EMPTY], nlink := s.t[dp].nlink - if isDir then 1 else 0);
    var t1 := s.t[dp := d];
    s.(t := t1[ip := t1[ip].(nlink := t1[ip].nlink - 1)])
  }

  /** create of `name` in `dp` with the free inode `ip`. */
  ghost function Created(s: State, dp: nat, name: string, ip: nat, kind: int): State
    requires dp in s.t && ip in s.t
  {
    var es := if kind == DIR then [Dirent(ip, "."), Dirent(dp, "..")] else [];
    var d := s.t[dp].(entries := WithDirent(s.t[dp].entries, name, ip),
                      nlink := s.t[dp].nlink + if kind == DIR then 1 else 0);
    s.(t := s.t[dp := d][ip := Node(kind, 1, es)])
  }

  /** iput frees an inode without links that nobody uses. */
  ghost function Released(s: State, x: nat): State
    requires x in s.t
  {
    s.(t := s.t[x := Node(0, 0, [])])
  }

  // ---- They keep the counts ----

  /** Directories that stay live keep their entries, and no others become live. */
  ghost predicate SameDirs(t: Tree, t': Tree) {
    && t'.Keys == t.Keys
    && forall x | x in t :: t'[x].Live() == t[x].Live() && (t[x].Live() ==> t'[x].entries == t[x].entries)
  }

  lemma SameRefs(t: Tree, t': Tree)
    requires SameDirs(t, t')
    ensures forall p, x :: NamesAt(t', p, x) <==> NamesAt(t, p, x)
    ensures forall x :: Refs(t', x) == Refs(t, x)
  {
    assert forall p, x :: NamesAt(t', p, x) <==> NamesAt(t, p, x);
    forall x
      ensures Refs(t', x) == Refs(t, x)
    {
      RefsAre(t, x);
      RefsAre(t', x);
    }
  }

  /** What a directory's place in the tree depends on. */
  lemma DirKept(s: State, s': State, c: nat)
    requires c in s.t && c in s'.t && s'.root == s.root && DirOk(s, c)
    requires s'.t[c].Live() ==> s.t[c].Live() && |s.t[c].entries| >= 2
    requires s'.t[c].Live() && |s'.t[c].entries| >= 2 ==> s'.t[c].entries[1] == s.t[c].entries[1]
    requires s'.t[c].Live() ==> s'.pending[c] == s.pending[c]
    requires s'.t[c].Live() ==> forall p: Pos | p.i >= 2 :: NamesAt(s'.t, p, c) <==> NamesAt(s.t, p, c)
    ensures DirOk(s', c)
  {
    hide NamesAt;
  }

  /** A step that leaves the live directories alone keeps the counts if the changed inode's fields agree. */
  lemma QuietKeeps(s: State, s': State, x: nat)
    requires Linked(s) && x in s.t && x != s.root && SameDirs(s.t, s'.t) && s'.root == s.root && !s.t[x].Live()
    requires s'.t == s.t[x := s'.t[x]] && NodeOk(s'.t, x)
    requires s'.t[x].nlink - s'.pending[x] == s.t[x].nlink - s.pending[x]
    requires forall y | y != x :: s'.pending[y] == s.pending[y]
    requires s'.pending[x] > 0 ==> s'.t[x].kind != 0 && s'.t[x].kind != DIR
    ensures Linked(s')
  {
    hide Refs, NamesAt, NodeOk, CountOk, DirOk;
    SameRefs(s.t, s'.t);
    forall y | y in s.t
      ensures NodeOk(s'.t, y) && CountOk(s', y) && DirOk(s', y)
    {
      assert NodeOk(s.t, y) && CountOk(s, y) && DirOk(s, y);
      NodeKept(s.t, s'.t, y, x);
      CountKept(s, s', y, 0, 0);
      LiveHasDots(s.t, y);
      DirKept(s, s', y);
    }
  }

  lemma CountKept(s: State, s': State, x: nat, more: int, less: int)
    requires x in s.t && x in s'.t && CountOk(s, x)
    requires |Refs(s'.t, x)| == |Refs(s.t, x)| + more - less
    requires s'.t[x].nlink - s'.pending[x] == s.t[x].nlink - s.pending[x] + more - less
    ensures CountOk(s', x)
  {
  }

  lemma LiveHasDots(t: Tree, x: nat)
    requires x in t && NodeOk(t, x)
    ensures t[x].kind == DIR ==> |t[x].entries| >= 2 && t[x].entries[1].inum != 0 && t[x].entries[1].name == ".."
  {
  }

  lemma NodeKept(t: Tree, t': Tree, y: nat, x: nat)
    requires t'.Keys == t.Keys && y in t && NodeOk(t, y) && (y != x ==> t'[y] == t[y]) && x in t' && NodeOk(t', x)
    ensures NodeOk(t', y)
  {
  }

  lemma NotLive(s: State, x: nat)
    requires Linked(s) && x in s.t && (s.t[x].kind != DIR || s.t[x].nlink == 0)
    ensures x != s.root && NodeOk(s.t, x)
  {
  }

  lemma LinkBegunKeeps(s: State, ip: nat)
    requires Linked(s) && ip in s.t && s.t[ip].kind != 0 && s.t[ip].kind != DIR
    ensures Linked(LinkBegun(s, ip))
  {
    hide Linked;
    NotLive(s, ip);
    QuietKeeps(s, LinkBegun(s, ip), ip);
  }

  lemma LinkFailedKeeps(s: State, ip: nat)
    requires Linked(s) && ip in s.pending
    ensures ip in s.t && Linked(LinkFailed(s, ip))
  {
    hide Linked;
    PendingIsFile(s, ip);
    NotLive(s, ip);
    QuietKeeps(s, LinkFailed(s, ip), ip);
  }

  lemma PendingIsFile(s: State, ip: nat)
    requires Linked(s) && ip in s.pending
    ensures ip in s.t && s.t[ip].kind != 0 && s.t[ip].kind != DIR && s.t[ip].nlink >= 1
  {
    assert CountOk(s, ip);
  }

  lemma ReleasedKeeps(s: State, x: nat)
    requires Linked(s) && x in s.t && s.t[x].nlink == 0 && x !in s.pending
    ensures Linked(Released(s, x))
  {
    hide Linked;
    NotLive(s, x);
    QuietKeeps(s, Released(s, x), x);
  }

  // ---- Adding an entry ----

  /** dirlink uses an entry after ".." that named nothing. */
  lemma DirentGoesAfterDots(s: State, dp: nat, name: string)
    requires Linked(s) && CanLink(s, dp, name)
    ensures Unused(s.t[dp].entries, 0) >= 2 && name != "." && name != ".."
  {
    assert NodeOk(s.t, dp);
    var es := s.t[dp].entries;
    assert es[0].inum != 0 && es[1].inum != 0;
  }

  /** Where the names are after one entry was added and, perhaps, one fresh directory. */
  ghost predicate Added(t: Tree, t': Tree, p0: Pos, ip: nat, up: set<Pos>, dp: nat) {
    && (forall p, x | x != 0 && x != ip && x != dp :: NamesAt(t', p, x) <==> NamesAt(t, p, x))
    && (forall p :: NamesAt(t', p, ip) <==> NamesAt(t, p, ip) || p == p0)
    && (forall p :: NamesAt(t', p, dp) <==> NamesAt(t, p, dp) || p in up)
    && !NamesAt(t, p0, ip) && forall p | p in up :: !NamesAt(t, p, dp)
  }

  lemma AddedCounts(t: Tree, t': Tree, p0: Pos, ip: nat, up: set<Pos>, dp: nat)
    requires Added(t, t', p0, ip, up, dp) && ip != dp
    ensures |Refs(t', ip)| == |Refs(t, ip)| + 1 && |Refs(t', dp)| == |Refs(t, dp)| + |up|
    ensures forall p, x | x != 0 && x != ip && x != dp :: NamesAt(t', p, x) <==> NamesAt(t, p, x)
    ensures forall p :: NamesAt(t', p, dp) <==> NamesAt(t, p, dp) || p in up
    ensures forall x | x != 0 && x != ip && x != dp :: Refs(t', x) == Refs(t, x)
  {
    RefsAre(t, ip);
    RefsAre(t', ip);
    RefsAre(t, dp);
    RefsAre(t', dp);
    hide Refs;
    assert Refs(t', ip) == Refs(t, ip) + {p0};
    assert Refs(t', dp) == Refs(t, dp) + up;
    assert Refs(t, dp) !! up;
    forall x | x != 0 && x != ip && x != dp
      ensures Refs(t', x) == Refs(t, x)
    {
      RefsAre(t, x);
      RefsAre(t', x);
    }
  }

  lemma LinkDoneAdds(s: State, ip: nat, dp: nat, name: string)
    requires 0 !in s.t && dp in s.t && s.t[dp].Live() && Unused(s.t[dp].entries, 0) >= 2 && name != "." && ip != dp
             && ip != 0
    ensures Added(s.t, LinkDone(s, ip, dp, name).t, Pos(dp, Unused(s.t[dp].entries, 0)), ip, {}, dp)
  {
    hide Unused;
    var t, t' := s.t, LinkDone(s, ip, dp, name).t;
    var j := Unused(s.t[dp].entries, 0);
    forall p, x | x != 0
      ensures NamesAt(t', p, x) <==> NamesAt(t, p, x) || (p == Pos(dp, j) && x == ip)
    {
      if p.d == dp && p.i == j {
        assert t'[dp].entries[j] == Dirent(ip, name) && !NamesAt(t, p, x);
        assert p == Pos(dp, j);
      }
    }
  }

  /** sys_link's entry keeps the counts exactly if the directory still has links. */
  lemma LinkDoneKeeps(s: State, ip: nat, dp: nat, name: string)
    requires Linked(s) && ip in s.pending && CanLink(s, dp, name)
    ensures ip in s.t && (s.t[dp].nlink > 0 ==> Linked(LinkDone(s, ip, dp, name)))
    ensures s.t[dp].nlink == 0 ==> !CountOk(LinkDone(s, ip, dp, name), ip)
  {
    hide Refs, NamesAt, CanLink, Unused, Lookup, NodeOk, CountOk, DirOk;
    CanLinkDir(s, dp, name);
    var s' := LinkDone(s, ip, dp, name);
    var j := Unused(s.t[dp].entries, 0);
    DirentGoesAfterDots(s, dp, name);
    PendingIsFile(s, ip);
    assert NodeOk(s.t, dp) && CountOk(s, ip);
    LiveHasDots(s.t, dp);
    if s.t[dp].nlink > 0 {
      LinkDoneAdds(s, ip, dp, name);
      AddedCounts(s.t, s'.t, Pos(dp, j), ip, {}, dp);
      forall x | x in s.t
        ensures NodeOk(s'.t, x) && CountOk(s', x) && DirOk(s', x)
      {
        assert NodeOk(s.t, x) && CountOk(s, x) && DirOk(s, x);
        AddKeepsNode(s.t, s'.t, dp, name, ip, x);
        CountKept(s, s', x, if x == ip then 1 else 0, 0);
        LiveHasDots(s.t, x);
        DirKept(s, s', x);
      }
    } else {
      SameRefs(s.t, s'.t);
      CountBroken(s, s', ip);
    }
  }

  lemma CountBroken(s: State, s': State, x: nat)
    requires x in s.t && x in s'.t && CountOk(s, x) && Refs(s'.t, x) == Refs(s.t, x)
    requires s'.t[x].nlink - s'.pending[x] != s.t[x].nlink - s.pending[x]
    ensures !CountOk(s', x)
  {
  }

  lemma CanLinkDir(s: State, dp: nat, name: string)
    requires CanLink(s, dp, name)
    ensures dp in s.t && s.t[dp].kind == DIR
  {
  }

  lemma AddKeepsNode(t: Tree, t': Tree, dp: nat, name: string, ip: nat, x: nat)
    requires t'.Keys == t.Keys && dp in t && x in t && NodeOk(t, x) && t[dp].Live() && Unused(t[dp].entries, 0) >= 2
    requires name != "." && name != ".."
    requires t'[x] == if x == dp then t[dp].(nlink := t'[dp].nlink, entries := WithDirent(t[dp].entries, name, ip))
             else t[x]
    requires t'[x].nlink >= t[x].nlink
    ensures NodeOk(t', x)
  {
    hide Unused;
    if x == dp {
      var j := Unused(t[dp].entries, 0);
      forall i: nat | 2 <= i < |t'[dp].entries|
        ensures EntryOk(t'[dp], i)
      {
        assert i != j && i < |t[dp].entries| ==> EntryOk(t[dp], i);
      }
    }
  }

  // ---- create ----

  /** What create changes about who names whom. */
  lemma CreatedNames(s: State, dp: nat, name: string, ip: nat, kind: int)
    requires dp in s.t && ip in s.t && dp != ip && s.t[dp].kind == DIR && s.t[dp].nlink >= 0 && !s.t[ip].Live()
    requires Unused(s.t[dp].entries, 0) >= 2 && name != "." && |s.t[dp].entries| >= 2
    requires s.t[dp].entries[0].name == "." && s.t[dp].entries[1].name == ".."
    requires s.t[dp].nlink == 0 ==> forall i: nat | 2 <= i < |s.t[dp].entries| :: s.t[dp].entries[i].inum == 0
    ensures var t, t' := s.t, Created(s, dp, name, ip, kind).t;
            var p0 := Pos(dp, Unused(s.t[dp].entries, 0));
            forall p, x | x != 0 ::
              NamesAt(t', p, x) <==>
                || NamesAt(t, p, x)
                || (t'[dp].nlink > 0 && p == p0 && x == ip)
                || (kind == DIR && p == Pos(ip, 1) && x == dp)
                || (!t[dp].Live() && t'[dp].Live() && p == Pos(dp, 1) && x == t[dp].entries[1].inum)
  {
    hide Unused;
    var t, t', j := s.t, Created(s, dp, name, ip, kind).t, Unused(s.t[dp].entries, 0);
    assert t'[dp].entries[j] == Dirent(ip, name);
    forall p: Pos, x | x != 0
      ensures NamesAt(t', p, x) <==>
                || NamesAt(t, p, x)
                || (t'[dp].nlink > 0 && p == Pos(dp, j) && x == ip)
                || (kind == DIR && p == Pos(ip, 1) && x == dp)
                || (!t[dp].Live() && t'[dp].Live() && p == Pos(dp, 1) && x == t[dp].entries[1].inum)
    {
      assert p == Pos(p.d, p.i);
      if p.d == dp && p.i != j && p.i < |t'[dp].entries| {
        assert t'[dp].entries[p.i] == t[dp].entries[p.i];
      }
    }
  }

  ghost predicate CanCreate(s: State, dp: nat, name: string, ip: nat, kind: int) {
    CanLink(s, dp, name) && ip in s.t && s.t[ip].kind == 0 && kind != 0
  }

  lemma FreeInode(s: State, ip: nat)
    requires Linked(s) && ip in s.t && s.t[ip].nlink == 0
    ensures ip != s.root && s.pending[ip] == 0 && Refs(s.t, ip) == {} && forall p :: !NamesAt(s.t, p, ip)
  {
    hide Refs;
    assert CountOk(s, ip);
    RefsAre(s.t, ip);
  }

  /** create in a directory that still has links. */
  lemma CreatedKeeps(s: State, dp: nat, name: string, ip: nat, kind: int)
    requires Linked(s) && CanCreate(s, dp, name, ip, kind) && s.t[dp].nlink > 0
    ensures Linked(Created(s, dp, name, ip, kind))
  {
    hide Refs, NamesAt, CanLink, Unused, Lookup, NodeOk, CountOk, DirOk;
    CanLinkDir(s, dp, name);
    var s' := Created(s, dp, name, ip, kind);
    var j := Unused(s.t[dp].entries, 0);
    DirentGoesAfterDots(s, dp, name);
    assert NodeOk(s.t, dp) && NodeOk(s.t, ip) && CountOk(s, ip);
    LiveHasDots(s.t, dp);
    FirstIsDot(s.t, dp);
    FreeHasNoLinks(s.t, ip);
    FreeInode(s, ip);
    CreatedNames(s, dp, name, ip, kind);
    var up := if kind == DIR then {Pos(ip, 1)} else {};
    NotYetUp(s.t, ip, dp);
    assert Added(s.t, s'.t, Pos(dp, j), ip, up, dp);
    AddedCounts(s.t, s'.t, Pos(dp, j), ip, up, dp);
    forall x | x in s.t
      ensures NodeOk(s'.t, x) && CountOk(s', x) && DirOk(s', x)
    {
      assert NodeOk(s.t, x) && CountOk(s, x) && DirOk(s, x);
      CountKept(s, s', x, if x == ip then 1 else if x == dp then |up| else 0, 0);
      if x == ip {
        NewNodeOk(s, s', dp, ip, kind, Pos(dp, j));
      } else {
        AddKeepsNode(s.t, s'.t, dp, name, ip, x);
        LiveHasDots(s.t, x);
        DirKept(s, s', x);
      }
    }
  }

  lemma FirstIsDot(t: Tree, x: nat)
    requires x in t && NodeOk(t, x) && t[x].kind == DIR
    ensures |t[x].entries| >= 2 && t[x].entries[0].name == "." && t[x].nlink >= 0 && t[x].entries[1].inum in t
    ensures t[x].nlink == 0 ==> forall i: nat | 2 <= i < |t[x].entries| :: t[x].entries[i].inum == 0
  {
    forall i: nat | t[x].nlink == 0 && 2 <= i < |t[x].entries|
      ensures t[x].entries[i].inum == 0
    {
      assert EntryOk(t[x], i);
    }
  }

  lemma FreeHasNoLinks(t: Tree, x: nat)
    requires x in t && NodeOk(t, x) && t[x].kind == 0
    ensures t[x].nlink == 0
  {
  }

  lemma NotYetUp(t: Tree, ip: nat, dp: nat)
    requires ip in t && !t[ip].Live()
    ensures !NamesAt(t, Pos(ip, 1), dp)
  {
  }

  lemma NewNodeOk(s: State, s': State, dp: nat, ip: nat, kind: int, p0: Pos)
    requires dp in s.t && ip in s.t && s'.t.Keys == s.t.Keys && dp != ip && dp != 0 && kind != 0 && ip != s.root
             && s'.root == s.root
    requires s'.t[ip] == Node(kind, 1, if kind == DIR then [Dirent(ip, "."), Dirent(dp, "..")] else [])
    requires s'.pending[ip] == 0 && p0.d == dp && p0.i >= 2 && forall p :: NamesAt(s'.t, p, ip) <==> p == p0
    ensures NodeOk(s'.t, ip) && DirOk(s', ip)
  {
    hide NamesAt;
    assert NamesAt(s'.t, p0, ip);
  }

  /** create in a removed directory breaks the counts: of the new inode, or of the directory that ".." names. */
  lemma CreatedInRemoved(s: State, dp: nat, name: string, ip: nat, kind: int)
    requires Linked(s) && CanCreate(s, dp, name, ip, kind) && s.t[dp].nlink == 0
    ensures !Linked(Created(s, dp, name, ip, kind))
  {
    hide Refs, NamesAt, CanLink, Unused, Lookup, NodeOk, CountOk, DirOk;
    CanLinkDir(s, dp, name);
    var s' := Created(s, dp, name, ip, kind);
    var j := Unused(s.t[dp].entries, 0);
    DirentGoesAfterDots(s, dp, name);
    assert NodeOk(s.t, dp) && NodeOk(s.t, ip) && CountOk(s, ip) && CountOk(s, dp);
    LiveHasDots(s.t, dp);
    FirstIsDot(s.t, dp);
    FreeHasNoLinks(s.t, ip);
    FreeInode(s, ip);
    FreeInode(s, dp);
    CreatedNames(s, dp, name, ip, kind);
    var x := if kind == DIR then s.t[dp].entries[1].inum else ip;
    assert CountOk(s, x);
    RefsAre(s.t, x);
    RefsAre(s'.t, x);
    if kind == DIR {
      assert Pos(dp, 1) in Refs(s'.t, x) && Pos(dp, 1) !in Refs(s.t, x) by {
        NotYetUp(s.t, dp, x);
      }
      CountGrows(s, s', x, ip, dp, j);
    } else {
      assert Refs(s'.t, x) == {};
      TooFew(s', x);
    }
  }

  lemma TooFew(s: State, x: nat)
    requires x in s.t && s.t[x].nlink == 1 && Refs(s.t, x) == {} && s.pending[x] == 0
    ensures !CountOk(s, x)
  {
  }

  lemma CountGrows(s: State, s': State, x: nat, ip: nat, dp: nat, j: nat)
    requires x in s.t && s'.t.Keys == s.t.Keys && s'.pending == s.pending && CountOk(s, x) && x != 0 && ip != dp
             && j >= 2
    requires Pos(dp, 1) in Refs(s'.t, x) && Pos(dp, 1) !in Refs(s.t, x) && Refs(s.t, x) <= Refs(s'.t, x)
    requires s'.t[x].nlink == if x == ip || x == dp then 1 else s.t[x].nlink
    requires x == ip ==> Pos(dp, j) in Refs(s'.t, x)
    requires x == dp ==> Pos(ip, 1) in Refs(s'.t, x)
    ensures !CountOk(s', x)
  {
    hide Refs;
    var more :=
      if x == ip then {Pos(dp, 1), Pos(dp, j)}
      else if x == dp then {Pos(dp, 1), Pos(ip, 1)}
      else Refs(s.t, x) + {Pos(dp, 1)};
    assert more <= Refs(s'.t, x);
    assert |Refs(s'.t, x)| == |more| + |Refs(s'.t, x) - more| by {
      assert Refs(s'.t, x) == more + (Refs(s'.t, x) - more);
    }
  }

  // ---- unlink ----

  /** dirlookup found `name`, neither "." nor "..", at `off`; a directory to remove is empty. */
  ghost predicate CanUnlink(s: State, dp: nat, name: string, off: nat) {
    && dp in s.t && s.t[dp].kind == DIR && name != "." && name != ".."
    && off == Lookup(s.t[dp].entries, name, 0) < |s.t[dp].entries|
  }

  /** The entry lies after the dots, its directory has links, and it names another inode with links. */
  lemma FoundEntry(s: State, dp: nat, name: string, off: nat)
    requires Linked(s) && CanUnlink(s, dp, name, off)
    ensures var ip := s.t[dp].entries[off].inum;
            && off >= 2 && s.t[dp].Live() && NamesAt(s.t, Pos(dp, off), ip) && ip in s.t && ip != 0
            && s.t[ip].nlink >= 1 && s.t[ip].kind != 0 && ip != dp && ip != s.root
  {
    hide Refs;
    assert NodeOk(s.t, dp);
    var ip := s.t[dp].entries[off].inum;
    assert off >= 2 && EntryOk(s.t[dp], off);
    assert NamesAt(s.t, Pos(dp, off), ip);
    RefsAre(s.t, ip);
    assert Pos(dp, off) in Refs(s.t, ip) && |Refs(s.t, ip)| >= 1 by {
      assert Refs(s.t, ip) == Refs(s.t, ip) - {Pos(dp, off)} + {Pos(dp, off)};
    }
    assert CountOk(s, ip) && NodeOk(s.t, ip) && DirOk(s, ip);
  }

  lemma Parts(s: State, x: nat)
    requires Linked(s) && x in s.t
    ensures NodeOk(s.t, x) && CountOk(s, x) && DirOk(s, x)
  {
  }

  lemma NamesFacts(t: Tree, p: Pos, x: nat)
    requires NamesAt(t, p, x)
    ensures p.d in t && t[p.d].Live() && p.i < |t[p.d].entries| && t[p.d].entries[p.i].inum == x
            && t[p.d].entries[p.i].name != "."
  {
  }

  /** A directory with links, other than the root, sits in the directory that its ".." names. */
  lemma HasPlace(s: State, c: nat) returns (p: Pos)
    requires c in s.t && s.t[c].Live() && NodeOk(s.t, c) && DirOk(s, c) && c != s.root
    ensures |s.t[c].entries| >= 2 && p.d == s.t[c].entries[1].inum && p.i >= 2 && NamesAt(s.t, p, c)
            && s.pending[c] == 0
    ensures p.d != c && forall q | NamesAt(s.t, q, c) && q.i >= 2 :: q == p
  {
    hide NamesAt;
    p :| p.d == s.t[c].entries[1].inum && p.i >= 2 && NamesAt(s.t, p, c);
  }

  /** Nothing names an empty directory but the one entry of its parent. */
  lemma NoChildNames(s: State, dp: nat, off: nat, ip: nat, p: Pos)
    requires Linked(s) && ip in s.t && s.t[ip].Live() && ip != s.root && IsEmpty(s.t[ip].entries)
    requires off >= 2 && NamesAt(s.t, Pos(dp, off), ip) && NamesAt(s.t, p, ip)
    ensures p == Pos(dp, off)
  {
    hide Linked, NamesAt;
    Parts(s, ip);
    var place := HasPlace(s, ip);
    NamesFacts(s.t, p, ip);
    Parts(s, p.d);
    FirstIsDot(s.t, p.d);
    if p.i == 1 {
      if p.d == s.root {
        RootUp(s);
      } else {
        var q := HasPlace(s, p.d);
        NamesFacts(s.t, q, p.d);
        PlaceIsEntry(s, q, p.d);
      }
    }
  }

  lemma RootUp(s: State)
    requires Linked(s)
    ensures |s.t[s.root].entries| >= 2 && s.t[s.root].entries[1].inum == s.root
  {
    assert NodeOk(s.t, s.root) && DirOk(s, s.root);
  }

  lemma PlaceIsEntry(s: State, q: Pos, c: nat)
    requires Linked(s) && c in s.t && q.d in s.t && q.i < |s.t[q.d].entries| && s.t[q.d].entries[q.i].inum == c
             && q.i >= 2
    ensures !IsEmpty(s.t[q.d].entries)
  {
  }

  lemma EmptyNamedOnce(s: State, dp: nat, off: nat, ip: nat)
    requires Linked(s) && ip in s.t && s.t[ip].Live() && ip != s.root && IsEmpty(s.t[ip].entries)
    requires off >= 2 && NamesAt(s.t, Pos(dp, off), ip)
    ensures Refs(s.t, ip) == {Pos(dp, off)} && s.pending[ip] == 0 && s.t[ip].nlink == 1
    ensures |s.t[ip].entries| >= 2 && s.t[ip].entries[0].name == "." && s.t[ip].entries[1] == Dirent(dp, "..")
  {
    hide Linked, NamesAt, Refs;
    Parts(s, ip);
    var place := HasPlace(s, ip);
    FirstIsDot(s.t, ip);
    LiveHasDots(s.t, ip);
    RefsAre(s.t, ip);
    forall p | NamesAt(s.t, p, ip)
      ensures p == Pos(dp, off)
    {
      NoChildNames(s, dp, off, ip, p);
    }
    assert Refs(s.t, ip) == {Pos(dp, off)};
  }

  /** Names after the entry is gone; a removed directory's ".." no longer counts. */
  lemma UnlinkedNames(s: State, dp: nat, off: nat, ip: nat)
    requires dp in s.t && ip in s.t && ip != dp && off < |s.t[dp].entries| && s.t[dp].entries[off].inum == ip
    requires s.t[dp].Live() && NamesAt(s.t, Pos(dp, off), ip) && Unlinked(s, dp, off).t[dp].nlink > 0
    requires s.t[ip].kind == DIR ==>
               && s.t[ip].nlink == 1 && |s.t[ip].entries| >= 2 && s.t[ip].entries[0].name == "."
               && s.t[ip].entries[1] == Dirent(dp, "..") && IsEmpty(s.t[ip].entries)
    ensures forall p, x | x != 0 ::
              NamesAt(Unlinked(s, dp, off).t, p, x) <==>
                NamesAt(s.t, p, x) && p != Pos(dp, off) && !(s.t[ip].kind == DIR && p == Pos(ip, 1))
  {
    var t' := Unlinked(s, dp, off).t;
    forall p: Pos, x | x != 0
      ensures NamesAt(t', p, x) <==>
                && NamesAt(s.t, p, x) && p != Pos(dp, off)
                && !(s.t[ip].kind == DIR && p == Pos(ip, 1))
    {
      assert p == Pos(p.d, p.i);
    }
  }

  /** The parent of a directory keeps a link when it is removed: the parent is itself named, or the root. */
  lemma ParentKeepsLink(s: State, dp: nat, ip: nat)
    requires Linked(s) && dp in s.t && s.t[dp].Live() && NamesAt(s.t, Pos(ip, 1), dp) && ip != dp
    ensures s.t[dp].nlink >= 2
  {
    hide Linked, NamesAt, Refs;
    Parts(s, dp);
    RefsAre(s.t, dp);
    var other := Pos(dp, 1);
    if dp == s.root {
      RootUp(s);
      RootNamesItself(s.t, dp);
    } else {
      other := HasPlace(s, dp);
    }
    var both := {other, Pos(ip, 1)};
    assert Refs(s.t, dp) == Refs(s.t, dp) - both + both;
    assert |both| == 2;
  }

  lemma RootNamesItself(t: Tree, dp: nat)
    requires dp in t && t[dp].Live() && NodeOk(t, dp) && t[dp].entries[1].inum == dp
    ensures NamesAt(t, Pos(dp, 1), dp)
  {
  }

  /** unlink keeps the counts, never meets an inode without links, and leaves a removed directory with none. */
  lemma UnlinkedKeeps(s: State, dp: nat, name: string, off: nat)
    requires Linked(s) && CanUnlink(s, dp, name, off)
    ensures var ip := s.t[dp].entries[off].inum;
            && ip in s.t && s.t[ip].nlink >= 1
            && (s.t[ip].kind != DIR || IsEmpty(s.t[ip].entries) ==> Linked(Unlinked(s, dp, off)))
            && (s.t[ip].kind == DIR && IsEmpty(s.t[ip].entries) ==> Unlinked(s, dp, off).t[ip].nlink == 0)
  {
    hide Linked, NamesAt, Refs, Lookup, NodeOk, CountOk, DirOk, IsEmpty;
    FoundEntry(s, dp, name, off);
    var ip := s.t[dp].entries[off].inum;
    var s' := Unlinked(s, dp, off);
    if s.t[ip].kind == DIR && IsEmpty(s.t[ip].entries) {
      EmptyNamedOnce(s, dp, off, ip);
      DotDotNames(s.t, ip, dp);
      ParentKeepsLink(s, dp, ip);
    }
    if s.t[ip].kind != DIR || IsEmpty(s.t[ip].entries) {
      UnlinkedNames(s, dp, off, ip);
      UnlinkedLinked(s, dp, off, ip);
    }
  }

  lemma DotDotNames(t: Tree, ip: nat, dp: nat)
    requires ip in t && t[ip].Live() && |t[ip].entries| >= 2 && t[ip].entries[1] == Dirent(dp, "..")
    ensures NamesAt(t, Pos(ip, 1), dp)
  {
  }

  lemma UnlinkedLinked(s: State, dp: nat, off: nat, ip: nat)
    requires Linked(s) && dp in s.t && ip in s.t && ip != dp && off >= 2 && off < |s.t[dp].entries|
    requires s.t[dp].entries[off].inum == ip && ip != s.root && s.t[ip].kind != 0 && s.t[ip].nlink >= 1
    requires s.t[dp].Live() && NamesAt(s.t, Pos(dp, off), ip) && Unlinked(s, dp, off).t[dp].nlink > 0
    requires s.t[ip].kind == DIR ==> s.t[ip].nlink == 1 && NamesAt(s.t, Pos(ip, 1), dp) && IsEmpty(s.t[ip].entries)
    requires forall p, x | x != 0 ::
               NamesAt(Unlinked(s, dp, off).t, p, x) <==>
                 NamesAt(s.t, p, x) && p != Pos(dp, off) && !(s.t[ip].kind == DIR && p == Pos(ip, 1))
    ensures Linked(Unlinked(s, dp, off))
  {
    hide NamesAt, Refs, NodeOk, CountOk, DirOk;
    var s' := Unlinked(s, dp, off);
    forall x | x in s.t
      ensures NodeOk(s'.t, x) && CountOk(s', x) && DirOk(s', x)
    {
      assert NodeOk(s.t, x) && CountOk(s, x) && DirOk(s, x) && NodeOk(s.t, ip) && NodeOk(s.t, dp);
      UnlinkKeepsNode(s, dp, off, ip, x);
      UnlinkKeepsCount(s, s', dp, off, ip, x);
      LiveHasDots(s.t, x);
      UnlinkKeepsDir(s, s', dp, off, ip, x);
    }
  }

  lemma UnlinkKeepsNode(s: State, dp: nat, off: nat, ip: nat, x: nat)
    requires dp in s.t && ip in s.t && ip != dp && 2 <= off < |s.t[dp].entries| && s.t[dp].entries[off].inum == ip
    requires x in s.t && NodeOk(s.t, x) && Unlinked(s, dp, off).t[dp].nlink > 0 && s.t[ip].nlink >= 1
             && s.t[ip].kind != 0
    requires s.t[ip].kind == DIR ==> IsEmpty(s.t[ip].entries)
    requires s.t[dp].kind == DIR
    ensures NodeOk(Unlinked(s, dp, off).t, x)
  {
    var t' := Unlinked(s, dp, off).t;
    if s.t[x].kind == DIR {
      forall i: nat | 2 <= i < |t'[x].entries|
        ensures EntryOk(t'[x], i)
      {
        assert EntryOk(s.t[x], i);
      }
    }
  }

  lemma UnlinkKeepsCount(s: State, s': State, dp: nat, off: nat, ip: nat, x: nat)
    requires dp in s.t && ip in s.t && ip != dp && x in s.t && x != 0 && CountOk(s, x) && off < |s.t[dp].entries|
    requires s.t[dp].entries[off].inum == ip && s' == Unlinked(s, dp, off) && NamesAt(s.t, Pos(dp, off), ip)
    requires s.t[ip].kind == DIR ==> NamesAt(s.t, Pos(ip, 1), dp)
    requires forall p, y | y != 0 ::
               NamesAt(s'.t, p, y) <==>
                 && NamesAt(s.t, p, y) && p != Pos(dp, off)
                 && !(s.t[ip].kind == DIR && p == Pos(ip, 1))
    ensures CountOk(s', x)
  {
    hide Refs, NamesAt;
    NamesOne(s.t, Pos(dp, off), ip, x);
    if s.t[ip].kind == DIR {
      NamesOne(s.t, Pos(ip, 1), dp, x);
    }
    if x == ip {
      RefsLess(s.t, s'.t, x, {Pos(dp, off)});
      CountKept(s, s', x, 0, 1);
    } else if x == dp && s.t[ip].kind == DIR {
      RefsLess(s.t, s'.t, x, {Pos(ip, 1)});
      CountKept(s, s', x, 0, 1);
    } else {
      RefsLess(s.t, s'.t, x, {});
      CountKept(s, s', x, 0, 0);
    }
  }

  lemma RefsLess(t: Tree, t': Tree, x: nat, gone: set<Pos>)
    requires forall p :: NamesAt(t', p, x) <==> NamesAt(t, p, x) && p !in gone
    requires forall p | p in gone :: NamesAt(t, p, x)
    ensures |Refs(t', x)| == |Refs(t, x)| - |gone|
  {
    hide Refs, NamesAt;
    RefsAre(t, x);
    RefsAre(t', x);
    assert Refs(t', x) == Refs(t, x) - gone && gone <= Refs(t, x);
  }

  lemma NamesOne(t: Tree, p: Pos, x: nat, y: nat)
    requires NamesAt(t, p, x)
    ensures NamesAt(t, p, y) <==> x == y
  {
  }

  lemma UnlinkKeepsDir(s: State, s': State, dp: nat, off: nat, ip: nat, x: nat)
    requires dp in s.t && ip in s.t && ip != dp && x in s.t && x != 0 && DirOk(s, x) && 2 <= off < |s.t[dp].entries|
    requires s.t[dp].entries[off].inum == ip && s' == Unlinked(s, dp, off) && NamesAt(s.t, Pos(dp, off), ip)
    requires s.t[dp].Live() && (s.t[x].kind == DIR ==> |s.t[x].entries| >= 2)
    requires s.t[ip].kind == DIR ==> s.t[ip].nlink == 1
    requires forall p, y | y != 0 ::
               NamesAt(s'.t, p, y) <==>
                 && NamesAt(s.t, p, y) && p != Pos(dp, off)
                 && !(s.t[ip].kind == DIR && p == Pos(ip, 1))
    ensures DirOk(s', x)
  {
    if s'.t[x].Live() {
      NamesOne(s.t, Pos(dp, off), ip, x);
    }
    hide NamesAt;
    DirKept(s, s', x);
  }
}
