/**
 What directory bytes mean. Decoded entry by entry, the files of a volume are the tree of module LinkCounts, and create,
 unlink and link on the bytes are the operations on that tree; so link counts are right on the volume itself.
 */
module DirectoryBytes {
  import opened Blocks
  import opened FileBlocks
  import opened FileContents
  import opened FileSystem
  import DirOperations
  import opened LinkCounts

  const DIRENT := DirOperations.DIRENT
  const INUMS := 0x1_0000                  // inode numbers in a directory entry are ushort

  type Files = DirOperations.Files

  /** A C string, up to its terminator or the end. */
  function CString(b: seq<Byte>): (s: string) {
    if b == [] || b[0] == 0 then "" else [b[0] as char] + CString(b[1..])
  }

  /** What strncpy and strncmp see of a name: its first DIRSIZ characters. */
  function Cut(name: seq<Byte>): (s: string) {
    CString(if |name| >= DirOperations.DIRSIZ then name[..DirOperations.DIRSIZ] else name)
  }

  function DirentOf(e: seq<Byte>): (d: Dirent)
    requires |e| == DIRENT
  {
    var low: int, high: int := e[0], e[1];
    Dirent(low + 256 * high, CString(e[2..]))
  }

  function DirentAt(b: seq<Byte>, i: nat): (d: Dirent)
    requires DIRENT * i + DIRENT <= |b|
  {
    DirentOf(b[DIRENT * i..DIRENT * i + DIRENT])
  }

  function Dirents(b: seq<Byte>): (es: seq<Dirent>)
    ensures |es| == |b| / DIRENT && forall i | 0 <= i < |es| :: es[i] == DirentAt(b, i)
  {
    seq(|b| / DIRENT, i requires 0 <= i < |b| / DIRENT => DirentAt(b, i))
  }

  function NodeOf(f: DirOperations.File): (n: Node) {
    Node(f.kind, f.nlink, if f.kind == DIR then Dirents(f.bytes) else [])
  }

  /** The tree that the files of a volume hold; inode 0 is not used. */
  function TreeOf(files: Files): (t: Tree)
    ensures forall i :: i in t <==> i in files && i != 0
    ensures forall i | i in t :: t[i] == NodeOf(files[i])
  {
    map i | i in files && i != 0 :: NodeOf(files[i])
  }

  // ---- Entries ----

  lemma {:induction false} CStringPadded(b: seq<Byte>, n: nat)
    ensures CString(b + Zeros(n)) == CString(b)
  {
    if b == [] {
      assert b + Zeros(n) == Zeros(n);
    } else if b[0] != 0 {
      assert (b + Zeros(n))[1..] == b[1..] + Zeros(n);
      CStringPadded(b[1..], n);
    }
  }

  lemma EntryDecodes(inum: nat, name: seq<Byte>)
    requires inum < INUMS
    ensures DirentOf(DirOperations.Entry(inum, name)) == Dirent(inum, Cut(name))
  {
    var e := DirOperations.Entry(inum, name);
    if |name| >= DirOperations.DIRSIZ {
      assert e[2..] == name[..DirOperations.DIRSIZ];
    } else {
      assert e[2..] == name + Zeros(DirOperations.DIRSIZ - |name|);
      CStringPadded(name, DirOperations.DIRSIZ - |name|);
    }
  }

  lemma DotsDecode(ip: nat, dp: nat)
    requires ip < INUMS && dp < INUMS
    ensures Dirents(DirOperations.Entry(ip, DirOperations.DOT) + DirOperations.Entry(dp, DirOperations.DOTDOT))
            == [Dirent(ip, "."), Dirent(dp, "..")]
  {
    var a, b := DirOperations.Entry(ip, DirOperations.DOT), DirOperations.Entry(dp, DirOperations.DOTDOT);
    EntryDecodes(ip, DirOperations.DOT);
    EntryDecodes(dp, DirOperations.DOTDOT);
    assert Cut(DirOperations.DOT) == "." && DirOperations.DOTDOT[1..] == DirOperations.DOT;
    assert Cut(DirOperations.DOTDOT) == "..";
    assert (a + b)[..DIRENT] == a && (a + b)[DIRENT..2 * DIRENT] == b;
    var es := Dirents(a + b);
    assert es[0] == DirentAt(a + b, 0) && es[1] == DirentAt(a + b, 1);
  }

  lemma ZerosDecode()
    ensures DirentOf(Zeros(DIRENT)) == EMPTY
  {
  }

  /** Writing one entry over the bytes changes or appends that entry. */
  lemma EntryWritten(b: seq<Byte>, k: nat, e: seq<Byte>)
    requires |b| % DIRENT == 0 && DIRENT * k <= |b| && |e| == DIRENT
    ensures var b', es := Overwrite(b, DIRENT * k, e), Dirents(b);
            && |b'| % DIRENT == 0 && k <= |es|
            && Dirents(b') == if k < |es| then es[k := DirentOf(e)] else es + [DirentOf(e)]
  {
    hide DirentOf;
    var b', es := Overwrite(b, DIRENT * k, e), Dirents(b);
    var n := |b| / DIRENT;
    assert |b| == DIRENT * n && |b'| == if k < n then DIRENT * n else DIRENT * n + DIRENT;
    forall i: nat | i < |b'| / DIRENT
      ensures Dirents(b')[i] == if i == k then DirentOf(e) else es[i]
    {
      assert DIRENT * i + DIRENT <= |b'|;
      if i == k {
        assert b'[DIRENT * i..DIRENT * i + DIRENT] == e;
      } else {
        Aside(i, k);
        assert b'[DIRENT * i..DIRENT * i + DIRENT] == b[DIRENT * i..DIRENT * i + DIRENT];
      }
    }
  }

  lemma Aside(i: nat, k: nat)
    requires i != k
    ensures DIRENT * i + DIRENT <= DIRENT * k || DIRENT * k + DIRENT <= DIRENT * i
  {
  }

  // ---- Operations ----

  lemma TreeUpdate(files: Files, a: nat, f: DirOperations.File)
    requires a != 0
    ensures TreeOf(files[a := f]) == TreeOf(files)[a := NodeOf(f)]
  {
    hide NodeOf;
  }

  /** A directory's bytes are whole entries, and inode numbers fit an entry. */
  ghost predicate Whole(files: Files) {
    && (forall i | i in files :: i < INUMS)
    && forall i | i in files && files[i].kind == DIR :: |files[i].bytes| % DIRENT == 0
  }

  lemma WholeUpdate(files: Files, a: nat, f: DirOperations.File)
    requires Whole(files) && a < INUMS && (f.kind == DIR ==> |f.bytes| % DIRENT == 0)
    ensures Whole(files[a := f])
  {
  }

  lemma WholeAt(files: Files, a: nat)
    requires Whole(files) && a in files
    ensures a < INUMS && (files[a].kind == DIR ==> |files[a].bytes| % DIRENT == 0)
  {
  }

  /** The directory with the entry (inum, name) in its first unused place. */
  lemma NameAdded(d: DirOperations.File, name: seq<Byte>, inum: nat, more: int)
    requires d.kind == DIR && |d.bytes| % DIRENT == 0 && inum < INUMS
    ensures var off := DIRENT * Unused(Dirents(d.bytes), 0);
            && off <= |d.bytes|
            && var up := d.(nlink := d.nlink + more, bytes := Overwrite(d.bytes, off, DirOperations.Entry(inum, name)));
               && |up.bytes| % DIRENT == 0
               && NodeOf(up) == Node(DIR, d.nlink + more, WithDirent(Dirents(d.bytes), Cut(name), inum))
  {
    hide DirOperations.Entry, Cut, Overwrite, Dirents, DirentOf;
    var j := Unused(Dirents(d.bytes), 0);
    DirSize(d.bytes, j);
    EntryWritten(d.bytes, j, DirOperations.Entry(inum, name));
    EntryDecodes(inum, name);
  }

  /** The directory with entry `k` cleared. */
  lemma NameCleared(d: DirOperations.File, k: nat, less: int)
    requires d.kind == DIR && |d.bytes| % DIRENT == 0 && k < |Dirents(d.bytes)|
    ensures DIRENT * k + DIRENT <= |d.bytes|
    ensures var up := d.(nlink := d.nlink - less, bytes := Overwrite(d.bytes, DIRENT * k, Zeros(DIRENT)));
            && |up.bytes| % DIRENT == 0
            && NodeOf(up) == Node(DIR, d.nlink - less, Dirents(d.bytes)[k := EMPTY])
  {
    hide Overwrite, Dirents, DirentOf;
    DirSize(d.bytes, k);
    EntryWritten(d.bytes, k, Zeros(DIRENT));
    ZerosDecode();
  }

  lemma DirSize(b: seq<Byte>, j: nat)
    requires |b| % DIRENT == 0 && j <= |Dirents(b)|
    ensures DIRENT * j <= |b| && (j < |Dirents(b)| ==> DIRENT * j + DIRENT <= |b|)
  {
  }

  /** A new file, or a new directory with its dots. */
  function MadeFile(dp: nat, ip: nat, kind: int, major: int, minor: int): (f: DirOperations.File) {
    DirOperations.File(kind, major, minor, 1,
      if kind == DIR then DirOperations.Entry(ip, DirOperations.DOT) + DirOperations.Entry(dp, DirOperations.DOTDOT)
      else [])
  }

  lemma MadeDecodes(dp: nat, ip: nat, kind: int, major: int, minor: int)
    requires dp < INUMS && ip < INUMS
    ensures var f := MadeFile(dp, ip, kind, major, minor);
            && (f.kind == DIR ==> |f.bytes| % DIRENT == 0)
            && NodeOf(f) == Node(kind, 1, if kind == DIR then [Dirent(ip, "."), Dirent(dp, "..")] else [])
  {
    hide DirOperations.Entry, Dirents;
    DotsDecode(ip, dp);
  }

  /** create on the bytes is create on the tree. */
  lemma CreatedDecodes(
    files: Files, s: State, dp: nat, name: seq<Byte>, ip: nat, kind: int, major: int, minor: int)
    requires Whole(files) && s.t == TreeOf(files) && dp in s.t && ip in s.t && ip != dp && s.t[dp].kind == DIR
    ensures var off := DIRENT * Unused(s.t[dp].entries, 0);
            && off <= |files[dp].bytes|
            && var files' := DirOperations.Created(files, dp, off, name, ip, kind, major, minor);
               Whole(files') && TreeOf(files') == Created(s, dp, Cut(name), ip, kind).t
  {
    hide DirOperations.Entry, Cut, Overwrite, Dirents, TreeOf, Whole, WithDirent, Unused;
    var d, more := files[dp], if kind == DIR then 1 else 0;
    WholeAt(files, dp);
    WholeAt(files, ip);
    NameAdded(d, name, ip, more);
    MadeDecodes(dp, ip, kind, major, minor);
    var off := DIRENT * Unused(s.t[dp].entries, 0);
    var made := MadeFile(dp, ip, kind, major, minor);
    var up := d.(nlink := d.nlink + more, bytes := Overwrite(d.bytes, off, DirOperations.Entry(ip, name)));
    hide NodeOf, MadeFile;
    TreeUpdate(files, ip, made);
    TreeUpdate(files[ip := made], dp, up);
    WholeUpdate(files, ip, made);
    WholeUpdate(files[ip := made], dp, up);
    var t: Tree := s.t;
    assert t[ip := NodeOf(made)][dp := NodeOf(up)] == t[dp := NodeOf(up)][ip := NodeOf(made)];
  }

  /** unlink on the bytes is unlink on the tree, followed by the release of a last unused inode. */
  lemma UnlinkedDecodes(files: Files, s: State, dp: nat, k: nat, ip: nat, last: bool)
    requires Whole(files) && s.t == TreeOf(files) && dp in s.t && ip in s.t && ip != dp && s.t[dp].kind == DIR
    requires k < |s.t[dp].entries| && s.t[dp].entries[k].inum == ip
    ensures DIRENT * k + DIRENT <= |files[dp].bytes|
    ensures var files' := DirOperations.Unlinked(files, dp, DIRENT * k, ip, last);
            && Whole(files')
            && TreeOf(files') == (if last && files[ip].nlink == 1 then Released(Unlinked(s, dp, k), ip)
                                  else Unlinked(s, dp, k)).t
  {
    hide Overwrite, Dirents, TreeOf, Whole, NodeOf, Unlinked, Released;
    var d, f := files[dp], files[ip];
    var less := if f.kind == DIR then 1 else 0;
    WholeAt(files, dp);
    WholeAt(files, ip);
    NodeKinds(d);
    NodeKinds(f);
    NameCleared(d, k, less);
    var up := d.(nlink := d.nlink - less, bytes := Overwrite(d.bytes, DIRENT * k, Zeros(DIRENT)));
    var rest := LessLinked(f, last);
    LessLinkedDecodes(f, last);
    UnlinkedIs(s, dp, k, ip, NodeOf(up), NodeOf(rest));
    TreeUpdate(files, dp, up);
    TreeUpdate(files[dp := up], ip, rest);
    WholeUpdate(files, dp, up);
    WholeUpdate(files[dp := up], ip, rest);
  }

  lemma NodeKinds(f: DirOperations.File)
    ensures NodeOf(f).kind == f.kind && NodeOf(f).nlink == f.nlink
    ensures f.kind == DIR ==> NodeOf(f).entries == Dirents(f.bytes)
  {
  }

  /** The file with one link less, or freed. */
  function LessLinked(f: DirOperations.File, last: bool): DirOperations.File {
    if last && f.nlink == 1 then DirOperations.File(0, f.major, f.minor, 0, []) else f.(nlink := f.nlink - 1)
  }

  lemma LessLinkedDecodes(f: DirOperations.File, last: bool)
    ensures NodeOf(LessLinked(f, last))
            == if last && f.nlink == 1 then Node(0, 0, []) else NodeOf(f).(nlink := f.nlink - 1)
    ensures LessLinked(f, last).kind == DIR ==> f.kind == DIR && LessLinked(f, last).bytes == f.bytes
  {
    hide Dirents;
  }

  lemma UnlinkedIs(s: State, dp: nat, k: nat, ip: nat, up: Node, rest: Node)
    requires dp in s.t && ip in s.t && ip != dp && k < |s.t[dp].entries| && s.t[dp].entries[k].inum == ip
    requires up == s.t[dp].(entries := s.t[dp].entries[k := EMPTY],
                            nlink := s.t[dp].nlink - if s.t[ip].kind == DIR then 1 else 0)
    ensures rest == s.t[ip].(nlink := s.t[ip].nlink - 1) ==> Unlinked(s, dp, k).t == s.t[dp := up][ip := rest]
    ensures ip in Unlinked(s, dp, k).t
    ensures rest == Node(0, 0, []) ==> Released(Unlinked(s, dp, k), ip).t == s.t[dp := up][ip := rest]
  {
  }

  /** link on the bytes is link on the tree. */
  lemma LinkedDecodes(files: Files, s: State, ip: nat, dp: nat, name: seq<Byte>)
    requires Whole(files) && s.t == TreeOf(files) && dp in s.t && ip in s.t && ip != dp
    requires s.t[dp].kind == DIR && s.t[ip].kind != DIR
    ensures var off := DIRENT * Unused(s.t[dp].entries, 0);
            && off <= |files[dp].bytes|
            && var files' := DirOperations.LinkedTo(files, ip, dp, off, name);
               Whole(files') && TreeOf(files') == LinkDone(LinkBegun(s, ip), ip, dp, Cut(name)).t
  {
    hide DirOperations.Entry, Cut, Overwrite, Dirents, TreeOf, Whole, WithDirent, Unused;
    var d, f := files[dp], files[ip];
    WholeAt(files, dp);
    WholeAt(files, ip);
    NameAdded(d, name, ip, 0);
    var off := DIRENT * Unused(s.t[dp].entries, 0);
    var up := d.(nlink := d.nlink + 0, bytes := Overwrite(d.bytes, off, DirOperations.Entry(ip, name)));
    var more := f.(nlink := f.nlink + 1);
    TreeUpdate(files, ip, more);
    TreeUpdate(files[ip := more], dp, up);
    WholeUpdate(files, ip, more);
    WholeUpdate(files[ip := more], dp, up);
  }
}
