/**
 The inode blocks of part1/fs.h and part1/fs.c as bytes: eight records of 64 bytes a block. Copying an inode in memory
 over its record is what FileSystem.Volume.Iupdate does to the table, as long as its fields fit.
 */
module InodeBytes {
  import opened Blocks
  import opened FileBlocks
  import opened FileSystem

  const RECORD := 16                       // sizeof(struct dinode) in words
  const SHORTS := 0x1_0000

  /** A signed 16-bit field. */
  predicate Short(x: int) {
    -0x8000 <= x < 0x8000
  }

  /** Two shorts in a word, the first in the low half. */
  function Pair(a: int, b: int): (w: Word) {
    a % SHORTS + SHORTS * (b % SHORTS)
  }

  function Signed(h: int): (x: int) {
    if h < 0x8000 then h else h - SHORTS
  }

  function First(w: Word): (x: int) {
    Signed(w % SHORTS)
  }

  function Second(w: Word): (x: int) {
    Signed(w / SHORTS)
  }

  lemma PairRoundTrip(a: int, b: int)
    ensures First(Pair(a, b)) == a <==> Short(a)
    ensures Second(Pair(a, b)) == b <==> Short(b)
  {
    var l, h := a % SHORTS, b % SHORTS;
    assert Pair(a, b) % SHORTS == l && Pair(a, b) / SHORTS == h;
    Residue(a);
    Residue(b);
  }

  lemma Residue(a: int)
    ensures Signed(a % SHORTS) == a <==> Short(a)
  {
  }

  /** iupdate's assignments to the record's fields. */
  function Encode(ino: Inode): (ws: seq<Word>)
    requires |ino.addrs| == NDIRECT + 1 && ino.size < WORD_LIMIT
    ensures |ws| == RECORD
  {
    [Pair(ino.kind, ino.major), Pair(ino.minor, ino.nlink), ino.size] + ino.addrs
  }

  /** ilock's assignments from them. */
  function Decode(ws: seq<Word>): (ino: Inode)
    requires |ws| == RECORD
  {
    Inode(First(ws[0]), Second(ws[0]), First(ws[1]), Second(ws[1]), ws[2], ws[3..])
  }

  /** An inode is read back as it was written exactly if its fields fit. */
  lemma RoundTrip(ino: Inode)
    requires |ino.addrs| == NDIRECT + 1 && ino.size < WORD_LIMIT
    ensures Decode(Encode(ino)) == ino <==> Short(ino.kind) && Short(ino.major) && Short(ino.minor) && Short(ino.nlink)
  {
    hide Pair, First, Second, Short;
    PairRoundTrip(ino.kind, ino.major);
    PairRoundTrip(ino.minor, ino.nlink);
    assert Encode(ino)[3..] == ino.addrs;
  }

  predicate Fits(ino: Inode) {
    && |ino.addrs| == NDIRECT + 1 && ino.size < WORD_LIMIT
    && Short(ino.kind) && Short(ino.major) && Short(ino.minor) && Short(ino.nlink)
  }

  // ---- Records in a block ----

  /** The first `n` words of `ws` stored from word `at` on. */
  function PutWords(b: Block, at: nat, ws: seq<Word>, n: nat): (r: Block)
    requires n <= |ws| && at + |ws| <= WORDS
  {
    if n == 0 then b else SetWord(PutWords(b, at, ws, n - 1), at + n - 1, ws[n - 1])
  }

  lemma {:induction false} PutWordsAt(b: Block, at: nat, ws: seq<Word>, n: nat, j: nat)
    requires n <= |ws| && at + |ws| <= WORDS && j < WORDS
    ensures WordAt(PutWords(b, at, ws, n), j) == if at <= j < at + n then ws[j - at] else WordAt(b, j)
  {
    if n > 0 {
      PutWordsAt(b, at, ws, n - 1, j);
      WordAfterSetWord(PutWords(b, at, ws, n - 1), at + n - 1, ws[n - 1], j);
    }
  }

  /** Record `k` of a block. */
  function RecordAt(b: Block, k: nat): (ws: seq<Word>)
    requires k < IPB
    ensures |ws| == RECORD && forall i | 0 <= i < RECORD :: ws[i] == WordAt(b, RECORD * k + i)
  {
    seq<Word>(RECORD, i requires 0 <= i < RECORD => WordAt(b, RECORD * k + i))
  }

  function PutRecord(b: Block, k: nat, ino: Inode): (r: Block)
    requires k < IPB && |ino.addrs| == NDIRECT + 1 && ino.size < WORD_LIMIT
  {
    PutWords(b, RECORD * k, Encode(ino), RECORD)
  }

  lemma RecordAfterPut(b: Block, k: nat, ino: Inode, j: nat)
    requires k < IPB && j < IPB && |ino.addrs| == NDIRECT + 1 && ino.size < WORD_LIMIT
    ensures RecordAt(PutRecord(b, k, ino), j) == if j == k then Encode(ino) else RecordAt(b, j)
  {
    hide WordAt, Encode, PutWords;
    var r, want := RecordAt(PutRecord(b, k, ino), j), if j == k then Encode(ino) else RecordAt(b, j);
    forall i | 0 <= i < RECORD
      ensures r[i] == want[i]
    {
      PutWordsAt(b, RECORD * k, Encode(ino), RECORD, RECORD * j + i);
      Apart(k, j, i);
    }
  }

  lemma Apart(k: nat, j: nat, i: nat)
    requires i < RECORD
    ensures RECORD * k <= RECORD * j + i < RECORD * k + RECORD <==> j == k
  {
  }

  /** A signed 16-bit field at byte `at`, low byte first. */
  function ShortAt(b: Block, at: nat): (x: int)
    requires at + 1 < BSIZE
  {
    var low: int, high: int := b[at], b[at + 1];
    if high < 128 then low + 256 * high else low + 256 * high - SHORTS
  }

  /** Where struct dinode has its fields: four shorts, the size at byte 8 and the addresses from byte 12 on. */
  lemma RecordLayout(b: Block, k: nat, ino: Inode)
    requires k < IPB && Fits(ino)
    ensures var r, at := PutRecord(b, k, ino), 64 * k;
            && ShortAt(r, at) == ino.kind && ShortAt(r, at + 2) == ino.major
            && ShortAt(r, at + 4) == ino.minor && ShortAt(r, at + 6) == ino.nlink
            && WordAt(r, at / 4 + 2) == ino.size
            && forall i | 0 <= i <= NDIRECT :: WordAt(r, at / 4 + 3 + i) == ino.addrs[i]
  {
    var r := PutRecord(b, k, ino);
    WordOfRecord(b, k, ino, 0);
    WordOfRecord(b, k, ino, 1);
    WordOfRecord(b, k, ino, 2);
    hide PutRecord;
    ShortsOfPair(r, RECORD * k, ino.kind, ino.major);
    ShortsOfPair(r, RECORD * k + 1, ino.minor, ino.nlink);
    forall i | 0 <= i <= NDIRECT
      ensures WordAt(r, RECORD * k + 3 + i) == ino.addrs[i]
    {
      WordOfRecord(b, k, ino, 3 + i);
    }
  }

  lemma WordOfRecord(b: Block, k: nat, ino: Inode, i: nat)
    requires k < IPB && i < RECORD && |ino.addrs| == NDIRECT + 1 && ino.size < WORD_LIMIT
    ensures WordAt(PutRecord(b, k, ino), RECORD * k + i) == Encode(ino)[i]
  {
    hide WordAt, Encode, PutWords;
    PutWordsAt(b, RECORD * k, Encode(ino), RECORD, RECORD * k + i);
  }

  lemma ShortsOfPair(b: Block, j: nat, x: int, y: int)
    requires j < WORDS && WordAt(b, j) == Pair(x, y) && Short(x) && Short(y)
    ensures ShortAt(b, 4 * j) == x && ShortAt(b, 4 * j + 2) == y
  {
    var b0: int, b1: int, b2: int, b3: int := b[4 * j], b[4 * j + 1], b[4 * j + 2], b[4 * j + 3];
    assert b0 + 256 * b1 + SHORTS * (b2 + 256 * b3) == x % SHORTS + SHORTS * (y % SHORTS);
    assert b0 + 256 * b1 == x % SHORTS && b2 + 256 * b3 == y % SHORTS;
  }

  // ---- The table ----

  /** The inode `inum` that the inode blocks hold. */
  function InodeAt(blocks: seq<Block>, inum: nat): (ino: Inode)
    requires inum / IPB < |blocks|
  {
    Decode(RecordAt(blocks[inum / IPB], inum % IPB))
  }

  ghost predicate Holds(blocks: seq<Block>, table: map<nat, Inode>) {
    forall i | i in table :: i / IPB < |blocks| && InodeAt(blocks, i) == table[i]
  }

  /** iupdate on the bytes: the blocks hold the table in which that one inode was replaced. */
  lemma UpdatedHolds(blocks: seq<Block>, table: map<nat, Inode>, inum: nat, ino: Inode)
    requires Holds(blocks, table) && inum / IPB < |blocks| && Fits(ino)
    ensures var b := inum / IPB;
            Holds(blocks[b := PutRecord(blocks[b], inum % IPB, ino)], table[inum := ino])
  {
    hide Decode, Encode, RecordAt, PutRecord, Short;
    var b := inum / IPB;
    var blocks' := blocks[b := PutRecord(blocks[b], inum % IPB, ino)];
    RoundTrip(ino);
    forall i | i in table[inum := ino]
      ensures i / IPB < |blocks'| && InodeAt(blocks', i) == table[inum := ino][i]
    {
      if i / IPB == b {
        RecordAfterPut(blocks[b], inum % IPB, ino, i % IPB);
        SameRecord(i, inum);
      }
    }
  }

  lemma SameRecord(i: nat, j: nat)
    ensures i / IPB == j / IPB && i % IPB == j % IPB <==> i == j
  {
  }
}
