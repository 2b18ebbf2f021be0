/** Disk blocks as 512 bytes, read either byte by byte or as 128 little-endian 32-bit words. */
module Blocks {
  const BSIZE := 512
  const WORDS := 128                        // BSIZE / sizeof(uint)
  const WORD_LIMIT := 0x1_0000_0000

  type Byte = b: int | 0 <= b < 256
  type Word = w: int | 0 <= w < WORD_LIMIT
  type Block = b: seq<Byte> | |b| == BSIZE witness seq(BSIZE, _ => 0)

  function Zeros(n: nat): (z: seq<Byte>)
    ensures |z| == n && forall i | 0 <= i < n :: z[i] == 0
  {
    seq(n, _ => 0)
  }

  const ZERO_BLOCK: Block := Zeros(BSIZE)

  /** `((uint*)data)[j]`. */
  function WordAt(b: Block, j: nat): (w: Word)
    requires j < WORDS
  {
    var b0: int, b1: int, b2: int, b3: int := b[4 * j], b[4 * j + 1], b[4 * j + 2], b[4 * j + 3];
    b0 + 256 * b1 + 65536 * b2 + 16777216 * b3
  }

  /** The block after `((uint*)data)[j] = w`. */
  function SetWord(b: Block, j: nat, w: Word): (r: Block)
    requires j < WORDS
  {
    b[4 * j := w % 256][4 * j + 1 := w / 256 % 256][4 * j + 2 := w / 65536 % 256][4 * j + 3 := w / 16777216]
  }

  lemma DigitsOfWord(w: Word)
    ensures w % 256 + 256 * (w / 256 % 256) + 65536 * (w / 65536 % 256) + 16777216 * (w / 16777216) == w
  {
  }

  lemma WordAfterSetWord(b: Block, j: nat, w: Word, k: nat)
    requires j < WORDS && k < WORDS
    ensures WordAt(SetWord(b, j, w), k) == if k == j then w else WordAt(b, k)
  {
    DigitsOfWord(w);
  }

  lemma ZeroBlockWords(j: nat)
    requires j < WORDS
    ensures WordAt(ZERO_BLOCK, j) == 0
  {
  }
}
