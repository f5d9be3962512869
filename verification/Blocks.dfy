/** Disk blocks as byte sequences, and the 32-bit little-endian words the kernel
    reads and writes in place when it casts a buffer's data to `uint*`.
 */
module Blocks {
  import opened Params

  const WORDS := BSIZE / 4
  const WORD_LIMIT := 0x1_0000_0000

  type byte = x: int | 0 <= x < 256

  type Block = s: seq<byte> | |s| == BSIZE witness seq(BSIZE, _ => 0)

  function ZeroBlock(): (r: Block)
    ensures forall i | 0 <= i < BSIZE :: r[i] == 0
  {
    seq(BSIZE, (i: int) => 0)
  }

  /** The i-th 32-bit word of a block. */
  function Word(b: Block, i: nat): nat
    requires i < WORDS
  {
    var b0: int, b1: int, b2: int, b3: int := b[4 * i], b[4 * i + 1], b[4 * i + 2], b[4 * i + 3];
    b0 + 0x100 * b1 + 0x1_0000 * b2 + 0x100_0000 * b3
  }

  /** Stores a 32-bit value as the i-th word. */
  function SetWord(b: Block, i: nat, v: nat): (r: Block)
    requires i < WORDS
  {
    b[4 * i := v % 0x100]
     [4 * i + 1 := v / 0x100 % 0x100]
     [4 * i + 2 := v / 0x1_0000 % 0x100]
     [4 * i + 3 := v / 0x100_0000 % 0x100]
  }

  /** A word that was stored reads back, and no other word changes. */
  lemma WordOfSetWord(b: Block, i: nat, v: nat, j: nat)
    requires i < WORDS && j < WORDS && v < WORD_LIMIT
    ensures Word(SetWord(b, i, v), j) == if i == j then v else Word(b, j)
  {
    if i == j {
      FourBytes(v);
    }
  }

  lemma FourBytes(v: nat)
    requires v < WORD_LIMIT
    ensures v == v % 0x100 + 0x100 * (v / 0x100 % 0x100)
                 + 0x1_0000 * (v / 0x1_0000 % 0x100) + 0x100_0000 * (v / 0x100_0000 % 0x100)
  {
  }
}
