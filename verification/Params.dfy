/** The sizes of kernel/param.h that several parts share, and what a disk block holds. */
module Params {
  const MAXOPBLOCKS := 10
  const LOGSIZE := 30
  const NBUF := 30

  type byte = x: int | 0 <= x < 256
}

module DiskBlocks {
  const WORDS := 256  // 32-bit words in a block of BSIZE bytes

  type Words = w: seq<nat> | |w| == WORDS witness seq(WORDS, _ => 0)

  /** A disk block seen as 32-bit words, the way the log header is stored in it. */
  datatype Block = Block(words: Words)
}
