/** The kernel's fixed sizes, from param.h and fs.h. */
module Params {
  const NPROC := 64
  const MAXOPBLOCKS := 10
  const LOGBLOCKS := 3 * MAXOPBLOCKS
  const NBUF := 3 * MAXOPBLOCKS
  const NINODE := 50
  const BSIZE := 1024
}
