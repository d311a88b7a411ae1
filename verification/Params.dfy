/** Sizes fixed by kernel/param.h, kernel/fs.h and kernel/riscv.h. */
module Params {
  const MAXOPBLOCKS := 10
  const LOGBLOCKS := MAXOPBLOCKS * 3
  const NBUF := MAXOPBLOCKS * 3
  const BSIZE := 1024
  const NDIRECT := 11
  const NINDIRECT := BSIZE / 4
  const MAXFILE := NDIRECT + NINDIRECT + NINDIRECT * NINDIRECT
  const PGSIZE := 4096
}
