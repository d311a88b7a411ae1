/** A disk block as 256 words, the layout of the log's header block. */
module Blocks {
  import opened Params

  type Block = b: seq<int> | |b| == NINDIRECT witness seq(NINDIRECT, _ => 0)

  function ZeroBlock(): Block {
    seq(NINDIRECT, _ => 0)
  }
}
