/** The sizes of param.h that several parts share. */
module Params {
  const MAXOPBLOCKS: int := 10             // blocks any operation may write
  const LOGSIZE: int := MAXOPBLOCKS * 3    // data blocks in the on-disk log
  const NBUF: int := MAXOPBLOCKS * 3       // buffers in the cache
}
