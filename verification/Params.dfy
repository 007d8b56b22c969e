/** The constants of param.h that several modules share. */
module Params {
  const NPROC := 10
  const MAXOPBLOCKS := 10
  const NBUF := 30             // buffers of the cache
  const LOGSIZE := 30          // three operations of MAXOPBLOCKS
  const FSSIZE := 1000
  const ROOTINO := 1           // fs.h
}

/** A value that may be missing: a null pointer, or a search that finds nothing. */
module Options {
  datatype Option<T> = None | Some(value: T)
}
