/** Small definitions that several parts share. */
module Common {
  datatype Option<T> = None | Some(value: T)

  // kernel/param.h: what one file-system operation may log.
  const MAXOPBLOCKS := 10

  // Counters of type uint wrap here.
  const U32 := 0x1_0000_0000

  function Min(a: int, b: int): int {
    if a < b then a else b
  }

  function Max(a: int, b: int): int {
    if a < b then b else a
  }
}
