/** 32-bit machine words and the option type shared by every module. */
module Words {
  const WORD_SIZE := 0x1_0000_0000

  /** An unsigned 32-bit word. */
  type Word = w: nat | w < WORD_SIZE

  datatype Option<+T> = None | Some(value: T)

  function Min(a: nat, b: nat): nat {
    if a < b then a else b
  }

  function Max(a: nat, b: nat): nat {
    if a < b then b else a
  }
}
