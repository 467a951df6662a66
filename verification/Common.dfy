/** Types shared by the modules of the model. */
module Common {

  datatype Option<+T> = None | Some(value: T)

  datatype Result<+T, +E> = Ok(value: T) | Err(error: E)

  /** One attempted step: not possible now, a panic, or the state it leads to. */
  datatype Outcome<+S> = Disabled | Panic | Next(state: S)

  /** What to do with a payload for a full queue: wait, make room, or discard it. */
  datatype DropPolicy = Block | DropOldest | DropNewest

  /** An unsigned 8-bit value. */
  type Byte = b: int | 0 <= b < 0x100

  const U32_MAX: nat := 0xFFFF_FFFF
  const U64_MAX: nat := 0xFFFF_FFFF_FFFF_FFFF
}
