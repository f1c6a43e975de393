/** Small value wrappers shared by the modules of this project. */
module Wrappers {

  /** An optional value: `None` stands for the source's `nullptr` / `nil`. */
  datatype Option<T> = None | Some(value: T)

  /** The outcome of an operation that may throw: `Err` carries the thrown exception. */
  datatype Result<T, E> = Ok(value: T) | Err(error: E)

  /** Unsigned 32-bit integers (`unsigned int`, `CUnsignedInt`). */
  type u32 = x: int | 0 <= x < 0x1_0000_0000

  /** `UINT_MAX` of a 32-bit `unsigned int`. */
  const UINT_MAX: u32 := 0xFFFF_FFFF
}
