/** Types shared by the modules. */
module Types {
  newtype Byte = x: int | 0 <= x < 256

  datatype Option<T> = None | Some(value: T)
}
