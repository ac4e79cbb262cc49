/** Types shared by the models. */
module Base {

  datatype Option<T> = None | Some(value: T)

  type byte = b: int | 0 <= b < 256

  const NUL: byte := 0
}
