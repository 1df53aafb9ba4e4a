/** Small value types shared by every module of the model. */
module Base {

  /** One octet of a wire message. */
  type byte = x: int | 0 <= x < 256

  /** Python's `None`-or-value. */
  datatype Option<T> = None | Some(value: T)
}
