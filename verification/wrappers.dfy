/** The optional-value type that the modelled code returns from every checked operation. */
module Wrappers {

  /** Rust's `Option<T>`: `None` signals overflow, underflow or division by zero. */
  datatype Option<+T> = None | Some(value: T)
}
