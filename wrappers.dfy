/** An optional value, shared by the other modules. */
module Wrappers {

  /** The stored result of a task (`std::optional`), and the answer of a
      reader that may reject its input. */
  datatype Option<T> = None | Some(value: T)
}
