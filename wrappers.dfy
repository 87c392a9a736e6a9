/** Small value wrappers shared by the other modules. */
module Wrappers {

  /** A value that may be absent; `None` stands for PHP's `null`. */
  datatype Option<+T> = None | Some(value: T)

  /** The content of a PHP typed property: it has no value at all until it is first assigned. */
  datatype Field<+T> = Uninitialized | Initialized(value: T)
}
