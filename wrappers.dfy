/** Small result types shared by every module of the model. */
module Wrappers {

  /** A value that may be absent: Python's `None` on the one side, a value on the other. */
  datatype Option<T> = None | Some(value: T)

  /** How one step of the command-line tool ends.
      - Returned: the step returned normally, with the value it returned.
      - Raised: an exception escaped the step; nothing after the raising call ran. */
  datatype Outcome<T> = Returned(value: T) | Raised
}
