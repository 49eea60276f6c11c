/** Small result types shared by every module of the model. */
module Wrappers {

  /** Python's `None` or a value. */
  datatype Option<+T> = None | Some(value: T)

  /** The outcome of a Python call that may raise: it returns a value or raises
      an exception that nothing in the modelled code catches. */
  datatype Outcome<+T> = Returns(value: T) | Raises
}
