/** Option and Result, the two failure-carrying shapes the model uses in place
    of Python's `None` returns and raised exceptions. */
module Wrappers {

  /** `None` stands for Python's `None`; `Some(v)` for a present value. */
  datatype Option<+T> = None | Some(value: T)

  /** `Failure(e)` stands for an exception `e` raised to the caller. */
  datatype Result<+R, +E> = Success(value: R) | Failure(error: E)
}
