/** The optional-value wrapper shared by every module of the model. */
module Options {

  /** A value that may be absent; Python's `None` or a missing match. */
  datatype Option<+T> = None | Some(value: T)

  /** The smaller of two integers (Python's `min` on two ints). */
  function Min(a: int, b: int): (m: int)
    ensures m <= a && m <= b
    ensures m == a || m == b
  {
    if a <= b then a else b
  }
}
