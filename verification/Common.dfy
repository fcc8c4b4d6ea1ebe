/** Result shapes and small helpers shared by the models. */
module Common {

  /** A value that may be absent: Python's `None`, or SQL's `NULL`. */
  datatype Option<+T> = None | Some(value: T)

  /** A call that either returns or raises. */
  datatype Result<+T, +E> = Ok(value: T) | Err(error: E)

  function Abs(x: real): real { if x < 0.0 then -x else x }

  function Min(x: real, y: real): real { if y < x then y else x }

  function Max(x: real, y: real): real { if y > x then y else x }

  lemma Associate<T>(a: seq<T>, b: seq<T>, c: seq<T>)
    ensures a + b + c == a + (b + c)
  {
  }
}
