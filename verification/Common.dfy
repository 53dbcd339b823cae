/** What several components share: optional values, fallible results, and the rounding of Python's `round`. */
module Common {

  datatype Option<+T> = None | Some(value: T)

  datatype Fallible<+T, +E> = Ok(value: T) | Err(failure: E) {
    predicate IsFailure() { Err? }
    function PropagateFailure<U>(): Fallible<U, E>
      requires Err?
    {
      Err(failure)
    }
    function Extract(): T
      requires Ok?
    {
      value
    }
  }

  // To the nearest integer, halves to even.
  function RoundHalfEven(x: real): int {
    var f := x.Floor;
    var part := x - f as real;
    if part < 0.5 then f else if part > 0.5 then f + 1 else if f % 2 == 0 then f else f + 1
  }
}
