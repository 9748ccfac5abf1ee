/** Option and Result, used for absent values and for the paths where the
    JavaScript source throws. */
module Wrappers {

  datatype Option<+T> = None | Some(value: T) {
    function GetOr(default: T): T {
      match this
      case Some(v) => v
      case None => default
    }
  }

  datatype Result<+T, +E> = Ok(value: T) | Err(error: E)

  /** Appends the items of the next step, unless a step already threw; the
      first error is the one kept. */
  function Then<T, E>(acc: Result<seq<T>, E>, next: Result<seq<T>, E>): (r: Result<seq<T>, E>)
    ensures r.Ok? <==> acc.Ok? && next.Ok?
    ensures r.Ok? ==> r.value == acc.value + next.value
    ensures acc.Err? ==> r == acc
    ensures acc.Ok? && next.Err? ==> r == Err(next.error)
  {
    if acc.Err? then acc else if next.Err? then Err(next.error) else Ok(acc.value + next.value)
  }
}
