/** The exceptions that the series library and its callers raise, as values.
    A Java method that throws becomes a function or method returning Err(fault). */
module Failures {

  datatype Fault =
    | CheckFailed       // Util.check(false): an invariant the caller had to keep was broken
    | NoSuchElement     // Iterator.next() on an exhausted iterator
    | IndexOutOfBounds  // List.get or an array index outside the list
    | IllegalArgument   // List.subList with fromIndex > toIndex
    | ParseFailure      // Instant.parse or Double.parseDouble rejected its text

  datatype Result<T> = Ok(value: T) | Err(fault: Fault)

  datatype Option<T> = None | Some(value: T)

  /** Prepends `out` to a successful list result; a failure passes through unchanged.
      Used to state what a loop that has already produced `out` will still produce. */
  function Prefixed<E>(out: seq<E>, r: Result<seq<E>>): Result<seq<E>>
  {
    match r
    case Ok(rest) => Ok(out + rest)
    case Err(e) => Err(e)
  }

  lemma PrefixedTwice<E>(out: seq<E>, more: seq<E>, r: Result<seq<E>>)
    ensures Prefixed(out, Prefixed(more, r)) == Prefixed(out + more, r)
  {
    if r.Ok? {
      assert out + (more + r.value) == (out + more) + r.value;
    }
  }
}
