/** What every module shares: two result shapes and the clock's unit. */
module Base {

  /** A second on the clock, in its ticks of a nanosecond. */
  const SECOND := 1_000_000_000

  datatype Option<+T> = None | Some(value: T)
  {
    function GetOr(default: T): T {
      if Some? then value else default
    }
  }

  datatype Result<+T, +E> = Ok(value: T) | Err(error: E)
}
