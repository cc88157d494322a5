/** Optional values, results of operations that may fail, and the ends of statements that may. */
module Wrappers {

  datatype Option<+T> = None | Some(value: T)

  datatype Result<+T, +E> = Ok(value: T) | Err(error: E)

  /** How a database statement ends: done and reported, not done, or done with the report lost. */
  datatype Fate = Success | Lost | Unacknowledged

  /** How the next statement ends: any way on an unreliable database, well on a reliable one. */
  method Decide(reliable: bool) returns (fate: Fate)
    ensures reliable ==> fate == Success
  {
    fate := Success;
    if !reliable {
      fate := *;
    }
  }
}
