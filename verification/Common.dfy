/** Shared value types and counters. */
module Common {

  datatype Option<+T> = None | Some(value: T)

  datatype Result<+T, +E> = Ok(value: T) | Err(error: E)

  /** How a call to another system ends: done, done but reported as failed, or not done. */
  datatype Reply = Done | Lost | Refused

  function Count(m: map<string, nat>, k: string): nat { if k in m then m[k] else 0 }

  function Bump(m: map<string, nat>, k: string): map<string, nat> { m[k := Count(m, k) + 1] }
}
