/** The two result shapes every other module uses, and the faults a single filesystem
    operation can meet. */
module Wrappers {

  datatype Option<+T> = None | Some(value: T)

  datatype Result<+T, +E> = Ok(value: T) | Err(error: E)

  /** What follows one operating-system call: it goes on, the call fails, or the process dies. */
  datatype Fault = Go | Fail | Die

  /** The point after each such call where a crash can fall; none does while it is calm. */
  method Tick(calm: bool) returns (f: Fault)
    ensures calm ==> f.Go?
  {
    if calm { f := Go; } else { f := *; }
  }
}
