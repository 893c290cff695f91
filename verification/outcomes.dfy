/** Optional values and the one runtime fault the modelled scripts can raise. */
module Outcomes {

  /** A possibly-null reference or an absent value. */
  datatype Option<+T> = None | Some(value: T)

  /** The exception a C# array access outside its bounds throws. */
  datatype Fault = IndexOutOfRange

  /** Either the updated value, or the exception that aborted the update. */
  datatype Result<+T> = Ok(value: T) | Err(fault: Fault)
}
