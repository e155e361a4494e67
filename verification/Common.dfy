/** Datatypes shared by every module of the model. */
module Common {

  datatype Option<+T> = None | Some(value: T)

  /** The normal and the exceptional outcome of an operation that can raise. */
  datatype Result<+T, +E> = Ok(value: T) | Err(error: E)

  /** What a call into the system does: succeed, raise without effect, or raise after its effect. */
  datatype Fault = Fine | Before | After

  /** The two lidars. */
  datatype Side = Left | Right

  function Abs(k: int): nat {
    if k < 0 then -k else k
  }

  /** A text as Python's truth test reads it: the empty one says nothing. */
  function Told(reason: string): Option<string> {
    if reason == "" then None else Some(reason)
  }
}
