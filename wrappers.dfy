// Option and Result values shared by every module of the model.  A Python
// exception is modelled as an `Err` carrying the exception class and message.

module Wrappers {

  datatype Option<T> = None | Some(value: T)

  /** `o or d`: the value when there is one, else the default. */
  function OptionOr<T>(o: Option<T>, d: T): (r: T)
    ensures o.Some? ==> r == o.value
    ensures o.None? ==> r == d
  {
    if o.Some? then o.value else d
  }

  datatype Result<T> = Ok(value: T) | Err(error: string)
}
