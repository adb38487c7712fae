/** An optional value: the model's stand-in for Python's `None`. */
module Wrappers {

  datatype Option<+T> = None | Some(value: T)

  /** Python's `(x or "")` on an optional string: `None` and `""` both become `""`. */
  function OrEmpty(x: Option<string>): string
  {
    match x
    case None => ""
    case Some(v) => v
  }
}
