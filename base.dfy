/** Values shared by every part of the model. */
module Base {

  /** Go's nil-able results: `None` stands for nil. */
  datatype Option<+T> = None | Some(value: T) {
    function GetOr(default: T): T {
      match this
      case Some(v) => v
      case None => default
    }
  }

  /** A Go `interface{}` value: nil, or a non-nil value given by the text
      `fmt.Sprint` renders for it (the rendering itself is not modelled). */
  datatype Dynamic = Nil | Text(repr: string)

  /** The parameter map of a request: a key to its ordered list of values.
      Go's nil slice and empty slice are both the empty sequence. */
  type Values = map<string, seq<string>>

  /** `fmt.Sprint(v)` for a non-nil value. */
  function Sprint(v: Dynamic): string
  {
    match v
    case Nil => "<nil>"
    case Text(s) => s
  }
}

/** The tagged errors of the `errs` package, as this code uses them. */
module Errs {

  /** The classification codes `errs.ExecCode` can report; `Other` is every
      code (or absence of a code) the classifier does not single out. */
  datatype Kind = AccessDeny | Internal | NotFound | Timeout | Other

  /** A classified error: its code and its message without the code. */
  datatype Err = Err(kind: Kind, msg: string)
}
