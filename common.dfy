/** Shared vocabulary of the model: optional values, identifiers, the clock
    and the exceptions the Django code raises or swallows. */
module Common {

  datatype Option<+T> = None | Some(value: T)

  datatype Result<+T, +E> = Ok(value: T) | Err(error: E)

  /** Primary keys of users (auto-increment) and the UUID of a verification
      token, both modelled as naturals handed out fresh by the store. */
  type UserId = nat
  type TokenId = nat

  /** The clock (`timezone.now()`), in seconds. */
  type Time = int

  const MINUTE: int := 60
  const HOUR: int := 60 * MINUTE
  const DAY: int := 24 * HOUR

  /** A calendar date as `date` exposes it: year, month and day. */
  datatype Date = Date(year: int, month: int, day: int)

  /** The exceptions raised on the paths the model follows. Integrity errors
      carry the database's message (SQLite wording). */
  datatype Exception =
    | ValueError(message: string)
    | IntegrityError(message: string)
    | KeyError(key: string)
    | TypeError(message: string)
    | IndexError(message: string)
    | UnboundLocalError(name: string)
  {
    /** `str(ex)` as the services return it. */
    function Text(): string
    {
      match this
      case ValueError(m) => m
      case IntegrityError(m) => m
      case KeyError(k) => "'" + k + "'"
      case TypeError(m) => m
      case IndexError(m) => m
      case UnboundLocalError(n) => "cannot access local variable '" + n + "' where it is not associated with a value"
    }
  }
}
