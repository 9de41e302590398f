/** Small shared vocabulary: optional values, results, byte buffers and the
    Python exception kinds the modelled code can raise. */
module Common {

  datatype Option<+T> = None | Some(value: T) {
    function GetOr(default: T): T {
      match this
      case Some(v) => v
      case None => default
    }
  }

  datatype Result<+T, +E> = Success(value: T) | Failure(error: E)

  newtype Byte = b: int | 0 <= b < 256

  /** A `bytes` / `bytearray` value. */
  type Bytes = seq<Byte>

  /** The Python exceptions that escape the modelled handlers and builders. */
  datatype PyError =
    | KeyError            // `self.user_data[user_id]` for a user without a record
    | TypeError           // arithmetic on a `None` row or column count
    | ZeroDivisionError   // a page capacity or a grid dimension of zero
    | UnboundLocalError   // a local variable read on a path that never bound it
    | AttributeError      // a call to a method the object does not define

  function Min(a: int, b: int): int { if a <= b then a else b }
  function Max(a: int, b: int): int { if a >= b then a else b }
}
