/** Project-wide return codes (common/status.h). The numbers travel on the wire. */
module Status {
  datatype Status =
    | Ok | Err | InvalidArg | InvalidPin | InvalidState | NotInit | Busy | Timeout
    | Unsupported | Empty | Full
  {
    function Code(): (c: nat)
      ensures c <= 10
      ensures c == 0 <==> Ok?
    {
      match this
      case Ok => 0
      case Err => 1
      case InvalidArg => 2
      case InvalidPin => 3
      case InvalidState => 4
      case NotInit => 5
      case Busy => 6
      case Timeout => 7
      case Unsupported => 8
      case Empty => 9
      case Full => 10
    }
  }

  datatype Option<+T> = None | Some(value: T)

  datatype Result<+T, +E> = Success(value: T) | Failure(error: E)
}
