// The optional value used wherever the Python returns `X | None`.
module Options {
  datatype Option<+T> = None | Some(value: T) {
    function UnwrapOr(fallback: T): T { if None? then fallback else value }
  }
}
