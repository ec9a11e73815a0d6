/** The result model shared by every pull: an iterator result `{done, value}`. */
module Results {

  /** What one pull returns: a value (`done: false`) or termination (`done: true`). */
  datatype Step<+T> = Value(value: T) | Done

  /** An element or the "not found" answer (`undefined` in the library). */
  datatype Option<+T> = None | Some(value: T)

  /** The values a pull contributes to the stream of yielded values: one or none. */
  function Yielded<T>(r: Step<T>): seq<T>
  {
    match r
    case Value(v) => [v]
    case Done => []
  }

  function Min(a: int, b: int): int
  {
    if a <= b then a else b
  }
}
