/** What several modules need. */
module Prelude {
  datatype Option<T> = None | Some(value: T)

  /** How a write ends: acknowledged, done although the caller sees an error, or not done. */
  datatype Write = Acknowledged | Lost | Rejected

  function Min(a: int, b: int): int {
    if a < b then a else b
  }

  function Max(a: int, b: int): int {
    if a < b then b else a
  }
}
