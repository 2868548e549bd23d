/** The optional value that stands for JavaScript's `null` / `undefined`, and `Math.min`. */
module Wrappers {

  datatype Option<+T> = None | Some(value: T)

  function Min(a: int, b: int): int {
    if a <= b then a else b
  }
}
