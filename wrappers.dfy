/** Optional values: `None` stands for Python's `None` or for an exception the
    source raises instead of returning a value. */
module Wrappers {
  datatype Option<+T> = None | Some(value: T)

  /** The smaller of two lengths: how many pairs `zip` yields. */
  function Min(a: nat, b: nat): nat { if a <= b then a else b }
}
