module Common {
  /** An optional value: a missing database row, Redis key or field. */
  datatype Option<+T> = None | Some(value: T)

  function Min(a: int, b: int): int { if a < b then a else b }
}
