/** Small shared vocabulary: optional values, bounds, and the monotone clock.  Times
    are nanoseconds. */
module Common {
  datatype Option<+T> = None | Some(value: T)

  function Min(a: int, b: int): int {
    if a < b then a else b
  }

  function Max(a: int, b: int): int {
    if a > b then a else b
  }

  const MILLISECOND := 1_000_000
  const SECOND := 1_000_000_000

  /** Less than `span` has passed since `t`; None is further back than any span. */
  predicate Within(t: Option<int>, now: int, span: int) {
    t.Some? && now - t.value < span
  }
}
