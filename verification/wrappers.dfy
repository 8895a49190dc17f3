/** `Option` stands for a Python value that may be `None`, and for lookups
    and parses that may fail. */
module Maybe {

  datatype Option<T> = None | Some(value: T)

  /** The held value, or `fallback` when there is none. */
  function ValueOr<T>(o: Option<T>, fallback: T): T
  {
    if o.Some? then o.value else fallback
  }
}
