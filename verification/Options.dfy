module Options {
  /** A value the source writes as "X or None". */
  datatype Option<T> = None | Some(value: T)
}
