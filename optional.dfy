/** The source's `T | null` / `T | undefined` values. */
module Optional {
  datatype Option<+T> = None | Some(value: T)
}
