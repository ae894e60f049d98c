/** Types that several components share. */
module Base {
  datatype Option<+T> = None | Some(value: T)

  /** The ID of a stored row: trimmed and not blank. */
  datatype ID = ID(text: string)
}
