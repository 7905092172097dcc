// Values that may be absent, shared by every component.
module Options {
  datatype Option<+T> = None | Some(value: T)

  // Python's `v or None` on a string: the empty string counts as absent.
  function OrNone(s: string): Option<string> {
    if s == "" then None else Some(s)
  }
}
