// What several services share.
module Prelude {
  // A nullable column or an absent request field.
  datatype Option<+T> = None | Some(value: T)

  // The instants of tokens and time entries are microseconds.
  const MINUTE: int := 60_000_000
}
