/** Option: the absent-or-present value used for files that may be missing or unreadable,
    environment variables that may be unset, and URLs that may be undefined. */
module Wrappers {
  datatype Option<+T> = None | Some(value: T)
}
