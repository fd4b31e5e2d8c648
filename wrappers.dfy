/** Optional values, used for the engine operations that can fail (`Result`s and
    `Option`s that the guest programs `unwrap`). */
module Wrappers {

  datatype Option<+T> = None | Some(value: T)
}
