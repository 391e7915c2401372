/** Python's `None`-or-value, as the decoders and the fetcher return it. */
module Wrappers {

  datatype Option<+T> = None | Some(value: T)
}
