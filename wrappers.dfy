/** Optional values, used for outcomes that may be missing (an upload field,
    a recognised transcript, a parsed duration). */
module Wrappers {

  datatype Option<+T> = None | Some(value: T)

}
