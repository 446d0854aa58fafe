/** Optional values, standing for JavaScript's `null` / "no call made". */
module Wrappers {

  datatype Option<T> = None | Some(value: T)

}
