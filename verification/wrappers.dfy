/** The optional value used wherever the fetcher can come back empty-handed. */
module Wrappers {

  /** Either nothing, or one value. */
  datatype Option<+T> = None | Some(value: T)
}
