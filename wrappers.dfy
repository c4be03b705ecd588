/** The optional-value datatype used by the parser of sitemap documents. */
module Wrappers {

  datatype Option<+T> = None | Some(value: T)
}
