/** The optional value a store query may return (SQL NULL is `None`). */
module Wrappers {

  datatype Option<+T> = None | Some(value: T)
}
