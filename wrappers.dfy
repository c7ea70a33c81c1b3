/** The optional value shared by every module: JavaScript's `undefined` / `null`
    results and "not found" answers of `find`. */
module Wrappers {

  datatype Option<+T> = None | Some(value: T)
}
