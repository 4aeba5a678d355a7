/** The one shared datatype: a value that may be absent (Python's None, a missing row or key). */
module Options {
  datatype Option<+T> = None | Some(value: T)
}
