/** A value that may be absent: a failed host or API call, a missing header, no match. */
module Optional {
  datatype Option<T> = None | Some(value: T)
}
