/** Absence, as Go's nil pointers and error returns express it. */
module Optional {

  datatype Option<+T> = None | Some(value: T)
}
