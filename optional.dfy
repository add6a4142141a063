/** A value that may be absent: Python's None, or a dictionary key that is
    not there. */
module Optional {

  datatype Option<+T> = None | Some(value: T)
}
