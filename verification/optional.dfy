/** The absent-or-present value used for the first-match lookups and the joined record. */
module Optional {

  datatype Option<+T> = None | Some(value: T)
}
