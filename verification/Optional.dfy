/** A value that may be missing: JavaScript's undefined and null, where they mean just that. */
module Optional {

  datatype Option<+T> = None | Some(value: T)
}
