/** The Some/None datatype that stands for JavaScript's `null` in this model. */
module Optional {

  datatype Option<+T> = None | Some(value: T)
}
