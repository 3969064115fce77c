/** The optional value that `to_boxed_condition` and `create_filter` return. */
module Options {

  datatype Option<+T> = None | Some(value: T)
}
