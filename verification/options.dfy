/** An optional value: the model's counterpart of a Python `None` return. */
module Options {

  datatype Option<+T> = None | Some(value: T)
}
