/** An optional value: a missing attribute, tab field or checkbox. */
module Options {

  datatype Option<T> = None | Some(value: T)
}
