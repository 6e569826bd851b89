/** The optional value returned by searches such as `firstIndex(of:)`. */
module Options {

  datatype Option<T> = None | Some(value: T)

}
