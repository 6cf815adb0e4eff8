/** The stock optional value, used for the source's None results and for its exceptions. */
module Options {
  datatype Option<+T> = None | Some(value: T)
}
