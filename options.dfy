/** An optional value: JavaScript's `undefined` where a lookup can miss. */
module Options {

  datatype Option<+T> = None | Some(value: T)
}
