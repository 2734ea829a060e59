/** An optional value, used where a partial inverse of a total function may have nothing to return. */
module Options {

  datatype Option<+T> = None | Some(value: T)

}
