/** An optional value: the answer of a procedure that may run out of input. */
module Options {

  datatype Option<+T> = None | Some(value: T)
}
