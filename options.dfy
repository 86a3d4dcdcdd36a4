/** An optional value: the model's stand-in for a SQL null or an undefined result. */
module Options {

  datatype Option<+T> = None | Some(value: T)

}
