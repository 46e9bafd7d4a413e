/** The optional value used for empty squares and absent results. */
module Optional {

  datatype Option<+T> = None | Some(value: T)

}
