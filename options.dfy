/** The optional value used wherever a property, parameter or record may be absent. */
module Options {

  datatype Option<+T> = None | Some(value: T)
}
