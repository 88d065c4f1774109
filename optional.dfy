/** The usual Some/None wrapper, for values the program may lack (a signed-in
    user, a nullable column, an optional prop). */
module Optional {
  datatype Option<+T> = None | Some(value: T)
}
