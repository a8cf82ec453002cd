/** The optional value used wherever the source leaves a variable unbound until
    some condition first holds (a tracked generation, the best grid cell). */
module Options {

  datatype Option<+T> = None | Some(value: T)
}
