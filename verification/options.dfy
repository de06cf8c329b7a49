/** An optional value: a field of a MongoDB result document that a stage
    leaves missing is `None`. */
module Options {

  datatype Option<+T> = None | Some(value: T)
}
