/** The optional value used throughout the model: JavaScript's `undefined`
    (or a `false` sentinel) on one side, a present value on the other. */
module Options {

  datatype Option<+T> = None | Some(value: T)
}
