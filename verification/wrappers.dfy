/** The optional-value datatype used wherever a step of the model may not be
    enabled (a blocking acquire, an order that has already terminated). */
module Wrappers {

  datatype Option<+T> = None | Some(value: T)
}
