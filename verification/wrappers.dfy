/** The optional value of the model: a fetch, a parse or a conversion that
    raised in the program yields None, and a message that is not sent is
    None as well. */
module Wrappers {

  datatype Option<+T> = None | Some(value: T)
}
