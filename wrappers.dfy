/** The outcome of parsing a text field as a number: `None` stands for NaN. */
module Wrappers {

  datatype Option<+T> = None | Some(value: T)

}
