/** The optional value used wherever a JavaScript computation may produce
    `NaN` or an absent value. */
module Wrappers {

  datatype Option<+T> = None | Some(value: T)

}
