/** The optional value used for fields that a decoded message may lack. */
module Opt {

  datatype Option<+T> = None | Some(value: T)
}
