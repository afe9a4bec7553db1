/** Vocabulary shared by the models of the log submitter. */
module Prelude {

  datatype Option<+T> = None | Some(value: T) {
    function GetOr(default: T): T {
      match this
      case Some(v) => v
      case None => default
    }
  }

  newtype Byte = b: int | 0 <= b < 256
}
