/** Failure values shared by the models: an absent value, and a rejected request. */
module Wrappers {

  datatype Option<+T> = None | Some(value: T)

  /** `Fail` stands for a raised exception, whose message the models do not keep. */
  datatype Result<+T> = Ok(value: T) | Fail
}
