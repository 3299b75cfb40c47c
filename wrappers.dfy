/** Small value wrappers shared by every module of the model. */
module Wrappers {

  /** An optional value; `None` stands for JavaScript's `undefined`. */
  datatype Option<+T> = None | Some(value: T)

  /**
   * The outcome of one call into a collaborator that can throw:
   * either it returned a value, or it threw (a failed request).
   */
  datatype Call<+T> = Returned(value: T) | Threw
}
