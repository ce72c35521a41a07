/** Optional values, shared by the modules of this project. */
module Wrappers {

  /** `None` stands for a missing value; in the board pages it also stands for
      the JavaScript number NaN, which `parseInt` yields for text without digits. */
  datatype Option<+T> = None | Some(value: T)
}
