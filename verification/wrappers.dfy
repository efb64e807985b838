/** Option type shared by the modules of the print-service model. */
module Wrappers {

  /** `None` stands for JavaScript's `null`, `undefined` and `NaN` results. */
  datatype Option<+T> = None | Some(value: T)
}
