/** Optional values: the model's rendering of Python's `None`. */
module Outcomes {

  datatype Option<+T> = None | Some(value: T)
}
