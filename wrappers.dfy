/** Optional values: a gaze sample that may be missing, a dwell start that may be unset. */
module Wrappers {
  datatype Option<+T> = None | Some(value: T)
}
