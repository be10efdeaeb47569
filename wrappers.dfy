/** Optional values, used where the engine may find nothing (no target note, a press outside every window). */
module Wrappers {
  datatype Option<+T> = None | Some(value: T)
}
