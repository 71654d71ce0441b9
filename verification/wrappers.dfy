/** Optional values. In this model `None` also stands for the NaN that
    JavaScript's `parseInt` returns when its argument holds no number. */
module Wrappers {

  datatype Option<+T> = None | Some(value: T)
}
