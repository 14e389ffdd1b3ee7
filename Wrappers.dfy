/** Optional values stand for Java's nullable references; results for
    operations that either succeed or raise a persistence error. */
module Wrappers {

  datatype Option<+T> = None | Some(value: T)

  datatype Result<+R, +E> = Success(value: R) | Failure(error: E)
}
