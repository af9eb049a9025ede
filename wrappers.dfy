/** The optional value that stands for Kotlin's nullable types (`String?`, `Double?`, `Int?`). */
module Wrappers {

  datatype Option<+T> = None | Some(value: T)
}
