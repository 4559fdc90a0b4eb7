// What several components share.
module Basics {
  datatype Option<+T> = None | Some(value: T)

  type Bytes = seq<char>
}
