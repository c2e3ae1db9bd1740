/** What several modules share. */
module Basics {

  datatype Option<T> = None | Some(value: T)

  /** An account's instance; zero is none. */
  type Instance = nat
}
