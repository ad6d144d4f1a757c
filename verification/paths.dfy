/** The path type shared by every module. */
module Paths {

  /** A filesystem path as the program handles it: a plain string. */
  type Path = string
}
