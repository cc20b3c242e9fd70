/** Outcomes of operations that end in a call of the library's ensure macro. */
module Checked {

  datatype Checked<T> = Pass(value: T) | Abort
}
