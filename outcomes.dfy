/** The verdict of a checker: it returns normally, or it raises an error of some kind. */
module Outcomes {

  datatype Outcome<E> = Pass | Fail(error: E)
}
