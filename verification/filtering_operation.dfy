/** The filtering operations a caller may request, in declaration order. */
module Enums {

  datatype FilteringOperation =
    | None
    | Equal
    | NotEqual
    | GreaterThan
    | LessThan
    | GreaterThanOrEqual
    | LessThanOrEqual
    | Contains
    | StartsWith
    | EndsWith
    | IsNull
    | IsTrue
    | IsFalse
}
