/** The kinds of edges, shared by the program model and the builders. */
module EdgeKinds {
  datatype EdgeKind =
    | Fallthrough | ConditionalTrue | ConditionalFalse | Unconditional | Back | Call | CallReturn | SwitchCase
    | Jump | IndirectJump | IndirectCall
    | ExceptionHandler | ExceptionUnwind | ExceptionLeave | ExceptionResume | ExceptionContinue
}
