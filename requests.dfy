/** The JSON request fields the endpoints read. */
module Requests {

  /** One field of a JSON request body: missing, explicitly null, or a string. */
  datatype Field = Absent | Null | Str(s: string)

  /** A field that passes Python's `if not field` check: a non-empty string. */
  predicate Truthy(f: Field) {
    f.Str? && f.s != ""
  }
}
