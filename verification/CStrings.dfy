/** Strings as C has them. */
module CStrings {
  /** A C string does not contain the character that ends it. */
  predicate CString(s: string) {
    '\0' !in s
  }
}
