/** Small shared vocabulary: optional values, results with an error side, and the
    string prefix/suffix tests that `String.startsWith` and `String.endsWith` perform. */
module Common {

  /** A value that may be absent: Java's `null`, or an empty `Optional`. */
  datatype Option<+T> = None | Some(value: T)

  /** The outcome of an operation that can raise an exception. */
  datatype Result<+T, +E> = Ok(value: T) | Err(error: E)

  /** The outcome of an operation that returns nothing but can raise an exception. */
  datatype Outcome<+E> = Pass | Fail(error: E)

  /** `s.startsWith(p)` */
  predicate StartsWith(s: string, p: string) {
    |p| <= |s| && s[..|p|] == p
  }

  /** `s.endsWith(p)` */
  predicate EndsWith(s: string, p: string) {
    |p| <= |s| && s[|s| - |p|..] == p
  }
}
