/**
 * Small value wrappers shared by the whole model: a nullable value and the
 * outcome of a network call as the client sees it.
 */
module Maybe {

  /** A value that may be absent (JavaScript `null`/`undefined`, a Java `null`, an empty `Optional`). */
  datatype Option<+T> = None | Some(value: T) {

    predicate IsFailure() {
      None?
    }

    function PropagateFailure<U>(): Option<U>
      requires None?
    {
      None
    }

    function Extract(): T
      requires Some?
    {
      value
    }
  }

  /**
   * A string that is there and not empty: JavaScript truthiness of a
   * nullable string, and Java's `s != null && !s.isEmpty()`.
   */
  predicate Present(s: Option<string>)
  {
    s.Some? && s.value != ""
  }

  /**
   * How an asynchronous request settled, seen from its `.then`/`.catch`
   * callbacks: the response body on success, nothing on failure.
   */
  datatype Outcome<+T> = Succeeded(data: T) | Failed
}
