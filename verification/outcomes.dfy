/** Shared vocabulary of the three controllers: optional values, the ways a
    request can be refused, and the string checks Laravel's validator applies
    to every text field (`required`, `max:N`). */
module Outcomes {

  datatype Option<+T> = None | Some(value: T)

  /** Why a request is refused.
      - Invalid: a validation rule failed (422, or a redirect back with errors);
      - NotFound: `findOrFail` found no row with the given id (404);
      - Duplicate: the free-issue controller's own "already exists for this
        product" check (an explicit 422 JSON response). */
  datatype Failure = Invalid | NotFound | Duplicate

  /** The result of an operation that produces a value (the new row's id). */
  datatype Result<+T> = Ok(value: T) | Err(error: Failure)

  /** The result of an operation that produces nothing but success. */
  datatype Outcome = Pass | Fail(error: Failure)

  /** The characters PHP's `trim` removes by default: space, tab, line feed,
      carriage return, NUL and vertical tab. */
  predicate IsTrimChar(c: char) {
    c == ' ' || c == '\t' || c == '\n' || c == '\r' || c == '\0' || c == '\U{B}'
  }

  /** A string that Laravel's `required` rule refuses: empty once trimmed. */
  predicate Blank(s: string) {
    forall i :: 0 <= i < |s| ==> IsTrimChar(s[i])
  }

  /** `required|string|max:n`: present, not blank, at most n characters. */
  predicate FilledText(s: string, n: nat) {
    !Blank(s) && |s| <= n
  }
}
