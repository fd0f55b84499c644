/** Value shapes shared by the enrollment wizard and the login form. */
module Outcomes {

  /** A value that may be absent (JavaScript's `undefined` / `null`). */
  datatype Option<T> = None | Some(value: T)

  /** What `apiRequest` (src/lib/api.ts) hands back to its caller: the parsed
      body of a 2xx response, a thrown error and its message, or
      `null` after a 401, when it has already cleared the stored token and
      redirected to the login page. */
  datatype ApiResponse<T> =
    | Data(value: T)
    | ApiError(message: string)
    | Unauthorized

  /** JavaScript truthiness of an optional string: absent and "" are falsy. */
  predicate Truthy(s: Option<string>)
  {
    s.Some? && s.value != ""
  }

  /** `s || fallback` for an optional string. */
  function OrElse(s: Option<string>, fallback: string): (r: string)
    ensures Truthy(s) ==> r == s.value
    ensures !Truthy(s) ==> r == fallback
  {
    if Truthy(s) then s.value else fallback
  }
}
