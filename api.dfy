/** The HTTP surface as the routes and the components see it. */
module Api {
  import opened Wrappers

  /**
   * A route's JSON reply: `{ success: true, data }` or `{ success: false, error }`,
   * each with its HTTP status.
   */
  datatype Reply<T> = Ok(status: int, data: T) | Err(status: int, error: string)

  /**
   * Whether the document store answers during a request. `Down` stands for an
   * exception from `connectDB` or the driver, which every route turns into a 500.
   */
  datatype Connection = Up | Down(reason: string)

  /**
   * What a component learns from `PUT /api/products/{id}`: `success: true`,
   * `success: false` with an optional `error` text, or a failed `fetch`.
   */
  datatype PutOutcome = Saved | Refused(error: Option<string>) | Unreachable

  /** `data.error || fallback`: an absent or empty error text gives the fallback. */
  function ErrorText(error: Option<string>, fallback: string): (r: string)
    ensures error.Some? && error.value != "" ==> r == error.value
    ensures error.None? || error.value == "" ==> r == fallback
  {
    if error.Some? && error.value != "" then error.value else fallback
  }

  /**
   * The text shown is the server's error or the fallback, never anything else,
   * and never empty when the fallback is not.
   */
  lemma ErrorTextShowsErrorOrFallback(error: Option<string>, fallback: string)
    ensures ErrorText(error, fallback) == fallback || Some(ErrorText(error, fallback)) == error
    ensures fallback != "" ==> ErrorText(error, fallback) != ""
    ensures error.Some? && ErrorText(error, fallback) != error.value ==> error.value == ""
  {
  }
}
