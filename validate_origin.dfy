/** `validateOrigin`: a request must carry exactly the configured `Origin`. */
module ValidateOrigin {
  import opened Wrappers

  const DEFAULT_ORIGIN: string := "http://localhost:3000"
  const FORBIDDEN_ORIGIN: string := "Origen no permitido"

  datatype Verdict = Forbidden(status: int, error: string) | Next

  /** `process.env.ALLOWED_ORIGIN || "http://localhost:3000"` */
  function AllowedOrigin(env: Option<string>): (o: string)
    ensures o != ""
    ensures env.Some? && env.value != "" ==> o == env.value
    ensures env.None? || env.value == "" ==> o == DEFAULT_ORIGIN
  {
    if env.Some? && env.value != "" then env.value else DEFAULT_ORIGIN
  }

  /** The gate, given the environment variable and the `Origin` header (`None` when absent). */
  function ValidateOrigin(env: Option<string>, origin: Option<string>): (v: Verdict)
    ensures v.Next? <==> origin == Some(AllowedOrigin(env))
    ensures v.Forbidden? ==> v == Forbidden(403, FORBIDDEN_ORIGIN)
  {
    if origin != Some(AllowedOrigin(env)) then Forbidden(403, FORBIDDEN_ORIGIN) else Next
  }

  /** No configuration lets a request without an `Origin` header through, and an empty header fails too. */
  lemma MissingOriginRejected(env: Option<string>)
    ensures ValidateOrigin(env, None).Forbidden?
    ensures ValidateOrigin(env, Some("")).Forbidden?
  {
  }
}
