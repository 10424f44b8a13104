/**
 * What the back-end gates share: the parsed cookie jar, the decoded session
 * token, and the Firebase verification call, which is outside the model and
 * enters every gate as a parameter.
 */
module Session {
  import opened Wrappers
  import opened Js

  const SESSION_COOKIE: string := "__session"

  /** `req.cookies`: `NoJar` when no cookie parser filled it in (it is `undefined`). */
  datatype Cookies = NoJar | Jar(values: map<string, string>)

  /** The claims of a decoded session cookie. */
  type Token = map<string, JsValue>

  /** `verifySessionCookie(cookie, true)`: the decoded token, or `None` when it rejects. */
  type Verifier = string -> Option<Token>

  /** A gate either answers with a status and `{ error }`, or sets `req.user` and calls `next`. */
  datatype Outcome = Respond(status: int, error: string) | Proceed(user: Token)

  /**
   * `req.cookies?.__session`, kept only when truthy: a missing jar, a missing
   * cookie and an empty cookie all read as `None`.
   */
  function SessionCookie(cookies: Cookies): (c: Option<string>)
    ensures c.Some? <==> cookies.Jar? && SESSION_COOKIE in cookies.values && cookies.values[SESSION_COOKIE] != ""
    ensures c.Some? ==> c.value == cookies.values[SESSION_COOKIE]
  {
    if cookies.Jar? && SESSION_COOKIE in cookies.values && cookies.values[SESSION_COOKIE] != "" then
      Some(cookies.values[SESSION_COOKIE])
    else
      None
  }

  /** `decodedToken.<claim>` */
  function Claim(token: Token, claim: string): (v: JsValue)
    ensures claim !in token ==> v == Undefined
    ensures claim in token ==> v == token[claim]
  {
    Prop(Obj(token), claim)
  }
}
