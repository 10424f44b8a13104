/** `checkApprovedMiddleware`: only approved users with a valid session cookie pass. */
module CheckApproved {
  import opened Wrappers
  import opened Js
  import opened Session

  const NO_COOKIE: string := "No se proporcionó cookie de sesión."
  const NOT_APPROVED: string := "El usuario no está aprobado para acceder a este recurso."
  const INVALID_COOKIE: string := "Cookie de sesión inválida o error en la verificación."

  /**
   * The gate. `req.cookies?.__session` tolerates a missing jar; a rejected
   * verification is caught and answered with 401; any truthy `approved` passes.
   */
  function CheckApprovedMiddleware(cookies: Cookies, verify: Verifier): (o: Outcome)
    ensures o.Proceed? <==>
      SessionCookie(cookies).Some? && verify(SessionCookie(cookies).value).Some? &&
      Truthy(Claim(verify(SessionCookie(cookies).value).value, "approved"))
    ensures o.Proceed? ==> o.user == verify(SessionCookie(cookies).value).value
    ensures SessionCookie(cookies).None? ==> o == Respond(401, NO_COOKIE)
    ensures SessionCookie(cookies).Some? && verify(SessionCookie(cookies).value).None? ==> o == Respond(401, INVALID_COOKIE)
    ensures o.Respond? ==> (o.status == 403 <==> o.error == NOT_APPROVED)
    ensures o.Respond? ==> o.status == 401 || o.status == 403
  {
    match SessionCookie(cookies)
    case None => Respond(401, NO_COOKIE)
    case Some(cookie) =>
      match verify(cookie)
      case None => Respond(401, INVALID_COOKIE)
      case Some(decoded) =>
        if !Truthy(Claim(decoded, "approved")) then Respond(403, NOT_APPROVED)
        else Proceed(decoded)
  }

  /** A verified user whose `approved` claim is a non-boolean truthy value is let through. */
  lemma TruthyApprovalPasses(cookie: string, approved: JsValue)
    requires cookie != "" && Truthy(approved)
    ensures CheckApprovedMiddleware(Jar(map[SESSION_COOKIE := cookie]), c => Some(map["approved" := approved])).Proceed?
  {
  }

  /** A verified user without an `approved` claim is refused with 403, not 401. */
  lemma MissingApprovalForbidden(cookie: string, token: Token)
    requires cookie != "" && "approved" !in token
    ensures CheckApprovedMiddleware(Jar(map[SESSION_COOKIE := cookie]), c => Some(token)) == Respond(403, NOT_APPROVED)
  {
  }
}
