/**
 * `AuthMiddleware.verify`: reads the `token` cookie and hands it to the token
 * verifier. `JwtService.verifyToken` (signature and expiry checks) is opaque
 * and passed in as a partial function: `None` stands for every way it can
 * throw.
 */
module TokenGate {
  import opened Common

  const TokenCookie := "token"
  const TokenMissing := Thrown(None, "Token missing", None)
  const InvalidToken := Thrown(None, "Invalid token", None)

  /** The claims a verified token carries. */
  datatype Payload = Payload(id: string, email: string, role: string)

  /** `req.cookies.get('token')?.value` */
  function TokenOf<B>(req: Request<B>): Option<string> {
    if TokenCookie in req.cookies then Some(req.cookies[TokenCookie]) else None
  }

  function Verify<B>(req: Request<B>, verifyToken: string -> Option<Payload>): (r: Result<Payload>)
    ensures TokenOf(req).None? || TokenOf(req).value == "" ==> r == Err(TokenMissing)
    ensures TokenOf(req).Some? && TokenOf(req).value != "" ==>
              r == (if verifyToken(TokenOf(req).value).Some? then Ok(verifyToken(TokenOf(req).value).value)
                    else Err(InvalidToken))
    ensures r.Err? ==> r.error == TokenMissing || r.error == InvalidToken
  {
    var token := TokenOf(req);
    if token.None? || token.value == "" then Err(TokenMissing)
    else
      match verifyToken(token.value)
      case Some(payload) => Ok(payload)
      case None => Err(InvalidToken)
  }

  /**
   * Only the `token` cookie matters, and without it the verifier is never
   * consulted: two requests with the same `token` cookie get the same answer,
   * and without one any two verifiers give the same answer.
   */
  lemma VerifyReadsOnlyTokenCookie<B, C>(req: Request<B>, req': Request<C>,
                                         verifyToken: string -> Option<Payload>, verifyToken': string -> Option<Payload>)
    requires TokenOf(req) == TokenOf(req')
    ensures Verify(req, verifyToken) == Verify(req', verifyToken)
    ensures TokenOf(req).None? || TokenOf(req).value == "" ==> Verify(req, verifyToken) == Verify(req', verifyToken')
  {
  }
}
