/** The token gate in front of every private route. Signature and expiry
    checking happen inside the token library; `verify` stands for it with the
    configured secret: the user id the token's payload carries, or `None`
    when the token does not verify. */
module Auth {
  import opened Base

  /** The principal of a request, from its `x-auth-token` header. */
  function Authenticate(token: Option<string>, verify: string -> Option<UserId>): (r: Result<UserId>)
    ensures r.Ok? <==> Truthy(token) && verify(token.value).Some?
    ensures r.Ok? ==> r.value == verify(token.value).value
    ensures r == Err(NoToken) <==> !Truthy(token)
    ensures r == Err(InvalidToken) <==> Truthy(token) && verify(token.value).None?
  {
    if !Truthy(token) then Err(NoToken)
    else
      match verify(token.value)
      case None => Err(InvalidToken)
      case Some(u) => Ok(u)
  }
}
