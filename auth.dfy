/**
 * The authorization gates: the `Authorization` cookie of the user routes,
 * the same cookie on the admin routes, and the `X-Admin-Key` header.
 *
 * A cookie or header that is absent is `None`; Python treats the empty
 * string as absent too.
 */
module Auth {
  import opened Wrappers
  import opened Text
  import opened Tokens

  const NotAuthenticated := "Not authenticated"
  const InvalidToken := "Invalid token"
  const AdminKeyRequired := "Admin key required. Use X-Admin-Key header."
  const InvalidAdminKey := "Invalid admin key"

  /** Python's truthiness of an optional string. */
  predicate Present(s: Option<string>)
  {
    s.Some? && s.value != ""
  }

  /**
   * `verify_access_token` (and its copy `require_access_token`): 401 without
   * a cookie, `IndexError` when the cookie has no second space-separated
   * field, and otherwise whatever `verify` returns.  `verify` catches
   * `JWTError` itself, so the 403 branch can never be taken and a bad token
   * yields `Ok(None)`.
   */
  function AccessTokenGate(cookie: Option<string>, now: int, decode: (string, int) -> Decoded): (r: Result<Option<Claims>>)
    ensures !Present(cookie) ==> r == Err(Http(401, NotAuthenticated))
    ensures Present(cookie) && ' ' !in cookie.value ==> r == Err(Raised(IndexError))
    ensures Present(cookie) && ' ' in cookie.value ==>
      r == Ok(Verify(SecondField(cookie.value).value, now, decode))
    ensures Present(cookie) && ' ' in cookie.value ==>
      r.Ok? && (r.value.None? <==> decode(SecondField(cookie.value).value, now).JwtError?)
    ensures r != Err(Http(403, InvalidToken))
  {
    if !Present(cookie) then Err(Http(401, NotAuthenticated))
    else match SecondField(cookie.value)
      case None => Err(Raised(IndexError))
      case Some(token) => Ok(Verify(token, now, decode))
  }

  /**
   * `require_admin_token`: like the user gate but decoding directly, so a
   * decoding error becomes 403; the payload's `type` is not looked at.
   */
  function AdminTokenGate(cookie: Option<string>, now: int, decode: (string, int) -> Decoded): (r: Result<Claims>)
    ensures !Present(cookie) ==> r == Err(Http(401, NotAuthenticated))
    ensures Present(cookie) && ' ' !in cookie.value ==> r == Err(Raised(IndexError))
    ensures Present(cookie) && ' ' in cookie.value ==>
      var d := decode(SecondField(cookie.value).value, now);
      (d.JwtError? ==> r == Err(Http(403, InvalidToken))) && (d.Decoded? ==> r == Ok(d.claims))
  {
    if !Present(cookie) then Err(Http(401, NotAuthenticated))
    else match SecondField(cookie.value)
      case None => Err(Raised(IndexError))
      case Some(token) =>
        match decode(token, now)
        case Decoded(c) => Ok(c)
        case JwtError => Err(Http(403, InvalidToken))
  }

  /** The cookie value that redeeming a code sets. */
  function BearerCookie(token: string): string
  {
    "Bearer " + token
  }

  /** A cookie set by redeeming a code passes the user gate with that token's payload. */
  lemma AccessGateAcceptsRedeemedCookie(cardId: int, now: int, expireMinutes: int, t: int,
                                        sign: Claims -> string, decode: (string, int) -> Decoded)
    requires JoseSound(sign, decode)
    requires t <= now + 60 * expireMinutes
    ensures AccessTokenGate(Some(BearerCookie(Create(cardId, now, expireMinutes, sign))), t, decode)
         == Ok(Some(Claims(cardId, now + 60 * expireMinutes, EditAccess)))
  {
    var token := Create(cardId, now, expireMinutes, sign);
    BearerSecondField(token);
    VerifyCreated(cardId, now, expireMinutes, t, sign, decode);
  }

  /** Once that token has expired the user gate still lets the request through, with no payload. */
  lemma AccessGatePassesExpiredCookie(cardId: int, now: int, expireMinutes: int, t: int,
                                      sign: Claims -> string, decode: (string, int) -> Decoded)
    requires JoseSound(sign, decode)
    requires t > now + 60 * expireMinutes
    ensures AccessTokenGate(Some(BearerCookie(Create(cardId, now, expireMinutes, sign))), t, decode) == Ok(None)
  {
    var token := Create(cardId, now, expireMinutes, sign);
    BearerSecondField(token);
    VerifyExpired(cardId, now, expireMinutes, t, sign, decode);
  }

  /** Any unexpired edit-access cookie of any card also passes the admin gate. */
  lemma AdminGateAcceptsEditToken(cardId: int, now: int, expireMinutes: int, t: int,
                                  sign: Claims -> string, decode: (string, int) -> Decoded)
    requires JoseSound(sign, decode)
    requires t <= now + 60 * expireMinutes
    ensures AdminTokenGate(Some(BearerCookie(Create(cardId, now, expireMinutes, sign))), t, decode)
         == Ok(Claims(cardId, now + 60 * expireMinutes, EditAccess))
  {
    var token := Create(cardId, now, expireMinutes, sign);
    BearerSecondField(token);
    assert decode(token, t) == Decoded(Payload(cardId, now, expireMinutes));
  }

  /** `verify_admin`: 401 without a key, 403 for a wrong one. */
  function VerifyAdmin(apiKey: Option<string>, secret: string): (r: Result<Unit>)
    ensures !Present(apiKey) ==> r == Err(Http(401, AdminKeyRequired))
    ensures Present(apiKey) && apiKey.value != secret ==> r == Err(Http(403, InvalidAdminKey))
    ensures r.Ok? <==> apiKey == Some(secret) && secret != ""
  {
    if !Present(apiKey) then Err(Http(401, AdminKeyRequired))
    else if apiKey.value != secret then Err(Http(403, InvalidAdminKey))
    else Ok(Unit)
  }
}
