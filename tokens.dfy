/**
 * The edit-access token: its payload, and verification that maps every
 * decoding error to `None`.
 *
 * Signing and decoding belong to python-jose and are parameters here.  Time
 * is an integer count of seconds; `decode(token, now)` is jose's decode at
 * the instant `now`.
 */
module Tokens {
  import opened Wrappers

  const EditAccess := "edit_access"

  /** The payload dictionary: `card_id`, `exp` and `type`. */
  datatype Claims = Claims(cardId: int, exp: int, kind: string)

  /** What jose's decode does: return the payload or raise `JWTError`. */
  datatype Decoded = Decoded(claims: Claims) | JwtError

  /**
   * What the rest of the model assumes of jose: decoding a token it signed
   * gives the payload back until `exp` has passed and raises `JWTError`
   * afterwards, and a signed token never contains a space.
   */
  ghost predicate JoseSound(sign: Claims -> string, decode: (string, int) -> Decoded)
  {
    && (forall c: Claims, t: int :: decode(sign(c), t) == if t <= c.exp then Decoded(c) else JwtError)
    && (forall c: Claims :: ' ' !in sign(c))
  }

  /** The payload `create` signs: the card, an expiry `expireMinutes` from `now`, the edit-access type. */
  function Payload(cardId: int, now: int, expireMinutes: int): (c: Claims)
    ensures c.cardId == cardId && c.kind == EditAccess
    ensures c.exp - now == 60 * expireMinutes
  {
    Claims(cardId, now + 60 * expireMinutes, EditAccess)
  }

  /** `create(card_id)`. */
  function Create(cardId: int, now: int, expireMinutes: int, sign: Claims -> string): string
  {
    sign(Payload(cardId, now, expireMinutes))
  }

  /** `verify(token)`: the decoded payload, or `None` where jose raises. */
  function Verify(token: string, now: int, decode: (string, int) -> Decoded): (r: Option<Claims>)
    ensures r.None? <==> decode(token, now).JwtError?
    ensures r.Some? ==> decode(token, now) == Decoded(r.value)
  {
    match decode(token, now)
    case Decoded(c) => Some(c)
    case JwtError => None
  }

  /** A freshly created token verifies to its own payload until it expires. */
  lemma VerifyCreated(cardId: int, now: int, expireMinutes: int, t: int,
                      sign: Claims -> string, decode: (string, int) -> Decoded)
    requires JoseSound(sign, decode)
    requires t <= now + 60 * expireMinutes
    ensures Verify(Create(cardId, now, expireMinutes, sign), t, decode)
         == Some(Claims(cardId, now + 60 * expireMinutes, EditAccess))
  {
    var c := Payload(cardId, now, expireMinutes);
    assert decode(sign(c), t) == Decoded(c);
  }

  /** After its expiry the same token verifies to `None`; verification still does not raise. */
  lemma VerifyExpired(cardId: int, now: int, expireMinutes: int, t: int,
                      sign: Claims -> string, decode: (string, int) -> Decoded)
    requires JoseSound(sign, decode)
    requires t > now + 60 * expireMinutes
    ensures Verify(Create(cardId, now, expireMinutes, sign), t, decode) == None
  {
    var c := Payload(cardId, now, expireMinutes);
    assert decode(sign(c), t) == JwtError;
  }
}
