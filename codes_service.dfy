/**
 * Activation codes: redeeming one for an edit-access cookie, and replacing
 * a card's codes with a fresh one.
 *
 * The plaintext code (`secrets.token_urlsafe`) is an input and its hash
 * (`hashlib.sha256`) is a parameter `encode`; nothing is assumed of either.
 */
module CodesService {
  import opened Wrappers
  import opened Seqs
  import opened Tokens
  import opened Auth
  import opened Db

  /** One `Set-Cookie` the response carries. */
  datatype Cookie = Cookie(key: string, value: string, expires: int, httpOnly: bool, sameSite: string)

  /** `schemas.codes.Out`. */
  datatype TokenOut = TokenOut(accessToken: string, tokenType: string, cardId: int)

  /** `schemas.codes.RegenerateOut`. */
  datatype RegenerateOut = RegenerateOut(cardId: int, code: string)

  /** The FastAPI response object, as far as `set_cookie` changes it. */
  class Response {
    var cookies: seq<Cookie>

    constructor ()
      ensures cookies == []
    {
      cookies := [];
    }

    method SetCookie(c: Cookie)
      modifies this
      ensures cookies == old(cookies) + [c]
    {
      cookies := cookies + [c];
    }
  }

  /** The session cookie `redeem` sets: the bearer value, living as long as the token. */
  function SessionCookie(token: string, expireMinutes: int): (c: Cookie)
    ensures c.key == "Authorization" && c.httpOnly && c.sameSite == "lax"
  {
    Cookie("Authorization", BearerCookie(token), expireMinutes * 60, true, "lax")
  }

  /**
   * `redeem(code_record)`: sets the session cookie and returns the token.
   * The token comes from `utils.token.get_or_create`, which is not part
   * of this model, so it is an input.  The code record is not touched,
   * so the code stays redeemable.
   */
  method Redeem(code: Code, token: string, expireMinutes: int, response: Response) returns (out: TokenOut)
    modifies response
    ensures response.cookies == old(response.cookies) + [SessionCookie(token, expireMinutes)]
    ensures out == TokenOut(token, "bearer", code.cardId)
  {
    response.SetCookie(SessionCookie(token, expireMinutes));
    out := TokenOut(token, "bearer", code.cardId);
  }

  /**
   * When the token is a fresh one for the code's card, the cookie set by
   * redeeming passes the user gate with that card's payload until the
   * token expires, and the cookie's lifetime is the token's.
   */
  lemma SessionCookieAuthenticates(code: Code, now: int, expireMinutes: int, t: int,
                                   sign: Claims -> string, decode: (string, int) -> Decoded)
    requires JoseSound(sign, decode)
    requires t <= now + 60 * expireMinutes
    ensures var c := SessionCookie(Create(code.cardId, now, expireMinutes, sign), expireMinutes);
      && AccessTokenGate(Some(c.value), t, decode) == Ok(Some(Claims(code.cardId, now + 60 * expireMinutes, EditAccess)))
      && now + c.expires == Payload(code.cardId, now, expireMinutes).exp
  {
    AccessGateAcceptsRedeemedCookie(code.cardId, now, expireMinutes, t, sign, decode);
  }

  /** Deactivating a card's codes and appending an active one leaves that one as its only active code. */
  lemma {:induction false} RegenerateLeavesOneActive(codes: seq<Code>, cardId: int, c: Code)
    requires c.cardId == cardId && c.isActive
    ensures Filter(ActiveCodeOfCard(cardId), Deactivated(codes, cardId) + [c]) == [c]
  {
    FilterAppend(ActiveCodeOfCard(cardId), Deactivated(codes, cardId), c);
    DeactivatedClearsCard(codes, cardId);
  }

  /** ... and leaves every other card's codes as they were. */
  lemma {:induction false} RegenerateKeepsOthers(codes: seq<Code>, cardId: int, c: Code, other: int)
    requires c.cardId == cardId && other != cardId
    ensures Filter(CodeOfCard(other), Deactivated(codes, cardId) + [c]) == Filter(CodeOfCard(other), codes)
  {
    FilterAppend(CodeOfCard(other), Deactivated(codes, cardId), c);
    DeactivatedKeepsOtherCards(codes, cardId, other);
  }

  /**
   * `regenerate(card)`: deactivates every code of the card, then stores the
   * hash of `generated` as its new active code and returns the plaintext.
   */
  method Regenerate(store: Store, card: Card, generated: string, encode: string -> string) returns (out: RegenerateOut)
    requires store.Valid() && card.id in CardIds(store.cards)
    modifies store
    ensures store.Valid()
    ensures out == RegenerateOut(card.id, generated)
    ensures store.codes == Deactivated(old(store.codes), card.id) + [Code(old(store.nextCodeId), card.id, encode(generated), true)]
    ensures Filter(ActiveCodeOfCard(card.id), store.codes) == [Code(old(store.nextCodeId), card.id, encode(out.code), true)]
    ensures forall other :: other != card.id ==> Filter(CodeOfCard(other), store.codes) == Filter(CodeOfCard(other), old(store.codes))
    ensures store.cards == old(store.cards) && store.socials == old(store.socials)
    ensures store.assets == old(store.assets) && store.bucket == old(store.bucket)
    ensures store.log == old(store.log) + [CodesDeactivated(card.id), CodeInserted(Code(old(store.nextCodeId), card.id, encode(generated), true))]
  {
    var hashed := encode(generated);
    ghost var before := store.codes;
    store.DeactivateCodes(card.id);
    var added := store.AddCode(card.id, hashed, true);
    var c := added.value;
    RegenerateLeavesOneActive(before, card.id, c);
    forall other | other != card.id
      ensures Filter(CodeOfCard(other), store.codes) == Filter(CodeOfCard(other), before)
    {
      RegenerateKeepsOthers(before, card.id, c, other);
    }
    out := RegenerateOut(card.id, generated);
  }
}
