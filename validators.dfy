/**
 * The existence and ownership guards that run before a service: each is a
 * read-only lookup in the store followed by a test, returning the row it
 * found or the HTTP error FastAPI answers with.
 *
 * The guards take the tables as values, so a guard cannot change the store.
 */
module Validators {
  import opened Wrappers
  import opened Seqs
  import opened Text
  import opened Db

  const SocialNotFound := "Social not found"
  const SocialNotOwned := "Social doesn't belong to this card"
  const IconExists := "App icon already exists"
  const CodeNotFound := "Invalid code or code not found"

  /** The detail of a 404 for a missing card, `f"Card with id {card_id} not found"`. */
  function CardNotFound(cardId: int): string
  {
    "Card with id " + IntToString(cardId) + " not found"
  }

  /** Python truthiness of an optional id: `None` and `0` are false. */
  predicate Truthy(id: Option<int>)
  {
    id.Some? && id.value != 0
  }

  /** `require_card(card_id)`: the card with that id, or 404. */
  function RequireCard(cards: seq<Card>, socials: seq<Social>, cardId: int): (r: Result<LoadedCard>)
    requires Keyed(CardKey, cards)
    ensures r.Err? <==> cardId !in CardIds(cards)
    ensures r.Err? ==> r == Err(Http(404, CardNotFound(cardId)))
    ensures r.Ok? ==> r.value.card in cards && r.value.card.id == cardId
    ensures r.Ok? ==> r.value.socials == CardSocials(socials, cardId)
  {
    match GetCard(cards, socials, cardId)
    case None => Err(Http(404, CardNotFound(cardId)))
    case Some(c) => Ok(c)
  }

  /** The 404 detail names the requested id, so two ids never share a message. */
  lemma CardNotFoundNamesId(a: int, b: int)
    requires CardNotFound(a) == CardNotFound(b)
    ensures a == b
  {
    var p := "Card with id ";
    var sa := IntToString(a);
    var sb := IntToString(b);
    assert "Card with id " + sa + " not found" == CardNotFound(a);
    assert |sa| == |sb|;
    assert sa == CardNotFound(a)[|p|..|p| + |sa|];
    assert sb == CardNotFound(b)[|p|..|p| + |sb|];
    IntToStringInjective(a, b);
  }

  /**
   * `require_active_code(code_hash)`: the active code with that hash, 401
   * when there is none, and `MultipleResultsFound` when two active codes
   * share it.  No card id takes part in the lookup.
   */
  function RequireActiveCode(codes: seq<Code>, codeHash: string): (r: Result<Code>)
    ensures r == Err(Http(401, CodeNotFound)) <==> forall c :: c in codes ==> !(c.isActive && c.codeHash == codeHash)
    ensures r.Err? ==> r == Err(Http(401, CodeNotFound)) || r == Err(Raised(MultipleResultsFound))
    ensures r.Ok? ==> r.value in codes && r.value.isActive && r.value.codeHash == codeHash
    ensures r.Ok? ==> forall c :: c in codes && c.isActive && c.codeHash == codeHash ==> c == r.value
  {
    match GetActiveCode(codes, codeHash)
    case NoRow => Err(Http(401, CodeNotFound))
    case OneRow(c) => Ok(c)
    case ManyRows => Err(Raised(MultipleResultsFound))
  }

  /** Once a card's codes are deactivated, no code of that card passes the guard. */
  lemma RequireActiveCodeAfterDeactivate(codes: seq<Code>, cardId: int, codeHash: string)
    ensures RequireActiveCode(Deactivated(codes, cardId), codeHash).Ok? ==>
      RequireActiveCode(Deactivated(codes, cardId), codeHash).value.cardId != cardId
  {
    DeactivatedHidesCard(codes, cardId, codeHash);
  }

  /**
   * `require_social(card_id, social_id)`: the social, or 404.  The lookup
   * already filters by card, so the ownership branch never fires.
   */
  function RequireSocial(socials: seq<Social>, cardId: int, socialId: int): (r: Result<Social>)
    requires Keyed(SocialKey, socials)
    ensures r.Err? <==> !SocialExists(socials, cardId, socialId)
    ensures r.Err? ==> r == Err(Http(404, SocialNotFound))
    ensures r != Err(Http(404, SocialNotOwned))
    ensures r.Ok? ==> r.value in socials && r.value.cardId == cardId && r.value.id == socialId
  {
    match GetSocial(socials, cardId, socialId)
    case None => Err(Http(404, SocialNotFound))
    case Some(s) =>
      if s.cardId != cardId then Err(Http(404, SocialNotOwned))
      else Ok(s)
  }

  /** `require_no_icon(social)`: 400 when the social already links an icon. */
  function RequireNoIcon(social: Social): (r: Result<Unit>)
    ensures r.Err? <==> Truthy(social.iconAssetId)
    ensures r.Ok? <==> social.iconAssetId == None || social.iconAssetId == Some(0)
    ensures r.Err? ==> r == Err(Http(400, IconExists))
  {
    if Truthy(social.iconAssetId) then Err(Http(400, IconExists)) else Ok(Unit)
  }
}
