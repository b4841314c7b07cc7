/**
 * Cards: assembling a card with its avatar, socials and icon links, and
 * creating a card together with its first activation code.
 */
module CardsService {
  import opened Wrappers
  import opened Seqs
  import opened CardSchema
  import opened Db
  import AvatarsService
  import LogosService

  /** `schemas.socials.Out`: a social with the URL of its icon. */
  datatype SocialOut = SocialOut(social: Social, appIconLink: Option<string>)

  /** `schemas.cards.Out`. */
  datatype CardOut = CardOut(card: Card, socials: seq<SocialOut>, avatarLink: Option<string>)

  /** `schemas.cards.OnCreate`: the new card and the plaintext of its code. */
  datatype OnCreate = OnCreate(card: Card, socials: seq<SocialOut>, avatarLink: Option<string>, code: string)

  /** Python's `d.get(k)`. */
  function MapGet(m: map<int, string>, k: int): (r: Option<string>)
    ensures r.Some? <==> k in m
    ensures r.Some? ==> r.value == m[k]
  {
    if k in m then Some(m[k]) else None
  }

  /**
   * The socials list as `get` writes it: each social looks up the icon map
   * under its own id, although the map is keyed by asset id.
   */
  function SocialsOutAsWritten(socials: seq<Social>, icons: map<int, string>): (r: seq<SocialOut>)
    ensures |r| == |socials|
    ensures forall i :: 0 <= i < |socials| ==> r[i].social == socials[i]
  {
    seq(|socials|, i requires 0 <= i < |socials| => SocialOut(socials[i], MapGet(icons, socials[i].id)))
  }

  /** The icon URL a social links, found under its `icon_asset_id`. */
  function IconLink(icons: map<int, string>, iconAssetId: Option<int>): (r: Option<string>)
    ensures r.Some? <==> iconAssetId.Some? && iconAssetId.value in icons
    ensures r.Some? ==> r.value == icons[iconAssetId.value]
  {
    match iconAssetId
    case None => None
    case Some(assetId) => MapGet(icons, assetId)
  }

  /** The socials list with each social's own icon: one entry per social, in order. */
  function SocialsOut(socials: seq<Social>, icons: map<int, string>): (r: seq<SocialOut>)
    ensures |r| == |socials|
    ensures forall i :: 0 <= i < |socials| ==> r[i] == SocialOut(socials[i], IconLink(icons, socials[i].iconAssetId))
  {
    seq(|socials|, i requires 0 <= i < |socials| => SocialOut(socials[i], IconLink(icons, socials[i].iconAssetId)))
  }

  /** `schemas.socials.Base` requires an `order_id`, so a social without one fails `socials.Out`. */
  predicate SocialSchemaAccepts(s: Social)
  {
    s.orderId.Some?
  }

  /** `schemas.cards.Base` requires a `website`, so a card without one fails `cards.Out` and `OnCreate`. */
  predicate CardSchemaAccepts(c: Card)
  {
    c.fields.website.Some?
  }

  /**
   * `cards.get(card)`: the card, one output social per entry of its
   * socials in the same order, each with the URL of the icon asset it
   * links, and the avatar service's result.  Two avatar rows make the
   * avatar query raise; otherwise building the response raises
   * `ValidationError` when a social has no order id or the card no website.
   */
  function Get(card: LoadedCard, assets: seq<Asset>, avatarKey: int -> string, url: string -> string): (r: Result<CardOut>)
    requires Keyed(AssetKey, assets)
    ensures r == Err(Raised(MultipleResultsFound)) <==> GetAvatar(assets, card.card.id).ManyRows?
    ensures r == Err(Raised(ValidationError)) <==>
      && !GetAvatar(assets, card.card.id).ManyRows?
      && (!CardSchemaAccepts(card.card) || exists i :: 0 <= i < |card.socials| && !SocialSchemaAccepts(card.socials[i]))
    ensures r.Err? ==> r == Err(Raised(MultipleResultsFound)) || r == Err(Raised(ValidationError))
    ensures r.Ok? ==> r.value.card == card.card
    ensures r.Ok? ==> r.value.avatarLink == AvatarsService.Get(assets, card.card.id, avatarKey, url).value
    ensures r.Ok? ==> |r.value.socials| == |card.socials|
    ensures r.Ok? ==> forall i :: 0 <= i < |card.socials| ==> r.value.socials[i].social == card.socials[i]
    ensures r.Ok? ==> forall i, a ::
      (0 <= i < |card.socials| && a in assets && LogosService.IsIconOf(a, card.card.id) && card.socials[i].iconAssetId == Some(a.id))
      ==> r.value.socials[i].appIconLink == Some(url(a.fileName))
    ensures r.Ok? ==> forall i :: 0 <= i < |card.socials| && r.value.socials[i].appIconLink.Some? ==>
                                  exists a :: a in assets && LogosService.IsIconOf(a, card.card.id)
                                    && card.socials[i].iconAssetId == Some(a.id)
                                    && r.value.socials[i].appIconLink == Some(url(a.fileName))
  {
    var avatar :- AvatarsService.Get(assets, card.card.id, avatarKey, url);
    var icons := LogosService.GetAll(assets, card.card.id, url);
    SocialsOutLinks(card.socials, assets, card.card.id, url);
    if exists i | 0 <= i < |card.socials| :: !SocialSchemaAccepts(card.socials[i]) then Err(Raised(ValidationError))
    else if !CardSchemaAccepts(card.card) then Err(Raised(ValidationError))
    else Ok(CardOut(card.card, SocialsOut(card.socials, icons), avatar))
  }

  /** A social's link is the URL of the card's icon asset it links, and only such a URL. */
  lemma SocialsOutLinks(socials: seq<Social>, assets: seq<Asset>, cardId: int, url: string -> string)
    requires Keyed(AssetKey, assets)
    ensures var out := SocialsOut(socials, LogosService.GetAll(assets, cardId, url));
      forall i, a ::
        (0 <= i < |socials| && a in assets && LogosService.IsIconOf(a, cardId) && socials[i].iconAssetId == Some(a.id))
        ==> out[i].appIconLink == Some(url(a.fileName))
    ensures var out := SocialsOut(socials, LogosService.GetAll(assets, cardId, url));
      forall i :: 0 <= i < |socials| && out[i].appIconLink.Some? ==>
        exists a :: a in assets && LogosService.IsIconOf(a, cardId)
          && socials[i].iconAssetId == Some(a.id)
          && out[i].appIconLink == Some(url(a.fileName))
  {
    var icons := LogosService.GetAll(assets, cardId, url);
    var out := SocialsOut(socials, icons);
    forall i | 0 <= i < |socials| && out[i].appIconLink.Some?
      ensures exists a :: (a in assets && LogosService.IsIconOf(a, cardId)
                           && socials[i].iconAssetId == Some(a.id) && out[i].appIconLink == Some(url(a.fileName)))
    {
      var a :| a in assets && LogosService.IsIconOf(a, cardId) && a.id == socials[i].iconAssetId.value;
    }
  }

  /** Every social of the card with that id links the asset after `UPDATE … SET icon_asset_id`. */
  lemma {:induction false} LinkedSocialsCarryIcon(socials: seq<Social>, cardId: int, socialId: int, assetId: int)
    ensures forall x :: x in CardSocials(UpdateWhere(SocialAt(cardId, socialId), WithIcon(assetId), socials), cardId) && x.id == socialId ==>
      x.iconAssetId == Some(assetId)
  {
    var updated := UpdateWhere(SocialAt(cardId, socialId), WithIcon(assetId), socials);
    forall x | x in CardSocials(updated, cardId) && x.id == socialId ensures x.iconAssetId == Some(assetId) {
      var j :| 0 <= j < |updated| && updated[j] == x;
    }
  }

  /**
   * After an icon is inserted and linked from a social, reading the card
   * shows that icon's URL on the social.
   */
  lemma IconShownAfterLink(card: Card, socials: seq<Social>, assets: seq<Asset>, socialId: int, a: Asset,
                           avatarKey: int -> string, url: string -> string)
    requires Keyed(AssetKey, assets + [a]) && a.cardId == card.id && a.kind == AppIcon
    requires !GetAvatar(assets + [a], card.id).ManyRows?
    requires CardSchemaAccepts(card) && forall s :: s in socials ==> SocialSchemaAccepts(s)
    ensures var loaded := LoadedCard(card, CardSocials(UpdateWhere(SocialAt(card.id, socialId), WithIcon(a.id), socials), card.id));
      var r := Get(loaded, assets + [a], avatarKey, url);
      && r.Ok?
      && forall i :: 0 <= i < |loaded.socials| && loaded.socials[i].id == socialId ==>
           r.value.socials[i].appIconLink == Some(url(a.fileName))
  {
    var loaded := LoadedCard(card, CardSocials(UpdateWhere(SocialAt(card.id, socialId), WithIcon(a.id), socials), card.id));
    var updated := UpdateWhere(SocialAt(card.id, socialId), WithIcon(a.id), socials);
    LinkedSocialsCarryIcon(socials, card.id, socialId, a.id);
    forall x | x in loaded.socials ensures SocialSchemaAccepts(x) {
      var j :| 0 <= j < |updated| && updated[j] == x;
      assert socials[j] in socials;
    }
    assert a in assets + [a];
    assert forall i :: 0 <= i < |loaded.socials| ==> loaded.socials[i] in loaded.socials;
  }

  /**
   * What `get` as written shows: a social linking asset 2 gets no URL, and
   * social 2, which links nothing, gets the other social's icon.
   */
  lemma AsWrittenShowsWrongIcons()
    ensures var icons := map[2 := "u"];
      var socials := [Social(1, 1, Custom, "x", "y", Some(0), Some(2), true),
                      Social(2, 1, Custom, "z", "w", Some(1), None, true)];
      && SocialsOutAsWritten(socials, icons)[0].appIconLink == None
      && SocialsOutAsWritten(socials, icons)[1].appIconLink == Some("u")
      && SocialsOut(socials, icons)[0].appIconLink == Some("u")
      && SocialsOut(socials, icons)[1].appIconLink == None
  {
  }

  /** The card columns of a validated `In` body. */
  function FieldsOf(x: CardInput): CardFields
    requires ValidateIn(x) == []
  {
    CardFields(x.name.value, x.title.value, x.description.value, x.phone.value, x.email.value, x.website, x.city.value)
  }

  /** A card id that no code refers to has no codes. */
  lemma FreshCardHasNoCodes(codes: seq<Code>, cardIds: set<int>, cardId: int)
    requires forall i :: 0 <= i < |codes| ==> codes[i].cardId in cardIds
    requires cardId !in cardIds
    ensures Filter(CodeOfCard(cardId), codes) == []
  {
    FilterNone(CodeOfCard(cardId), codes);
  }

  /**
   * `cards.create(card)`: inserts the card, then one active code holding
   * the hash of the plaintext it returns, with no socials and no avatar.
   * Both rows are committed before the response is built, so a card
   * without a website is stored with its code while the response fails
   * validation and the plaintext code is never returned.
   */
  method Create(store: Store, x: CardInput, plaintext: string, encode: string -> string) returns (r: Result<OnCreate>)
    requires store.Valid() && ValidateIn(x) == []
    modifies store
    ensures store.Valid()
    ensures store.cards == old(store.cards) + [Card(old(store.nextCardId), FieldsOf(x), true)]
    ensures GetCard(store.cards, store.socials, old(store.nextCardId)) == Some(LoadedCard(Card(old(store.nextCardId), FieldsOf(x), true), []))
    ensures store.codes == old(store.codes) + [Code(old(store.nextCodeId), old(store.nextCardId), encode(plaintext), true)]
    ensures Filter(CodeOfCard(old(store.nextCardId)), store.codes) == [Code(old(store.nextCodeId), old(store.nextCardId), encode(plaintext), true)]
    ensures store.socials == old(store.socials) && store.assets == old(store.assets) && store.bucket == old(store.bucket)
    ensures store.log == old(store.log) + [CardInserted(Card(old(store.nextCardId), FieldsOf(x), true)),
                                           CodeInserted(Code(old(store.nextCodeId), old(store.nextCardId), encode(plaintext), true))]
    ensures x.website.None? ==> r == Err(Raised(ValidationError))
    ensures x.website.Some? ==> r == Ok(OnCreate(Card(old(store.nextCardId), FieldsOf(x), true), [], None, plaintext))
  {
    var hashed := encode(plaintext);
    ghost var codes0 := store.codes;
    ghost var ids0 := CardIds(store.cards);
    ghost var log0 := store.log;
    var card := store.AddCard(FieldsOf(x));
    var added := store.AddCode(card.id, hashed, true);
    AppendPair(log0, CardInserted(card), CodeInserted(added.value));
    FreshCardHasNoCodes(codes0, ids0, card.id);
    FilterAppend(CodeOfCard(card.id), codes0, added.value);
    if !CardSchemaAccepts(card) {
      return Err(Raised(ValidationError));
    }
    r := Ok(OnCreate(card, [], None, plaintext));
  }
}
