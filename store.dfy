/**
 * The relational store behind the service: the `cards`, `codes`,
 * `card_socials` and `card_assets` tables, the S3 bucket as a set of object
 * keys, and an ordered log of every write either of them received.
 *
 * Each repository function becomes a member of `Store`: reads are functions
 * and writes are methods.  A card's `socials` collection is the selection of
 * the `card_socials` rows carrying its id, in insertion order.  Ids come
 * from counters, as the tables' serial primary keys do, and a statement
 * that breaks a foreign key or the unique `file_name` column raises
 * `IntegrityError` and changes nothing.
 */
module Db {
  import opened Wrappers
  import opened Seqs

  datatype AssetType = Avatar | AppIcon

  datatype SocialType = Instagram | Telegram | Tiktok | Youtube | Custom

  /** The columns a new card is built from, as the `In` schema delivers them. */
  datatype CardFields = CardFields(
    name: string, title: string, description: string, phone: string,
    email: string, website: Option<string>, city: string)

  datatype Card = Card(id: int, fields: CardFields, isActive: bool)

  datatype Code = Code(id: int, cardId: int, codeHash: string, isActive: bool)

  /** The body of a new social link; `caption` is the `label` column. */
  datatype SocialIn = SocialIn(kind: SocialType, url: string, caption: string)

  datatype Social = Social(
    id: int, cardId: int, kind: SocialType, url: string, caption: string,
    orderId: Option<int>, iconAssetId: Option<int>, isVisible: bool)

  datatype Asset = Asset(id: int, cardId: int, kind: AssetType, fileName: string)

  /** A card row together with its `socials` collection, as `selectinload` delivers it. */
  datatype LoadedCard = LoadedCard(card: Card, socials: seq<Social>)

  /** One committed write to the database or one call to the object store. */
  datatype Effect =
    | CardInserted(card: Card)
    | CodeInserted(code: Code)
    | CodesDeactivated(cardId: int)
    | SocialAppended(social: Social)
    | SocialRemoved(cardId: int, socialId: int)
    | AvatarsDeleted(cardId: int)
    | AssetInserted(asset: Asset)
    | IconLinked(cardId: int, socialId: int, assetId: int)
    | ObjectUploaded(key: string)
    | ObjectDeleted(key: string)

  // Key columns.
  function CardKey(c: Card): int { c.id }
  function CodeKey(c: Code): int { c.id }
  function SocialKey(s: Social): int { s.id }
  function AssetKey(a: Asset): int { a.id }
  function FileNameOf(a: Asset): string { a.fileName }

  // The WHERE clauses of the queries.
  function CardWithId(id: int): Card -> bool { (c: Card) => c.id == id }
  function CodeOfCard(cardId: int): Code -> bool { (c: Code) => c.cardId == cardId }
  function ActiveCodeOfCard(cardId: int): Code -> bool { (c: Code) => c.cardId == cardId && c.isActive }
  function ActiveWithHash(hash: string): Code -> bool { (c: Code) => c.isActive && c.codeHash == hash }
  function SocialOfCard(cardId: int): Social -> bool { (s: Social) => s.cardId == cardId }
  function SocialAt(cardId: int, socialId: int): Social -> bool { (s: Social) => s.cardId == cardId && s.id == socialId }
  function AvatarOf(cardId: int): Asset -> bool { (a: Asset) => a.cardId == cardId && a.kind == Avatar }
  function NotAvatarOf(cardId: int): Asset -> bool { (a: Asset) => !(a.cardId == cardId && a.kind == Avatar) }
  function IconOf(cardId: int): Asset -> bool { (a: Asset) => a.cardId == cardId && a.kind == AppIcon }

  // The SET clauses of the updates.
  function Inactive(c: Code): Code { c.(isActive := false) }
  function WithIcon(assetId: int): Social -> Social { (s: Social) => s.(iconAssetId := Some(assetId)) }

  /** `UPDATE codes SET is_active = false WHERE card_id = cardId`. */
  function Deactivated(codes: seq<Code>, cardId: int): (r: seq<Code>)
    ensures |r| == |codes|
    ensures forall i :: 0 <= i < |codes| ==>
      && r[i].id == codes[i].id && r[i].cardId == codes[i].cardId && r[i].codeHash == codes[i].codeHash
      && r[i].isActive == (codes[i].isActive && codes[i].cardId != cardId)
  {
    UpdateWhere(CodeOfCard(cardId), Inactive, codes)
  }

  /** Deactivating the same card twice gives the table deactivating it once gives. */
  lemma DeactivatedIdempotent(codes: seq<Code>, cardId: int)
    ensures Deactivated(Deactivated(codes, cardId), cardId) == Deactivated(codes, cardId)
  {
    UpdateWhereIdempotent(CodeOfCard(cardId), Inactive, codes);
  }

  /** Deactivation leaves every code of every other card as it was, in order. */
  lemma DeactivatedKeepsOtherCards(codes: seq<Code>, cardId: int, other: int)
    requires other != cardId
    ensures Filter(CodeOfCard(other), Deactivated(codes, cardId)) == Filter(CodeOfCard(other), codes)
  {
    FilterUpdateWhereDisjoint(CodeOfCard(cardId), CodeOfCard(other), Inactive, codes);
  }

  /** After deactivation the card has no active code, however many it had before. */
  lemma DeactivatedClearsCard(codes: seq<Code>, cardId: int)
    ensures Filter(ActiveCodeOfCard(cardId), Deactivated(codes, cardId)) == []
  {
    FilterUpdateWhereCleared(CodeOfCard(cardId), ActiveCodeOfCard(cardId), Inactive, codes);
  }

  /** After deactivation no active code belongs to the card, whatever hash is looked up. */
  lemma DeactivatedHidesCard(codes: seq<Code>, cardId: int, hash: string)
    ensures GetActiveCode(Deactivated(codes, cardId), hash).OneRow? ==>
      GetActiveCode(Deactivated(codes, cardId), hash).row.cardId != cardId
  {
    var r := Deactivated(codes, cardId);
    var l := GetActiveCode(r, hash);
    if l.OneRow? {
      var i :| 0 <= i < |r| && r[i] == l.row;
    }
  }

  /** The `order_id` after the largest one among `socials`, or 0 when none has one. */
  function NextOrderId(socials: seq<Social>): (n: int)
    ensures n >= 0
  {
    if socials == [] then 0
    else
      var rest := NextOrderId(socials[1..]);
      match socials[0].orderId
      case None => rest
      case Some(k) => if k + 1 > rest then k + 1 else rest
  }

  /** The next order id exceeds the order id of every listed social. */
  lemma {:induction false} NextOrderIdAboveAll(socials: seq<Social>)
    ensures forall t :: t in socials && t.orderId.Some? ==> t.orderId.value < NextOrderId(socials)
  {
    if socials != [] {
      NextOrderIdAboveAll(socials[1..]);
      assert forall t :: t in socials ==> t == socials[0] || t in socials[1..];
    }
  }

  /** Appending a social grows its own card's list by it and leaves every other card's alone. */
  lemma CardSocialsAfterAppend(socials: seq<Social>, s: Social)
    ensures CardSocials(socials + [s], s.cardId) == CardSocials(socials, s.cardId) + [s]
    ensures forall c :: c != s.cardId ==> CardSocials(socials + [s], c) == CardSocials(socials, c)
  {
    FilterAppend(SocialOfCard(s.cardId), socials, s);
    forall c | c != s.cardId ensures CardSocials(socials + [s], c) == CardSocials(socials, c) {
      FilterAppend(SocialOfCard(c), socials, s);
    }
  }

  /** The row `CardSocial(**social.model_dump())` builds: `order_id` is left unset. */
  function NewSocialAsWritten(id: int, cardId: int, social: SocialIn): Social
  {
    Social(id, cardId, social.kind, social.url, social.caption, None, None, true)
  }

  /** `card_socials.order_id` is declared `Mapped[int]`, which makes it NOT NULL. */
  predicate NotNullColumnsSet(s: Social)
  {
    s.orderId.Some?
  }

  /** The row built as written breaks the NOT NULL constraint, so its commit raises `IntegrityError`. */
  lemma NewSocialAsWrittenRejected(id: int, cardId: int, social: SocialIn)
    ensures !NotNullColumnsSet(NewSocialAsWritten(id, cardId, social))
  {
  }

  /** `{asset.id: asset.file_name for asset in assets}`: on a repeated id the later row wins. */
  function NamesById(assets: seq<Asset>): (m: map<int, string>)
    ensures m.Keys == set a | a in assets :: a.id
  {
    if assets == [] then map[]
    else
      var last := assets[|assets| - 1];
      var init := assets[..|assets| - 1];
      assert assets == init + [last];
      NamesById(init)[last.id := last.fileName]
  }

  /** With ids unique, the dictionary maps each id to its own row's file name. */
  lemma {:induction false} NamesByIdExact(assets: seq<Asset>)
    requires Keyed(AssetKey, assets)
    ensures forall i :: 0 <= i < |assets| ==> NamesById(assets)[assets[i].id] == assets[i].fileName
  {
    if assets != [] {
      var n := |assets| - 1;
      var init := assets[..n];
      var last := assets[n];
      KeyedPrefix(AssetKey, assets, n);
      NamesByIdExact(init);
      var m := NamesById(init);
      assert NamesById(assets) == m[last.id := last.fileName];
      forall i | 0 <= i < n ensures m[last.id := last.fileName][assets[i].id] == assets[i].fileName {
        assert assets[i] == init[i];
        assert AssetKey(assets[i]) != AssetKey(last);
      }
    }
  }

  // ---------------------------------------------------------------------
  // The read queries of the repositories, over the tables' contents

  function CardIds(cards: seq<Card>): set<int>
  {
    set c | c in cards :: c.id
  }

  /** The file names of a set of asset rows. */
  function FileNamesOf(assets: seq<Asset>): set<string>
  {
    set a | a in assets :: a.fileName
  }

  /** A card's `socials` collection: its rows of `card_socials`, in insertion order. */
  function CardSocials(socials: seq<Social>, cardId: int): seq<Social>
  {
    Filter(SocialOfCard(cardId), socials)
  }

  /** `cards.get(card_id)`: the card with its socials, or `None`. */
  function GetCard(cards: seq<Card>, socials: seq<Social>, cardId: int): (r: Option<LoadedCard>)
    requires Keyed(CardKey, cards)
    ensures r.None? <==> cardId !in CardIds(cards)
    ensures r.Some? ==> r.value.card in cards && r.value.card.id == cardId
    ensures r.Some? ==> Filter(CardWithId(cardId), cards) == [r.value.card]
    ensures r.Some? ==> r.value.socials == CardSocials(socials, cardId)
  {
    var rows := Filter(CardWithId(cardId), cards);
    KeyedSelectAtMostOne(CardKey, CardWithId(cardId), cardId, cards);
    if |rows| == 0 then
      assert forall c :: c in cards ==> c.id != cardId;
      None
    else
      assert rows[0] in rows;
      Some(LoadedCard(rows[0], CardSocials(socials, cardId)))
  }

  /** `codes.get_active(code)`: the active code with that hash; two of them make the query raise. */
  function GetActiveCode(codes: seq<Code>, hash: string): (r: Lookup<Code>)
    ensures r.NoRow? <==> forall c :: c in codes ==> !(c.isActive && c.codeHash == hash)
    ensures r.OneRow? ==> r.row in codes && r.row.isActive && r.row.codeHash == hash
    ensures r.OneRow? ==> forall c :: c in codes && c.isActive && c.codeHash == hash ==> c == r.row
  {
    var rows := Filter(ActiveWithHash(hash), codes);
    assert |rows| > 0 ==> rows[0] in rows;
    ScalarOneOrNone(rows)
  }

  /** `socials.get(card_id, social_id)`: the social with that id on that card, or `None`. */
  function GetSocial(socials: seq<Social>, cardId: int, socialId: int): (r: Option<Social>)
    requires Keyed(SocialKey, socials)
    ensures r.None? <==> forall i :: 0 <= i < |socials| ==> !(socials[i].cardId == cardId && socials[i].id == socialId)
    ensures r.Some? ==> r.value in socials && r.value.cardId == cardId && r.value.id == socialId
  {
    var rows := Filter(SocialAt(cardId, socialId), socials);
    KeyedSelectAtMostOne(SocialKey, SocialAt(cardId, socialId), socialId, socials);
    assert forall i :: 0 <= i < |socials| && SocialAt(cardId, socialId)(socials[i]) ==> socials[i] in rows;
    if |rows| == 0 then None
    else
      assert rows[0] in rows;
      Some(rows[0])
  }

  /** `socials.is_exist(card_id, social_id)`. */
  function SocialExists(socials: seq<Social>, cardId: int, socialId: int): (b: bool)
    requires Keyed(SocialKey, socials)
    ensures b <==> exists i :: 0 <= i < |socials| && socials[i].cardId == cardId && socials[i].id == socialId
  {
    GetSocial(socials, cardId, socialId).Some?
  }

  /** `avatars.get(card_id)`: the card's avatar row; two of them make the query raise. */
  function GetAvatar(assets: seq<Asset>, cardId: int): (r: Lookup<Asset>)
    ensures r.NoRow? <==> forall a :: a in assets ==> !(a.cardId == cardId && a.kind == Avatar)
    ensures r.OneRow? ==> Filter(AvatarOf(cardId), assets) == [r.row]
    ensures r.OneRow? ==> r.row in assets && r.row.cardId == cardId && r.row.kind == Avatar
  {
    var rows := Filter(AvatarOf(cardId), assets);
    assert |rows| > 0 ==> rows[0] in rows;
    ScalarOneOrNone(rows)
  }

  /** `logos.get_all(card_id)`: asset id to file name for the card's icon assets. */
  function GetIcons(assets: seq<Asset>, cardId: int): (m: map<int, string>)
    requires Keyed(AssetKey, assets)
    ensures m.Keys == set a | a in assets && a.cardId == cardId && a.kind == AppIcon :: a.id
    ensures forall a :: a in assets && a.cardId == cardId && a.kind == AppIcon ==> m[a.id] == a.fileName
  {
    IconNames(assets, cardId);
    NamesById(Filter(IconOf(cardId), assets))
  }

  /** The dictionary of the card's icon rows holds exactly their ids, each with its own file name. */
  lemma IconNames(assets: seq<Asset>, cardId: int)
    requires Keyed(AssetKey, assets)
    ensures NamesById(Filter(IconOf(cardId), assets)).Keys == set a | a in assets && a.cardId == cardId && a.kind == AppIcon :: a.id
    ensures forall a :: a in assets && a.cardId == cardId && a.kind == AppIcon ==>
      NamesById(Filter(IconOf(cardId), assets))[a.id] == a.fileName
  {
    var icons := Filter(IconOf(cardId), assets);
    KeyedFilter(AssetKey, IconOf(cardId), assets);
    NamesByIdExact(icons);
    forall a | a in assets && a.cardId == cardId && a.kind == AppIcon
      ensures NamesById(icons)[a.id] == a.fileName
    {
      assert a in icons;
      var i :| 0 <= i < |icons| && icons[i] == a;
    }
  }

  /** A card appended with a fresh id is found by its id, with no socials yet. */
  lemma GetCardAfterAdd(cards: seq<Card>, socials: seq<Social>, card: Card)
    requires Keyed(CardKey, cards) && KeysBelow(CardKey, cards, card.id)
    requires forall i :: 0 <= i < |socials| ==> socials[i].cardId in CardIds(cards)
    ensures Keyed(CardKey, cards + [card])
    ensures GetCard(cards + [card], socials, card.id) == Some(LoadedCard(card, []))
  {
    KeyedAppend(CardKey, cards, card.id, card);
    assert card.id !in CardIds(cards);
    forall i | 0 <= i < |socials| ensures !SocialOfCard(card.id)(socials[i]) {
    }
    FilterNone(SocialOfCard(card.id), socials);
    FilterNone(CardWithId(card.id), cards);
    FilterAppend(CardWithId(card.id), cards, card);
  }

  /** Rows taken from a table keep their ids below the counter and their cards in place. */
  lemma RowsOfSubset(s: seq<Social>, t: seq<Social>, next: int, cardIds: set<int>)
    requires forall x :: x in t ==> x in s
    requires KeysBelow(SocialKey, s, next)
    requires forall i :: 0 <= i < |s| ==> s[i].cardId in cardIds
    ensures KeysBelow(SocialKey, t, next)
    ensures forall i :: 0 <= i < |t| ==> t[i].cardId in cardIds
  {
    forall i | 0 <= i < |t| ensures t[i].id < next && t[i].cardId in cardIds {
      assert t[i] in s;
      var j :| 0 <= j < |s| && s[j] == t[i];
    }
  }

  // ---------------------------------------------------------------------
  // The constraints of each table, over its contents

  /** `cards`: the primary key, and the counter above every id. */
  ghost predicate CardsOk(cards: seq<Card>, next: int)
  {
    Keyed(CardKey, cards) && KeysBelow(CardKey, cards, next)
  }

  /** `codes`: the primary key, the counter above every id, and the foreign key to `cards`. */
  ghost predicate CodesOk(codes: seq<Code>, next: int, cardIds: set<int>)
  {
    && Keyed(CodeKey, codes) && KeysBelow(CodeKey, codes, next)
    && forall i :: 0 <= i < |codes| ==> codes[i].cardId in cardIds
  }

  /** `card_socials`: the primary key, the counter above every id, and the foreign key to `cards`. */
  ghost predicate SocialsOk(socials: seq<Social>, next: int, cardIds: set<int>)
  {
    && Keyed(SocialKey, socials) && KeysBelow(SocialKey, socials, next)
    && forall i :: 0 <= i < |socials| ==> socials[i].cardId in cardIds
  }

  /** `card_assets`: as the others, and `file_name` is unique. */
  ghost predicate AssetsOk(assets: seq<Asset>, next: int, cardIds: set<int>)
  {
    && Keyed(AssetKey, assets) && KeysBelow(AssetKey, assets, next)
    && (forall i :: 0 <= i < |assets| ==> assets[i].cardId in cardIds)
    && Keyed(FileNameOf, assets)
  }

  /** Inserting a card under the next id keeps `cards` valid and adds exactly its id. */
  lemma CardsOkAppend(cards: seq<Card>, next: int, card: Card)
    requires CardsOk(cards, next) && card.id == next
    ensures CardsOk(cards + [card], next + 1)
    ensures CardIds(cards + [card]) == CardIds(cards) + {card.id}
  {
    KeyedAppend(CardKey, cards, next, card);
  }

  /** More cards break no foreign key. */
  lemma ForeignKeysWiden(codes: seq<Code>, nc: int, socials: seq<Social>, ns: int, assets: seq<Asset>, na: int,
                         ids: set<int>, wider: set<int>)
    requires CodesOk(codes, nc, ids) && SocialsOk(socials, ns, ids) && AssetsOk(assets, na, ids)
    requires ids <= wider
    ensures CodesOk(codes, nc, wider) && SocialsOk(socials, ns, wider) && AssetsOk(assets, na, wider)
  {
  }

  /** Inserting a code of an existing card under the next id keeps `codes` valid. */
  lemma CodesOkAppend(codes: seq<Code>, next: int, cardIds: set<int>, c: Code)
    requires CodesOk(codes, next, cardIds) && c.id == next && c.cardId in cardIds
    ensures CodesOk(codes + [c], next + 1, cardIds)
  {
    KeyedAppend(CodeKey, codes, next, c);
  }

  /** Deactivating codes keeps `codes` valid. */
  lemma CodesOkDeactivate(codes: seq<Code>, next: int, cardIds: set<int>, cardId: int)
    requires CodesOk(codes, next, cardIds)
    ensures CodesOk(Deactivated(codes, cardId), next, cardIds)
  {
    KeyedUpdateWhere(CodeKey, CodeOfCard(cardId), Inactive, codes, next);
  }

  /** Inserting a social of an existing card under the next id keeps `card_socials` valid. */
  lemma SocialsOkAppend(socials: seq<Social>, next: int, cardIds: set<int>, s: Social)
    requires SocialsOk(socials, next, cardIds) && s.id == next && s.cardId in cardIds
    ensures SocialsOk(socials + [s], next + 1, cardIds)
  {
    KeyedAppend(SocialKey, socials, next, s);
  }

  /** Removing a social keeps `card_socials` valid. */
  lemma SocialsOkRemoveFirst(socials: seq<Social>, next: int, cardIds: set<int>, p: Social -> bool)
    requires SocialsOk(socials, next, cardIds)
    ensures SocialsOk(RemoveFirst(p, socials), next, cardIds)
  {
    KeyedRemoveFirst(SocialKey, p, socials);
    RowsOfSubset(socials, RemoveFirst(p, socials), next, cardIds);
  }

  /**
   * Removing the first social with that id on that card from the table
   * removes it from the card's own list, as `card.socials.remove` does.
   */
  lemma CardListAfterRemove(socials: seq<Social>, cardId: int, socialId: int)
    ensures CardSocials(RemoveFirst(SocialAt(cardId, socialId), socials), cardId)
            == RemoveFirst(SocialAt(cardId, socialId), CardSocials(socials, cardId))
  {
    FilterRemoveFirst(SocialOfCard(cardId), SocialAt(cardId, socialId), socials);
  }

  /** A social found on a card belongs to a card that exists. */
  lemma SocialOwnerExists(socials: seq<Social>, next: int, cardIds: set<int>, cardId: int, socialId: int)
    requires SocialsOk(socials, next, cardIds)
    ensures GetSocial(socials, cardId, socialId).Some? ==> cardId in cardIds
  {
    var social := GetSocial(socials, cardId, socialId);
    if social.Some? {
      var i :| 0 <= i < |socials| && socials[i] == social.value;
    }
  }

  /** Linking an icon keeps `card_socials` valid. */
  lemma SocialsOkLink(socials: seq<Social>, next: int, cardIds: set<int>, p: Social -> bool, assetId: int)
    requires SocialsOk(socials, next, cardIds)
    ensures SocialsOk(UpdateWhere(p, WithIcon(assetId), socials), next, cardIds)
  {
    KeyedUpdateWhere(SocialKey, p, WithIcon(assetId), socials, next);
  }

  /** Inserting an asset of an existing card, under the next id and a new file name, keeps `card_assets` valid. */
  lemma AssetsOkAppend(assets: seq<Asset>, next: int, cardIds: set<int>, a: Asset)
    requires AssetsOk(assets, next, cardIds) && a.id == next && a.cardId in cardIds
    requires a.fileName !in FileNamesOf(assets)
    ensures AssetsOk(assets + [a], next + 1, cardIds)
  {
    KeyedAppend(AssetKey, assets, next, a);
    assert forall i :: 0 <= i < |assets| ==> assets[i] in assets;
    KeyedAppendFresh(FileNameOf, assets, a);
  }

  /** Deleting a selection of assets keeps `card_assets` valid. */
  lemma AssetsOkFilter(assets: seq<Asset>, next: int, cardIds: set<int>, p: Asset -> bool)
    requires AssetsOk(assets, next, cardIds)
    ensures AssetsOk(Filter(p, assets), next, cardIds)
  {
    KeyedFilter(AssetKey, p, assets);
    KeyedFilter(FileNameOf, p, assets);
    var t := Filter(p, assets);
    forall i | 0 <= i < |t| ensures t[i].id < next && t[i].cardId in cardIds {
      assert t[i] in assets;
      var j :| 0 <= j < |assets| && assets[j] == t[i];
    }
  }

  class Store {
    var cards: seq<Card>
    var codes: seq<Code>
    var socials: seq<Social>
    var assets: seq<Asset>
    /** The keys of the objects in the bucket. */
    var bucket: set<string>
    /** Every write so far, oldest first. */
    var log: seq<Effect>
    var nextCardId: int
    var nextCodeId: int
    var nextSocialId: int
    var nextAssetId: int

    /** The constraints the schema declares: primary keys, foreign keys to `cards`, unique file names. */
    ghost predicate Valid()
      reads this
    {
      && CardsOk(cards, nextCardId)
      && CodesOk(codes, nextCodeId, CardIds(cards))
      && SocialsOk(socials, nextSocialId, CardIds(cards))
      && AssetsOk(assets, nextAssetId, CardIds(cards))
    }

    constructor ()
      ensures Valid()
      ensures cards == [] && codes == [] && socials == [] && assets == []
      ensures bucket == {} && log == []
    {
      cards, codes, socials, assets := [], [], [], [];
      bucket, log := {}, [];
      nextCardId, nextCodeId, nextSocialId, nextAssetId := 1, 1, 1, 1;
    }

    // -----------------------------------------------------------------
    // repo.cards

    /** `cards.add(card)`: inserts a card row, which is then found by its id with no socials. */
    method AddCard(fields: CardFields) returns (card: Card)
      requires Valid()
      modifies this
      ensures Valid()
      ensures card == Card(old(nextCardId), fields, true) && card.id !in CardIds(old(cards))
      ensures cards == old(cards) + [card] && nextCardId == old(nextCardId) + 1
      ensures codes == old(codes) && socials == old(socials) && assets == old(assets) && bucket == old(bucket)
      ensures nextCodeId == old(nextCodeId) && nextSocialId == old(nextSocialId) && nextAssetId == old(nextAssetId)
      ensures log == old(log) + [CardInserted(card)]
      ensures GetCard(cards, socials, card.id) == Some(LoadedCard(card, []))
    {
      card := Card(nextCardId, fields, true);
      GetCardAfterAdd(cards, socials, card);
      CardsOkAppend(cards, nextCardId, card);
      ForeignKeysWiden(codes, nextCodeId, socials, nextSocialId, assets, nextAssetId, CardIds(cards), CardIds(cards + [card]));
      cards := cards + [card];
      nextCardId := nextCardId + 1;
      log := log + [CardInserted(card)];
    }

    // -----------------------------------------------------------------
    // repo.codes

    /** `codes.add(code)`: inserts the code row, or raises when its card does not exist. */
    method AddCode(cardId: int, codeHash: string, isActive: bool) returns (r: Result<Code>)
      requires Valid()
      modifies this
      ensures Valid()
      ensures cards == old(cards) && socials == old(socials) && assets == old(assets) && bucket == old(bucket)
      ensures nextCardId == old(nextCardId) && nextSocialId == old(nextSocialId) && nextAssetId == old(nextAssetId)
      ensures cardId !in CardIds(cards) ==>
        r == Err(Raised(IntegrityError)) && codes == old(codes) && nextCodeId == old(nextCodeId) && log == old(log)
      ensures cardId in CardIds(cards) ==>
        && r == Ok(Code(old(nextCodeId), cardId, codeHash, isActive))
        && codes == old(codes) + [r.value] && nextCodeId == old(nextCodeId) + 1
        && log == old(log) + [CodeInserted(r.value)]
    {
      if cardId !in CardIds(cards) {
        return Err(Raised(IntegrityError));
      }
      var code := Code(nextCodeId, cardId, codeHash, isActive);
      CodesOkAppend(codes, nextCodeId, CardIds(cards), code);
      codes := codes + [code];
      nextCodeId := nextCodeId + 1;
      log := log + [CodeInserted(code)];
      r := Ok(code);
    }

    /** `codes.deactivate(card_id)`: every code of the card becomes inactive. */
    method DeactivateCodes(cardId: int)
      requires Valid()
      modifies this
      ensures Valid()
      ensures codes == Deactivated(old(codes), cardId)
      ensures cards == old(cards) && socials == old(socials) && assets == old(assets) && bucket == old(bucket)
      ensures nextCardId == old(nextCardId) && nextCodeId == old(nextCodeId)
      ensures nextSocialId == old(nextSocialId) && nextAssetId == old(nextAssetId)
      ensures log == old(log) + [CodesDeactivated(cardId)]
    {
      CodesOkDeactivate(codes, nextCodeId, CardIds(cards), cardId);
      codes := Deactivated(codes, cardId);
      log := log + [CodesDeactivated(cardId)];
    }

    // -----------------------------------------------------------------
    // repo.socials

    /**
     * `socials.create(card, social)` as written: the row it builds has no
     * `order_id`, so its commit breaks the NOT NULL constraint, raises
     * `IntegrityError`, and the session is rolled back with nothing stored.
     */
    method AppendSocialAsWritten(cardId: int, social: SocialIn) returns (r: Result<Social>)
      ensures r == Err(Raised(IntegrityError))
    {
      var row := NewSocialAsWritten(nextSocialId, cardId, social);
      r := if NotNullColumnsSet(row) then Ok(row) else Err(Raised(IntegrityError));
    }

    /**
     * `socials.create(card, social)`: appends a new social to the card's
     * collection, with the `order_id` after the card's largest.
     */
    method AppendSocial(cardId: int, social: SocialIn) returns (s: Social)
      requires Valid() && cardId in CardIds(cards)
      modifies this
      ensures Valid()
      ensures s == Social(old(nextSocialId), cardId, social.kind, social.url, social.caption,
                          Some(NextOrderId(CardSocials(old(socials), cardId))), None, true)
      ensures NotNullColumnsSet(s)
      ensures forall t :: t in CardSocials(old(socials), cardId) && t.orderId.Some? ==> t.orderId.value < s.orderId.value
      ensures socials == old(socials) + [s] && nextSocialId == old(nextSocialId) + 1
      ensures CardSocials(socials, cardId) == CardSocials(old(socials), cardId) + [s]
      ensures forall c :: c != cardId ==> CardSocials(socials, c) == CardSocials(old(socials), c)
      ensures cards == old(cards) && codes == old(codes) && assets == old(assets) && bucket == old(bucket)
      ensures nextCardId == old(nextCardId) && nextCodeId == old(nextCodeId) && nextAssetId == old(nextAssetId)
      ensures log == old(log) + [SocialAppended(s)]
    {
      var mine := CardSocials(socials, cardId);
      s := Social(nextSocialId, cardId, social.kind, social.url, social.caption, Some(NextOrderId(mine)), None, true);
      NextOrderIdAboveAll(mine);
      SocialsOkAppend(socials, nextSocialId, CardIds(cards), s);
      CardSocialsAfterAppend(socials, s);
      socials := socials + [s];
      nextSocialId := nextSocialId + 1;
      log := log + [SocialAppended(s)];
    }

    /**
     * `socials.delete(card, social_id)`: removes the first social of the
     * card with that id, reporting whether there was one.
     */
    method DeleteSocial(cardId: int, socialId: int) returns (deleted: bool)
      requires Valid()
      modifies this
      ensures Valid()
      ensures deleted <==> SocialExists(old(socials), cardId, socialId)
      ensures deleted ==> socials == RemoveFirst(SocialAt(cardId, socialId), old(socials))
      ensures deleted ==> log == old(log) + [SocialRemoved(cardId, socialId)]
      ensures !deleted ==> socials == old(socials) && log == old(log)
      ensures cards == old(cards) && codes == old(codes) && assets == old(assets) && bucket == old(bucket)
      ensures nextCardId == old(nextCardId) && nextCodeId == old(nextCodeId)
      ensures nextSocialId == old(nextSocialId) && nextAssetId == old(nextAssetId)
    {
      deleted := SocialExists(socials, cardId, socialId);
      if deleted {
        var p := SocialAt(cardId, socialId);
        SocialsOkRemoveFirst(socials, nextSocialId, CardIds(cards), p);
        socials := RemoveFirst(p, socials);
        log := log + [SocialRemoved(cardId, socialId)];
      }
    }

    // -----------------------------------------------------------------
    // repo.avatars and repo.logos

    /** `session.add(asset)` and its commit. */
    method InsertAsset(cardId: int, kind: AssetType, fileName: string) returns (r: Result<Asset>)
      requires Valid()
      modifies this
      ensures Valid()
      ensures cards == old(cards) && codes == old(codes) && socials == old(socials) && bucket == old(bucket)
      ensures nextCardId == old(nextCardId) && nextCodeId == old(nextCodeId) && nextSocialId == old(nextSocialId)
      ensures r.Err? <==> cardId !in CardIds(cards) || fileName in FileNamesOf(old(assets))
      ensures r.Err? ==>
        r == Err(Raised(IntegrityError)) && assets == old(assets) && nextAssetId == old(nextAssetId) && log == old(log)
      ensures r.Ok? ==>
        && r.value == Asset(old(nextAssetId), cardId, kind, fileName)
        && assets == old(assets) + [r.value] && nextAssetId == old(nextAssetId) + 1
        && log == old(log) + [AssetInserted(r.value)]
    {
      if cardId !in CardIds(cards) || fileName in FileNamesOf(assets) {
        return Err(Raised(IntegrityError));
      }
      var a := Asset(nextAssetId, cardId, kind, fileName);
      AssetsOkAppend(assets, nextAssetId, CardIds(cards), a);
      assets := assets + [a];
      nextAssetId := nextAssetId + 1;
      log := log + [AssetInserted(a)];
      r := Ok(a);
    }

    /**
     * `avatars.create(card_id, file_name)`: deletes the card's avatar rows
     * (committed at once), then inserts the new one.
     */
    method CreateAvatar(cardId: int, fileName: string) returns (r: Result<Asset>)
      requires Valid()
      modifies this
      ensures Valid()
      ensures cards == old(cards) && codes == old(codes) && socials == old(socials) && bucket == old(bucket)
      ensures nextCardId == old(nextCardId) && nextCodeId == old(nextCodeId) && nextSocialId == old(nextSocialId)
      ensures r.Err? <==> cardId !in CardIds(cards) || fileName in FileNamesOf(Filter(NotAvatarOf(cardId), old(assets)))
      ensures r.Err? ==>
        && r == Err(Raised(IntegrityError))
        && assets == Filter(NotAvatarOf(cardId), old(assets)) && nextAssetId == old(nextAssetId)
        && log == old(log) + [AvatarsDeleted(cardId)]
      ensures r.Ok? ==>
        && r.value == Asset(old(nextAssetId), cardId, Avatar, fileName)
        && assets == Filter(NotAvatarOf(cardId), old(assets)) + [r.value] && nextAssetId == old(nextAssetId) + 1
        && log == old(log) + [AvatarsDeleted(cardId), AssetInserted(r.value)]
    {
      AssetsOkFilter(assets, nextAssetId, CardIds(cards), NotAvatarOf(cardId));
      assets := Filter(NotAvatarOf(cardId), assets);
      log := log + [AvatarsDeleted(cardId)];
      r := InsertAsset(cardId, Avatar, fileName);
    }

    /**
     * `logos.create(card_id, social_id, file_name)`: when the social belongs
     * to the card, inserts an icon asset and links it from the social.
     */
    method CreateIcon(cardId: int, socialId: int, fileName: string) returns (r: Result<Option<Asset>>)
      requires Valid()
      modifies this
      ensures Valid()
      ensures cards == old(cards) && codes == old(codes) && bucket == old(bucket)
      ensures nextCardId == old(nextCardId) && nextCodeId == old(nextCodeId) && nextSocialId == old(nextSocialId)
      ensures !SocialExists(old(socials), cardId, socialId) ==>
        r == Ok(None) && socials == old(socials) && assets == old(assets) && nextAssetId == old(nextAssetId) && log == old(log)
      ensures SocialExists(old(socials), cardId, socialId) && fileName in FileNamesOf(old(assets)) ==>
        && r == Err(Raised(IntegrityError))
        && socials == old(socials) && assets == old(assets) && nextAssetId == old(nextAssetId) && log == old(log)
      ensures SocialExists(old(socials), cardId, socialId) && fileName !in FileNamesOf(old(assets)) ==>
        && r == Ok(Some(Asset(old(nextAssetId), cardId, AppIcon, fileName)))
        && assets == old(assets) + [r.value.value] && nextAssetId == old(nextAssetId) + 1
        && socials == UpdateWhere(SocialAt(cardId, socialId), WithIcon(r.value.value.id), old(socials))
        && log == old(log) + [AssetInserted(r.value.value), IconLinked(cardId, socialId, r.value.value.id)]
    {
      var social := GetSocial(socials, cardId, socialId);
      if social.None? {
        return Ok(None);
      }
      SocialOwnerExists(socials, nextSocialId, CardIds(cards), cardId, socialId);
      var inserted := InsertAsset(cardId, AppIcon, fileName);
      if inserted.Err? {
        return Err(inserted.failure);
      }
      var a := inserted.value;
      LinkIcon(cardId, socialId, a.id);
      r := Ok(Some(a));
    }

    /** `UPDATE card_socials SET icon_asset_id = assetId WHERE id = socialId AND card_id = cardId`. */
    method LinkIcon(cardId: int, socialId: int, assetId: int)
      requires Valid()
      modifies this
      ensures Valid()
      ensures socials == UpdateWhere(SocialAt(cardId, socialId), WithIcon(assetId), old(socials))
      ensures cards == old(cards) && codes == old(codes) && assets == old(assets) && bucket == old(bucket)
      ensures nextCardId == old(nextCardId) && nextCodeId == old(nextCodeId)
      ensures nextSocialId == old(nextSocialId) && nextAssetId == old(nextAssetId)
      ensures log == old(log) + [IconLinked(cardId, socialId, assetId)]
    {
      SocialsOkLink(socials, nextSocialId, CardIds(cards), SocialAt(cardId, socialId), assetId);
      socials := UpdateWhere(SocialAt(cardId, socialId), WithIcon(assetId), socials);
      log := log + [IconLinked(cardId, socialId, assetId)];
    }

    // -----------------------------------------------------------------
    // The object store

    /** `upload_file(file, key)`: the object exists afterwards, whether or not it did before. */
    method Upload(key: string)
      modifies this
      ensures bucket == old(bucket) + {key}
      ensures log == old(log) + [ObjectUploaded(key)]
      ensures cards == old(cards) && codes == old(codes) && socials == old(socials) && assets == old(assets)
      ensures nextCardId == old(nextCardId) && nextCodeId == old(nextCodeId)
      ensures nextSocialId == old(nextSocialId) && nextAssetId == old(nextAssetId)
    {
      bucket := bucket + {key};
      log := log + [ObjectUploaded(key)];
    }

    /** `delete_asset(key)`: the object is gone afterwards. */
    method DeleteObject(key: string)
      modifies this
      ensures bucket == old(bucket) - {key}
      ensures log == old(log) + [ObjectDeleted(key)]
      ensures cards == old(cards) && codes == old(codes) && socials == old(socials) && assets == old(assets)
      ensures nextCardId == old(nextCardId) && nextCodeId == old(nextCodeId)
      ensures nextSocialId == old(nextSocialId) && nextAssetId == old(nextAssetId)
    {
      bucket := bucket - {key};
      log := log + [ObjectDeleted(key)];
    }
  }

  // ---------------------------------------------------------------------
  // What the writes do to the selections the services read

  /** After the avatar is replaced, the card's only avatar row is the new one. */
  lemma AvatarReplaced(assets: seq<Asset>, cardId: int, a: Asset)
    requires a.cardId == cardId && a.kind == Avatar
    ensures Filter(AvatarOf(cardId), Filter(NotAvatarOf(cardId), assets) + [a]) == [a]
  {
    FilterAppend(AvatarOf(cardId), Filter(NotAvatarOf(cardId), assets), a);
    FilterDisjoint(NotAvatarOf(cardId), AvatarOf(cardId), assets);
  }

  /** Replacing one card's avatar leaves every other card's avatar rows as they were. */
  lemma AvatarReplaceKeepsOtherAvatars(assets: seq<Asset>, cardId: int, a: Asset, other: int)
    requires a.cardId == cardId && other != cardId
    ensures Filter(AvatarOf(other), Filter(NotAvatarOf(cardId), assets) + [a]) == Filter(AvatarOf(other), assets)
  {
    FilterAppend(AvatarOf(other), Filter(NotAvatarOf(cardId), assets), a);
    FilterFilter(NotAvatarOf(cardId), AvatarOf(other), assets);
  }

  /** Replacing an avatar leaves the icon rows of every card as they were. */
  lemma AvatarReplaceKeepsIcons(assets: seq<Asset>, cardId: int, a: Asset, owner: int)
    requires a.kind == Avatar
    ensures Filter(IconOf(owner), Filter(NotAvatarOf(cardId), assets) + [a]) == Filter(IconOf(owner), assets)
  {
    FilterAppend(IconOf(owner), Filter(NotAvatarOf(cardId), assets), a);
    FilterFilter(NotAvatarOf(cardId), IconOf(owner), assets);
  }
}
