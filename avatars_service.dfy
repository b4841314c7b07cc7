/**
 * Avatars: the URL of a card's avatar, and replacing it with an upload.
 *
 * `S3_AVATAR_TEMPLATE.format(card_id=…)` is the parameter `avatarKey` and
 * `s3_client.get_object_url` the parameter `url`.
 */
module AvatarsService {
  import opened Wrappers
  import opened Seqs
  import opened Db

  /**
   * `avatars.get(card_id)`: the URL of the card's avatar key, or `None`
   * when it has no avatar row.  The URL comes from the key template, not
   * from the row's stored file name.
   */
  function Get(assets: seq<Asset>, cardId: int, avatarKey: int -> string, url: string -> string): (r: Result<Option<string>>)
    ensures r == Ok(None) <==> forall a :: a in assets ==> !(a.cardId == cardId && a.kind == Avatar)
    ensures r.Ok? && r.value.Some? ==> r.value.value == url(avatarKey(cardId))
    ensures r.Ok? <==> GetAvatar(assets, cardId).NoRow? || GetAvatar(assets, cardId).OneRow?
    ensures r.Err? ==> r == Err(Raised(MultipleResultsFound))
  {
    match GetAvatar(assets, cardId)
    case NoRow => Ok(None)
    case OneRow(_) => Ok(Some(url(avatarKey(cardId))))
    case ManyRows => Err(Raised(MultipleResultsFound))
  }

  /** Renaming the file of any asset row does not change the avatar URL. */
  lemma AvatarUrlIgnoresFileName(assets: seq<Asset>, cardId: int, i: nat, name: string,
                                 avatarKey: int -> string, url: string -> string)
    requires i < |assets|
    ensures Get(assets[i := assets[i].(fileName := name)], cardId, avatarKey, url) == Get(assets, cardId, avatarKey, url)
  {
    FilterLengthReplace(AvatarOf(cardId), assets, i, assets[i].(fileName := name));
  }

  /**
   * `avatars.upload(card, file)`: replaces the card's avatar row by one
   * named after the template key, then uploads the file under that key.
   * Nothing is deleted from the bucket: the old object is overwritten by
   * the upload to the same key.
   */
  method Upload(store: Store, card: Card, avatarKey: int -> string) returns (r: Result<Asset>)
    requires store.Valid() && card.id in CardIds(store.cards)
    modifies store
    ensures store.Valid()
    ensures r.Err? <==> avatarKey(card.id) in FileNamesOf(Filter(NotAvatarOf(card.id), old(store.assets)))
    ensures r.Err? ==>
      && r == Err(Raised(IntegrityError)) && store.bucket == old(store.bucket)
      && store.assets == Filter(NotAvatarOf(card.id), old(store.assets))
      && store.log == old(store.log) + [AvatarsDeleted(card.id)]
    ensures r.Ok? ==>
      && r.value == Asset(old(store.nextAssetId), card.id, Avatar, avatarKey(card.id))
      && store.assets == Filter(NotAvatarOf(card.id), old(store.assets)) + [r.value]
      && GetAvatar(store.assets, card.id) == OneRow(r.value)
      && store.bucket == old(store.bucket) + {avatarKey(card.id)}
      && store.log == old(store.log) + [AvatarsDeleted(card.id), AssetInserted(r.value), ObjectUploaded(avatarKey(card.id))]
    ensures store.cards == old(store.cards) && store.codes == old(store.codes) && store.socials == old(store.socials)
  {
    var key := avatarKey(card.id);
    var asset :- store.CreateAvatar(card.id, key);
    AvatarReplaced(old(store.assets), card.id, asset);
    store.Upload(key);
    r := Ok(asset);
  }
}
