/**
 * Social-link icons: the URLs of a card's icons, and uploading one.
 *
 * `S3_ICON_TEMPLATE.format(card_id=…, social_id=…)` is the parameter
 * `iconKey` and `s3_client.get_object_url` the parameter `url`.
 */
module LogosService {
  import opened Wrappers
  import opened Seqs
  import opened Db

  /** An asset row that is one of the card's icons. */
  predicate IsIconOf(a: Asset, cardId: int)
  {
    a.cardId == cardId && a.kind == AppIcon
  }

  /**
   * `logos.get_all(card_id)`: asset id to the URL of that asset's file, for
   * exactly the card's icon assets; `{}` when it has none.
   */
  function GetAll(assets: seq<Asset>, cardId: int, url: string -> string): (r: map<int, string>)
    requires Keyed(AssetKey, assets)
    ensures r.Keys == set a | a in assets && IsIconOf(a, cardId) :: a.id
    ensures forall a :: a in assets && IsIconOf(a, cardId) ==> r[a.id] == url(a.fileName)
    ensures r == map[] <==> forall a :: a in assets ==> !IsIconOf(a, cardId)
  {
    var names := GetIcons(assets, cardId);
    if names == map[] then map[]
    else map k | k in names :: url(names[k])
  }

  /**
   * `logos.upload(social, file)`: inserts and links the icon row, then
   * uploads the file.  The upload happens even when the social is not
   * found, after which building the response from `None` fails.
   */
  method Upload(store: Store, social: Social, iconKey: (int, int) -> string) returns (r: Result<Asset>)
    requires store.Valid()
    modifies store
    ensures store.Valid()
    ensures store.cards == old(store.cards) && store.codes == old(store.codes)
    ensures !SocialExists(old(store.socials), social.cardId, social.id) ==>
      && r == Err(Raised(ValidationError))
      && store.socials == old(store.socials) && store.assets == old(store.assets)
      && store.bucket == old(store.bucket) + {iconKey(social.cardId, social.id)}
      && store.log == old(store.log) + [ObjectUploaded(iconKey(social.cardId, social.id))]
    ensures SocialExists(old(store.socials), social.cardId, social.id) && iconKey(social.cardId, social.id) in FileNamesOf(old(store.assets)) ==>
      && r == Err(Raised(IntegrityError))
      && store.socials == old(store.socials) && store.assets == old(store.assets)
      && store.bucket == old(store.bucket) && store.log == old(store.log)
    ensures SocialExists(old(store.socials), social.cardId, social.id) && iconKey(social.cardId, social.id) !in FileNamesOf(old(store.assets)) ==>
      && r == Ok(Asset(old(store.nextAssetId), social.cardId, AppIcon, iconKey(social.cardId, social.id)))
      && store.assets == old(store.assets) + [r.value]
      && store.socials == UpdateWhere(SocialAt(social.cardId, social.id), WithIcon(r.value.id), old(store.socials))
      && store.bucket == old(store.bucket) + {iconKey(social.cardId, social.id)}
      && store.log == old(store.log) + [AssetInserted(r.value), IconLinked(social.cardId, social.id, r.value.id),
                                        ObjectUploaded(iconKey(social.cardId, social.id))]
  {
    var key := iconKey(social.cardId, social.id);
    ghost var log0 := store.log;
    var created :- store.CreateIcon(social.cardId, social.id, key);
    store.Upload(key);
    if created.None? {
      return Err(Raised(ValidationError));
    }
    AppendTriple(log0, AssetInserted(created.value), IconLinked(social.cardId, social.id, created.value.id), ObjectUploaded(key));
    r := Ok(created.value);
  }
}
