/**
 * The older asset service of `app/services/assets.py`: its own image
 * check (size, then card, then type), fixed file names, and uploads that
 * write the rows themselves.
 */
module LegacyAssets {
  import opened Wrappers
  import opened Seqs
  import opened Text
  import opened Db
  import opened AssetValidators
  import opened Validators
  import AvatarsService
  import LogosService

  /** `f"avatar-{card_id}.png"`. */
  function AvatarFile(cardId: int): string
  {
    "avatar-" + IntToString(cardId) + ".png"
  }

  /** `f"app_icon-{card_id}-{social_id}.png"`. */
  function IconFile(cardId: int, socialId: int): string
  {
    "app_icon-" + IntToString(cardId) + "-" + IntToString(socialId) + ".png"
  }

  /** Distinct cards get distinct avatar file names. */
  lemma AvatarFileInjective(a: int, b: int)
    requires AvatarFile(a) == AvatarFile(b)
    ensures a == b
  {
    var sa := IntToString(a);
    var sb := IntToString(b);
    assert "avatar-" + sa + ".png" == AvatarFile(a);
    assert |sa| == |sb|;
    assert AvatarFile(a)[7..7 + |sa|] == sa;
    assert AvatarFile(b)[7..7 + |sb|] == sb;
    IntToStringInjective(a, b);
  }

  /** No avatar file name is an icon file name. */
  lemma AvatarFileNotIconFile(c: int, d: int, s: int)
    ensures AvatarFile(c) != IconFile(d, s)
  {
    assert AvatarFile(c)[1] == 'v';
    assert IconFile(d, s)[1] == 'p';
  }

  /** An asset row named the way this service names it. */
  ghost predicate LegacyNamed(a: Asset)
  {
    && (a.kind == Avatar ==> a.fileName == AvatarFile(a.cardId))
    && (a.kind == AppIcon ==> exists c, s :: a.fileName == IconFile(c, s))
  }

  /**
   * When every asset row carries a name of this service, deleting a card's
   * avatars frees its avatar file name, so the insert of `upload_avatar`
   * cannot break the unique constraint.
   */
  lemma AvatarFileFreeAfterDelete(assets: seq<Asset>, cardId: int)
    requires forall a :: a in assets ==> LegacyNamed(a)
    ensures AvatarFile(cardId) !in FileNamesOf(Filter(NotAvatarOf(cardId), assets))
  {
    var kept := Filter(NotAvatarOf(cardId), assets);
    forall a | a in kept ensures a.fileName != AvatarFile(cardId) {
      assert LegacyNamed(a);
      if a.kind == Avatar {
        if a.fileName == AvatarFile(cardId) {
          AvatarFileInjective(a.cardId, cardId);
        }
      } else {
        var c, s :| a.fileName == IconFile(c, s);
        AvatarFileNotIconFile(cardId, c, s);
      }
    }
  }

  /**
   * `image_validator(file, card_id)`: 413 for an oversized file, then 404
   * for a missing card, then 400 for a type not allowed.
   */
  function ImageValidator(cards: seq<Card>, file: Upload, cardId: int, maxSize: int, allowed: seq<string>): (r: Result<Unit>)
    ensures r.Ok? <==> file.size <= maxSize && cardId in CardIds(cards) && TypeAllowed(file.contentType, allowed)
    ensures file.size > maxSize ==> r == Err(Http(413, TooLargeMessage))
    ensures file.size <= maxSize && cardId !in CardIds(cards) ==> r == Err(Http(404, CardNotFound(cardId)))
    ensures cardId in CardIds(cards) ==> r == ValidateImage(file, maxSize, allowed)
  {
    if file.size > maxSize then Err(Http(413, TooLargeMessage))
    else if cardId !in CardIds(cards) then Err(Http(404, CardNotFound(cardId)))
    else if !TypeAllowed(file.contentType, allowed) then Err(Http(400, NotAllowedMessage(allowed)))
    else Ok(Unit)
  }

  /** `get_avatar(card_id)`: `None` without an avatar row, else the URL of `avatar-{card_id}.png`. */
  function GetAvatarLink(assets: seq<Asset>, cardId: int, url: string -> string): (r: Result<Option<string>>)
    ensures r == Ok(None) <==> forall a :: a in assets ==> !(a.cardId == cardId && a.kind == Avatar)
    ensures r.Ok? && r.value.Some? ==> r.value.value == url(AvatarFile(cardId))
    ensures r.Err? <==> GetAvatar(assets, cardId).ManyRows?
  {
    AvatarsService.Get(assets, cardId, AvatarFile, url)
  }

  /** `get_logos(card_id)`: asset id to the URL of its file for the card's icons; `{}` without any. */
  function GetLogos(assets: seq<Asset>, cardId: int, url: string -> string): (r: map<int, string>)
    requires Keyed(AssetKey, assets)
    ensures r.Keys == set a | a in assets && a.cardId == cardId && a.kind == AppIcon :: a.id
    ensures forall a :: a in assets && a.cardId == cardId && a.kind == AppIcon ==> r[a.id] == url(a.fileName)
    ensures r == map[] <==> forall a :: a in assets ==> !(a.cardId == cardId && a.kind == AppIcon)
  {
    LogosService.GetAll(assets, cardId, url)
  }

  /**
   * `upload_avatar(card_id, file)`: the image check, then the card's
   * avatar rows are replaced by one named `avatar-{card_id}.png`, then the
   * file is uploaded under that name.
   */
  method UploadAvatar(store: Store, cardId: int, file: Upload, maxSize: int, allowed: seq<string>) returns (r: Result<Asset>)
    requires store.Valid()
    modifies store
    ensures store.Valid()
    ensures store.cards == old(store.cards) && store.codes == old(store.codes) && store.socials == old(store.socials)
    ensures ImageValidator(old(store.cards), file, cardId, maxSize, allowed).Err? ==>
      && r == ImageValidator(old(store.cards), file, cardId, maxSize, allowed).PropagateFailure()
      && store.assets == old(store.assets) && store.bucket == old(store.bucket) && store.log == old(store.log)
    ensures ImageValidator(old(store.cards), file, cardId, maxSize, allowed).Ok? &&
            AvatarFile(cardId) in FileNamesOf(Filter(NotAvatarOf(cardId), old(store.assets))) ==>
      && r == Err(Raised(IntegrityError))
      && store.assets == Filter(NotAvatarOf(cardId), old(store.assets)) && store.bucket == old(store.bucket)
      && store.log == old(store.log) + [AvatarsDeleted(cardId)]
    ensures ImageValidator(old(store.cards), file, cardId, maxSize, allowed).Ok? &&
            AvatarFile(cardId) !in FileNamesOf(Filter(NotAvatarOf(cardId), old(store.assets))) ==>
      && r == Ok(Asset(old(store.nextAssetId), cardId, Avatar, AvatarFile(cardId)))
      && store.assets == Filter(NotAvatarOf(cardId), old(store.assets)) + [r.value]
      && GetAvatar(store.assets, cardId) == OneRow(r.value)
      && store.bucket == old(store.bucket) + {AvatarFile(cardId)}
      && store.log == old(store.log) + [AvatarsDeleted(cardId), AssetInserted(r.value), ObjectUploaded(AvatarFile(cardId))]
  {
    var key := AvatarFile(cardId);
    var checked :- ImageValidator(store.cards, file, cardId, maxSize, allowed);
    var asset :- store.CreateAvatar(cardId, key);
    AvatarReplaced(old(store.assets), cardId, asset);
    store.Upload(key);
    r := Ok(asset);
  }

  /**
   * `upload_logo(card_id, social_id, file)`: 404 unless the card has the
   * social, checked before the image; a taken file name becomes 400; then
   * the icon row is inserted and linked, and the file uploaded.
   */
  method UploadLogo(store: Store, cardId: int, socialId: int, file: Upload, maxSize: int, allowed: seq<string>)
    returns (r: Result<Asset>)
    requires store.Valid()
    modifies store
    ensures store.Valid()
    ensures store.cards == old(store.cards) && store.codes == old(store.codes)
    ensures !SocialExists(old(store.socials), cardId, socialId) ==>
      && r == Err(Http(404, SocialNotFound))
      && store.assets == old(store.assets) && store.socials == old(store.socials)
      && store.bucket == old(store.bucket) && store.log == old(store.log)
    ensures SocialExists(old(store.socials), cardId, socialId) && ImageValidator(old(store.cards), file, cardId, maxSize, allowed).Err? ==>
      && r == ImageValidator(old(store.cards), file, cardId, maxSize, allowed).PropagateFailure()
      && store.assets == old(store.assets) && store.socials == old(store.socials)
      && store.bucket == old(store.bucket) && store.log == old(store.log)
    ensures SocialExists(old(store.socials), cardId, socialId) && ImageValidator(old(store.cards), file, cardId, maxSize, allowed).Ok? &&
            IconFile(cardId, socialId) in FileNamesOf(old(store.assets)) ==>
      && r == Err(Http(400, IconExists))
      && store.assets == old(store.assets) && store.socials == old(store.socials)
      && store.bucket == old(store.bucket) && store.log == old(store.log)
    ensures SocialExists(old(store.socials), cardId, socialId) && ImageValidator(old(store.cards), file, cardId, maxSize, allowed).Ok? &&
            IconFile(cardId, socialId) !in FileNamesOf(old(store.assets)) ==>
      && r == Ok(Asset(old(store.nextAssetId), cardId, AppIcon, IconFile(cardId, socialId)))
      && store.assets == old(store.assets) + [r.value]
      && store.socials == UpdateWhere(SocialAt(cardId, socialId), WithIcon(r.value.id), old(store.socials))
      && store.bucket == old(store.bucket) + {IconFile(cardId, socialId)}
      && store.log == old(store.log) + [AssetInserted(r.value), IconLinked(cardId, socialId, r.value.id),
                                        ObjectUploaded(IconFile(cardId, socialId))]
  {
    var key := IconFile(cardId, socialId);
    var social := GetSocial(store.socials, cardId, socialId);
    if social.None? {
      return Err(Http(404, SocialNotFound));
    }
    var checked :- ImageValidator(store.cards, file, cardId, maxSize, allowed);
    var inserted := store.InsertAsset(cardId, AppIcon, key);
    if inserted.Err? {
      return Err(Http(400, IconExists));
    }
    var asset := inserted.value;
    ghost var log0 := old(store.log);
    store.LinkIcon(cardId, socialId, asset.id);
    store.Upload(key);
    AppendTriple(log0, AssetInserted(asset), IconLinked(cardId, socialId, asset.id), ObjectUploaded(key));
    r := Ok(asset);
  }
}
