/**
 * Social links: adding one to a card and deleting one together with its
 * stored icon object.
 *
 * `s3_client.delete_social_asset(card_id, social_id)` is not part of the
 * client in this model; it stands for deleting the object under the icon
 * key of that social, the parameter `iconKey`.
 */
module SocialsService {
  import opened Wrappers
  import opened Seqs
  import opened Db
  import opened Validators

  const SocialMissing := "Social does not exist"
  const SocialNotThisCard := "This social doesn't belong to this card"

  /**
   * `socials.create(card_id, social)`: 404 for a missing card, otherwise
   * the social appended at the end of the card's list.
   */
  method Create(store: Store, cardId: int, social: SocialIn) returns (r: Result<Social>)
    requires store.Valid()
    modifies store
    ensures store.Valid()
    ensures r.Err? <==> cardId !in CardIds(old(store.cards))
    ensures r.Err? ==>
      && r == Err(Http(404, CardNotFound(cardId)))
      && store.socials == old(store.socials) && store.nextSocialId == old(store.nextSocialId) && store.log == old(store.log)
    ensures r.Ok? ==>
      && r.value.cardId == cardId && r.value.kind == social.kind && r.value.url == social.url && r.value.caption == social.caption
      && r.value.iconAssetId == None && r.value.id == old(store.nextSocialId)
      && CardSocials(store.socials, cardId) == CardSocials(old(store.socials), cardId) + [r.value]
      && (forall c :: c != cardId ==> CardSocials(store.socials, c) == CardSocials(old(store.socials), c))
      && store.log == old(store.log) + [SocialAppended(r.value)]
    ensures store.cards == old(store.cards) && store.codes == old(store.codes)
    ensures store.assets == old(store.assets) && store.bucket == old(store.bucket)
  {
    var card := GetCard(store.cards, store.socials, cardId);
    if card.None? {
      return Err(Http(404, CardNotFound(cardId)));
    }
    var s := store.AppendSocial(cardId, social);
    r := Ok(s);
  }

  /** After removing the first social with that id from the card, none with that id is left. */
  lemma {:induction false} RemovedSocialGone(socials: seq<Social>, cardId: int, socialId: int)
    requires Keyed(SocialKey, socials)
    ensures forall x :: x in RemoveFirst(SocialAt(cardId, socialId), socials) ==> !(x.cardId == cardId && x.id == socialId)
  {
    var p := SocialAt(cardId, socialId);
    var m := FirstMatch(p, socials);
    if m.None? {
      RemoveFirstNoMatch(p, socials);
    } else {
      var i :| 0 <= i < |socials| && p(socials[i]) && forall k :: 0 <= k < i ==> !p(socials[k]);
      RemoveFirstAt(p, socials, i);
      forall x | x in RemoveFirst(p, socials) ensures !p(x) {
        var j :| 0 <= j < |socials| && j != i && socials[j] == x;
      }
    }
  }

  /**
   * `socials.delete(card_id, social_id)`: 404 when the card has no such
   * social; otherwise the social is removed and, when it links an icon,
   * the icon's object is deleted from the bucket.  The icon's asset row is
   * never removed.
   */
  method Delete(store: Store, cardId: int, socialId: int, iconKey: (int, int) -> string) returns (r: Result<Unit>)
    requires store.Valid()
    modifies store
    ensures store.Valid()
    ensures r.Err? <==> !SocialExists(old(store.socials), cardId, socialId)
    ensures r != Err(Http(404, SocialNotThisCard))
    ensures r.Err? ==>
      && r == Err(Http(404, SocialMissing))
      && store.socials == old(store.socials) && store.bucket == old(store.bucket) && store.log == old(store.log)
    ensures r.Ok? ==>
      var icon := Truthy(GetSocial(old(store.socials), cardId, socialId).value.iconAssetId);
      && store.socials == RemoveFirst(SocialAt(cardId, socialId), old(store.socials))
      && !SocialExists(store.socials, cardId, socialId)
      && store.bucket == (if icon then old(store.bucket) - {iconKey(cardId, socialId)} else old(store.bucket))
      && store.log == old(store.log) + [SocialRemoved(cardId, socialId)]
                      + (if icon then [ObjectDeleted(iconKey(cardId, socialId))] else [])
    ensures store.cards == old(store.cards) && store.codes == old(store.codes) && store.assets == old(store.assets)
  {
    var exist := SocialExists(store.socials, cardId, socialId);
    if !exist {
      return Err(Http(404, SocialMissing));
    }
    var social := GetSocial(store.socials, cardId, socialId).value;
    if social.cardId != cardId {
      return Err(Http(404, SocialNotThisCard));
    }
    RemovedSocialGone(store.socials, cardId, socialId);
    var deleted := store.DeleteSocial(cardId, socialId);
    if Truthy(social.iconAssetId) {
      store.DeleteObject(iconKey(cardId, socialId));
    }
    r := Ok(Unit);
  }
}
