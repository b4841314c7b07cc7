# TapCardKZ business-card service, modelled in Dafny

TapCardKZ is a service for digital business cards. A card has contact
fields, an ordered list of social links, an avatar and, per link, an
optional custom icon. The owner edits a card after redeeming a one-time
activation code, which sets an `edit_access` JWT in the `Authorization`
cookie. An administrator creates cards and regenerates codes.

This project models the logic between the HTTP routes and the I/O layers:

- **Input rules**: the field validators and length bounds of the card
  schemas (`CardSchema`), and the image upload rule (`AssetValidators`).
- **Guards**: existence and ownership checks (`Validators`), and the
  cookie and admin-key gates (`Auth`).
- **The relational store**: a class `Db.Store` with one `seq` per table
  (`cards`, `codes`, `card_socials`, `card_assets`). The S3 bucket is a
  `set<string>` of object keys. A log records every committed write and
  every object-store call, so the order of effects can be stated. The
  repository reads are functions over the tables and the repository
  writes are methods on the class. `Valid()` is the schema's constraints:
  primary keys, foreign keys to `cards`, and unique `file_name`. Every
  write preserves `Valid()`.
- **The services**: codes (`CodesService`), avatars (`AvatarsService`), icons
  (`LogosService`), cards (`CardsService`) and socials (`SocialsService`).
  They sequence the store's methods as the Python services do.
- **The older asset service** of `app/services/assets.py` (`LegacyAssets`).
  It has its own check order, fixed file names, and IntegrityError handling.
- **`build_schema`**: the dictionary fold the responses are built from
  (`Schema`).
- **The token payload** and `verify`-returns-`None` (`Tokens`).

Outside facts are parameters:

- Hashing (`hashlib.sha256`) is a function `encode`, and nothing is
  assumed of it.
- JWT signing and decoding are functions `sign` and `decode`. The lemmas
  about round trips assume only `Tokens.JoseSound`: decoding a signed
  payload gives it back until `exp`, and signed tokens contain no space.
- Time is an integer count of seconds.
- Presigned URLs are a function `url`.
- The key templates `S3_AVATAR_TEMPLATE` and `S3_ICON_TEMPLATE` are
  functions `avatarKey` and `iconKey`.
- `IMAGE_MAX_SIZE`, `ALLOWED_IMAGE_TYPES` and `JWT_EXPIRE_MINUTES` are
  arguments. The settings class declares them (app/core/config.py:17-23).
- `ADMIN_SECRET`, `CODE_LEN`, `S3_AVATAR_TEMPLATE` and `S3_ICON_TEMPLATE`
  are parameters too: the `secret` of `Auth.VerifyAdmin`, the plaintext
  code, and `avatarKey` and `iconKey`. The settings class
  (app/core/config.py:4-33) does not declare them, and with
  `extra="ignore"` (:32) values for them in the environment are dropped.
  As written, every read of them raises `AttributeError`:
  - `config.ADMIN_SECRET` (app/api/v1/dependencies.py:80), for every
    non-empty key, so `verify_admin` never answers 403 and never passes;
  - `config.CODE_LEN` (app/utils/code.py:8 and app/services/cards.py:74),
    so `cards.create` and `codes.regenerate` fail before any write;
  - `config.S3_AVATAR_TEMPLATE` (app/services/avatars.py:38 and :60), in
    `avatars.get` when the card has an avatar row, and in `avatars.upload`
    before any write;
  - `config.S3_ICON_TEMPLATE` (app/services/logos.py:65), in
    `logos.upload` before any write.

  The model describes the code as it would run with these four settings
  declared, as it does for the missing functions below.

Several service call sites name functions that the source does not
define, or call them with arguments they do not take. As written, each of
these raises `AttributeError` or `TypeError` at the call. Some of them come
after a write has been committed; the last column says what is then left
behind. The model treats them as calls to the functions that do exist:

| call site | function modelled | as written |
|---|---|---|
| `repo.codes.create(code=code)` in `codes.regenerate` (app/services/codes.py:79) | `repo.codes.add(code=models.Code)`, as `Db.Store.AddCode` | raises after `repo.codes.deactivate` (:73) has committed (app/repo/codes.py:39), so the card is left with no active code. Without `CODE_LEN` (see above), `generate()` at :70 raises first, before any write. |
| `repo.codes.create(code=hashed_code, card_id=...)` in `cards.create` (app/services/cards.py:82) | `repo.codes.add(code=models.Code)`, as `Db.Store.AddCode`; the model builds the `Code` row from the hash and the card id | not reached, because the two calls before it raise first |
| `repo.cards.create(card=schemas.cards.In)` (app/services/cards.py:77) | `repo.cards.add(card=models.Card)`, as `Db.Store.AddCard`; the model builds the `Card` row from the input's fields | raises before any write |
| `utils.code.generate(config.CODE_LEN)` (app/services/cards.py:74) | `utils.code.generate()`, which takes no argument and reads `CODE_LEN` itself (app/utils/code.py:7), as the `plaintext` argument of `CardsService.Create` | raises before any write: `config.CODE_LEN` is undefined, and even with it declared the extra argument is a `TypeError` |
| `s3_client.delete_social_asset(card_id, social_id)` (app/services/socials.py:48) | deleting the object under the social's icon key, as `Db.Store.DeleteObject(iconKey(card_id, social_id))` | raises after the social's removal has been committed (:45, app/repo/socials.py:51-54), so the row is gone and the icon object stays in the bucket |
| `utils.token.get_or_create` (app/services/codes.py:35) | a `token` argument of `CodesService.Redeem` | raises before the cookie is set |

Two places where the schemas' own descriptions and the code disagree:

- `order_id` is described as the "Display order" (app/schemas/socials.py:37
  and :51). The code's `Card.socials` relationship declares no ordering
  (app/core/models/card.py:25), and `repo.cards.get` loads it with
  `selectinload` and no `ORDER BY` (app/repo/cards.py:14). The model follows
  the code as far as it can: a card's list is its rows in insertion order.
- `schemas.socials.Base` requires an `order_id` (app/schemas/socials.py:51),
  and the column is NOT NULL. `repo.socials.create` never sets one. Here the
  model follows the intended behaviour, the order id after the card's
  largest, and `Db.Store.AppendSocialAsWritten` is the code as written; see
  Findings.

## Model

| member | source | states |
|---|---|---|
| CardSchema.ValidatePhone | app/schemas/cards.py:21-31 | `None` passes. A value not starting with "7" gets the start-with-7 error before any length check. A value starting with "7" with length other than 11 gets the length error. A value starting with "7" of length 11 that is rejected gets the digits error. The validator accepts exactly `None` or 11 characters: a '7', then ten characters that satisfy `isdigit`. |
| CardSchema.PhoneStartCheckedFirst | app/schemas/cards.py:25-26 | "8123" is rejected with the start-with-7 message, not the length message. |
| CardSchema.PhoneAcceptsArabicIndicDigits | app/schemas/cards.py:29-30 | Because `isdigit` admits non-ASCII digits, "7" followed by ten Arabic-Indic digits is accepted. |
| CardSchema.MatchesEmailIff | app/schemas/cards.py:37-38 | The left-to-right decision procedure agrees with the regular expression on every string. The expression is local `[A-Za-z0-9_.+-]+`, '@', label `[A-Za-z0-9-]+`, '.', rest `[A-Za-z0-9-.]+`, optionally followed by one final newline, which `$` admits. |
| CardSchema.ValidateEmail | app/schemas/cards.py:33-39 | `None` passes. Otherwise the value is accepted iff it matches the email pattern, and any rejection carries "Invalid email format". |
| CardSchema.EmailAcceptsDottedParts | app/schemas/cards.py:37-38 | "john.doe@example.co.kz" is accepted. |
| CardSchema.EmailAcceptsFinalNewline | app/schemas/cards.py:37-38 | "a@b.c" followed by a newline is accepted. |
| CardSchema.EmailRejectsDotlessDomain | app/schemas/cards.py:37-38 | "a@b" is rejected. |
| CardSchema.ValidateWebsite | app/schemas/cards.py:41-47 | Accepts exactly `None` or a value starting with "http://" or "https://". Every other value gets the website message. |
| CardSchema.ValidateIn | app/schemas/cards.py:50-95 | `In` has no error iff name has length 3..20, title 5..75, description 10..255 and city 3..20, phone and email are present and pass their validators, and website is absent or passes. |
| CardSchema.ValidatePatch | app/schemas/cards.py:98-131 | `Patch` has no error iff every present field meets the same length bound and validator as in `In`. Absent fields are never an error. |
| CardSchema.InAcceptedIsPatchAccepted | app/schemas/cards.py:50-131 | Every body `In` accepts is also accepted by `Patch`. |
| CardSchema.EmptyPatchAccepted | app/schemas/cards.py:98-131 | A patch naming no field is accepted. |
| CardSchema.InRequiresPhone | app/schemas/cards.py:50-95 | A missing phone passes the phone validator, yet `In` rejects the body. |
| AssetValidators.ValidateImage | app/validators/assets.py:11-37 | Accepts iff size <= max and the content type is in the allowed list. An oversized file gets 413 whatever its type. A file within the bound with a type not allowed gets 400. |
| AssetValidators.SizeBoundIsInclusive | app/validators/assets.py:28-32 | A file of exactly the maximum size passes. One byte more gives 413. |
| Tokens.Payload | app/utils/token.py:5-12 | The payload carries the given `card_id`, type "edit_access", and `exp` exactly `JWT_EXPIRE_MINUTES` minutes after now. |
| Tokens.Verify | app/utils/token.py:18-23 | `verify` returns `None` exactly when decoding raises `JWTError`, and the decoded payload otherwise. It never raises. |
| Tokens.VerifyCreated | app/utils/token.py:5-23 | A created token verifies to its own payload up to its expiry. |
| Tokens.VerifyExpired | app/utils/token.py:18-23 | After its expiry the same token verifies to `None`. |
| Text.BearerSecondField | app/api/v1/dependencies.py:54 | `"Bearer " + t`, split on spaces, has `t` as its second field when `t` contains no space. |
| Auth.AccessTokenGate | app/api/v1/dependencies.py:33-60 | A missing or empty cookie gets 401. A cookie without a space raises `IndexError`, which is not caught. Otherwise the result is exactly `verify`'s answer on the second field, which is `None` exactly when decoding fails. The 403 branch is never taken. `require_access_token` (app/validators/auth.py:13-40) is the same code. |
| Auth.AdminTokenGate | app/validators/auth.py:43-74 | A missing cookie gets 401 and a cookie without a space raises `IndexError`. A decoding error gets 403. Otherwise the decoded payload is returned, whatever its `type`. |
| Auth.AccessGateAcceptsRedeemedCookie | app/api/v1/dependencies.py:47-55 | The bearer cookie holding a freshly created token passes the user gate with its card's payload until the token expires. |
| Auth.AccessGatePassesExpiredCookie | app/api/v1/dependencies.py:54-60 | Once that token has expired, the user gate returns a `None` payload instead of 403. |
| Auth.AdminGateAcceptsEditToken | app/validators/auth.py:64-69 | Any unexpired `edit_access` token of any card passes the admin gate. |
| Auth.VerifyAdmin | app/api/v1/dependencies.py:63-84 | A missing or empty key gets 401, checked first. A key other than `ADMIN_SECRET` gets 403. The gate passes iff the key equals a non-empty secret. |
| Validators.RequireCard | app/validators/cards.py:13-33 | 404 "Card with id … not found" iff no card has the id. Otherwise it returns the card with that id and its socials. The tables are read-only inputs. |
| Validators.CardNotFoundNamesId | app/validators/cards.py:28-32 | The 404 detail determines the requested id: distinct ids give distinct messages. |
| Validators.RequireActiveCode | app/validators/codes.py:13-36 | 401 "Invalid code or code not found" iff no active code has the hash. On success it returns the only active code with that hash. Two such codes make the lookup raise `MultipleResultsFound`. No card id takes part. |
| Validators.RequireActiveCodeAfterDeactivate | app/validators/codes.py:27-36 | After a card's codes are deactivated, no code of that card passes the guard, whatever the hash. |
| Validators.RequireSocial | app/validators/socials.py:13-47 | 404 "Social not found" iff the card has no social with that id. On success it returns that social, whose `card_id` and `id` are the requested ones. The ownership 404 never occurs. |
| Validators.RequireNoIcon | app/validators/socials.py:50-64 | 400 "App icon already exists" iff `icon_asset_id` is truthy. A `None` or `0` id passes. |
| Db.Deactivated | app/repo/codes.py:34-38 | Same length and the same ids, cards and hashes. A code is active afterwards iff it was active and belongs to another card. |
| Db.DeactivatedIdempotent | app/repo/codes.py:34-38 | Deactivating twice gives the same table as deactivating once. |
| Db.DeactivatedKeepsOtherCards | app/repo/codes.py:36 | Every other card's codes are unchanged, in order. |
| Db.DeactivatedClearsCard | app/repo/codes.py:34-38 | Afterwards the card has no active code, whatever it had before, including none. |
| Db.DeactivatedHidesCard | app/repo/codes.py:16-39 | After `deactivate(c)`, `get_active` returns no code of card `c`, for any hash. |
| Db.GetActiveCode | app/repo/codes.py:16-27 | No row iff no active code has the hash. One row is an active code with that hash and the only one. Otherwise the lookup raises. |
| Db.GetCard | app/repo/cards.py:6-18 | `None` iff no card has the id. Otherwise it returns the card with that id, the only one, loaded with its socials in table order (insertion order; see Left out). |
| Db.GetCardAfterAdd | app/repo/cards.py:6-28 | A card inserted under a fresh id is then found by `get`, with no socials. |
| Db.SocialExists | app/repo/socials.py:7-18 | True iff some social has both that id and that card id. |
| Db.GetSocial | app/repo/socials.py:20-31 | `None` iff no social has that id on that card. Otherwise it returns that social, so `is_exist` holds iff `get` is not `None`. |
| Db.GetAvatar | app/repo/avatars.py:6-17 | No row iff the card has no avatar asset. One row is the card's only avatar asset. Two or more make the query raise. |
| Db.NamesById | app/repo/logos.py:18 | The dictionary's keys are exactly the rows' ids. |
| Db.NamesByIdExact | app/repo/logos.py:18 | With unique ids, each id maps to its own row's file name. |
| Db.GetIcons | app/repo/logos.py:6-18 | The keys are exactly the ids of the card's `app_icon` assets, and each maps to that asset's file name. Avatars are excluded. |
| Db.CardSocialsAfterAppend | app/repo/socials.py:39-40 | Appending a social grows its card's list by exactly that social at the end. Every other card's list is unchanged. |
| Db.CardListAfterRemove | app/repo/socials.py:51-53 | Removing the first matching row from the table removes the first matching entry from the card's list. The rest keep their order. |
| Db.NewSocialAsWrittenRejected | app/repo/socials.py:39 | The row `create` builds leaves the NOT NULL `order_id` column (app/core/models/social.py:24) unset. |
| Db.NextOrderIdAboveAll | app/core/models/social.py:24 | The next order id exceeds the order id of every listed social. |
| Db.Store.AddCard | app/repo/cards.py:20-28 | Appends exactly one card under the next id and returns it. Afterwards `get` finds it with no socials, and every other table is unchanged. |
| Db.Store.AddCode | app/repo/codes.py:6-14 | Appends exactly the given code under the next id and returns it. A code of a missing card raises `IntegrityError` and changes nothing. |
| Db.Store.DeactivateCodes | app/repo/codes.py:29-39 | The codes table becomes `Deactivated(old, card_id)` and nothing else changes. |
| Db.Store.AppendSocialAsWritten | app/repo/socials.py:33-43 | As written, the row has no `order_id`, so the commit breaks the NOT NULL column (app/core/models/social.py:24) and raises `IntegrityError`, changing nothing. |
| Db.Store.AppendSocial | app/repo/socials.py:33-43 | Appends one social built from the input's type, url and label. It has no icon, the next id, and the order id after the card's largest. The card's list grows by it at the end and other cards' lists are unchanged. |
| Db.Store.DeleteSocial | app/repo/socials.py:45-56 | Returns true iff the card has a social with that id, and then removes the first match. Otherwise the table is unchanged. Assets are never touched. |
| Db.Store.InsertAsset | app/core/models/asset.py:17-20 | Appends an asset under the next id, or raises `IntegrityError` and changes nothing when the card is missing or the file name is taken. |
| Db.Store.CreateAvatar | app/repo/avatars.py:20-37 | First deletes every avatar row of the card (committed), then inserts one avatar row with the given card and file name and returns it. |
| Db.Store.CreateIcon | app/repo/logos.py:20-46 | Returns `None` and changes nothing when the card has no such social. Otherwise it inserts an `app_icon` asset, then sets that social's `icon_asset_id` to the new id, overwriting any earlier one. Other socials are untouched. |
| Db.Store.LinkIcon | app/repo/logos.py:39-45 | Only the social with that id on that card gets the new `icon_asset_id`. |
| Db.Store.Upload | app/s3/client.py:27-30 | The key is in the bucket afterwards, whether or not it was before. No table changes. |
| Db.Store.DeleteObject | app/s3/client.py:43-46 | The key is not in the bucket afterwards. No table changes. |
| Db.AvatarReplaced | app/repo/avatars.py:26-37 | After the delete and the insert, the card's only avatar row is the new one. |
| Db.AvatarReplaceKeepsOtherAvatars | app/repo/avatars.py:26-30 | Other cards' avatar rows are unchanged. |
| Db.AvatarReplaceKeepsIcons | app/repo/avatars.py:28-29 | Every card's `app_icon` rows are unchanged. |
| CodesService.Response.SetCookie | app/services/codes.py:41-47 | The response gains exactly the given cookie. |
| CodesService.SessionCookie | app/services/codes.py:41-47 | The cookie is named "Authorization", http-only, with same-site "lax". |
| CodesService.Redeem | app/services/codes.py:15-53 | Sets the cookie "Authorization" to "Bearer " + token, expiring after `JWT_EXPIRE_MINUTES*60`. Returns the token, "bearer" and the code's card id. The code is not deactivated. |
| CodesService.SessionCookieAuthenticates | app/services/codes.py:35-47 | The cookie set for a fresh token of the code's card passes the user gate with that card's payload until expiry, and its lifetime equals the token's. |
| CodesService.RegenerateLeavesOneActive | app/services/codes.py:73-79 | Deactivating a card's codes and appending one active code leaves exactly that code active for the card, whatever the prior state. |
| CodesService.RegenerateKeepsOthers | app/services/codes.py:73-79 | Other cards' codes are unchanged. |
| CodesService.Regenerate | app/services/codes.py:56-84 | Deactivates then inserts, in that order. The card's only active code is the new row, whose hash is the hash of the returned plaintext. Returns the card's id. Other cards' codes and the other tables are unchanged. |
| AvatarsService.Get | app/services/avatars.py:15-39 | Without an avatar row, `None`. With one, the URL of the template key for the card id, not of the stored file name. Two rows raise. |
| AvatarsService.AvatarUrlIgnoresFileName | app/services/avatars.py:38-39 | Renaming any asset's file changes nothing in the result. |
| AvatarsService.Upload | app/services/avatars.py:42-68 | The template key is used for both the row and the object. The avatar rows are replaced by one, then the object is uploaded. Afterwards the key is in the bucket and the card has exactly that one avatar. No object is deleted. |
| LogosService.GetAll | app/services/logos.py:15-42 | `{}` iff the card has no icon asset. Otherwise the keys are exactly the ids of the card's icon assets, each mapped to the URL of that asset's file name. |
| LogosService.Upload | app/services/logos.py:47-80 | The key comes from the icon template on the social's card id and id. The row is inserted and linked before the object upload. The upload happens even when the social is not found, and the response then fails validation. |
| CardsService.SocialsOutAsWritten | app/services/cards.py:43-50 | One output per social, in order. Each looks up the icon map under the social's own id. |
| CardsService.AsWrittenShowsWrongIcons | app/services/cards.py:47 | With icons keyed by asset id, the lookup as written drops a linked social's icon and shows it on an unrelated social. The corrected lookup does neither. |
| CardsService.SocialsOut | app/services/cards.py:43-50 | One output per social, in order. Each carries the URL stored under the asset id it links, if any. |
| CardsService.SocialsOutLinks | app/services/cards.py:37-50 | A social's link is the URL of the card's icon asset it references, and shows nothing else. |
| CardsService.Get | app/services/cards.py:15-57 | Raises `MultipleResultsFound` iff the card has two avatar rows. Otherwise building the response raises `ValidationError` iff the card has no website (app/schemas/cards.py:145) or one of its socials no order id (app/schemas/socials.py:51). Otherwise it returns the card, one output per loaded social in the same order, each social's icon URL, and the avatar service's result as `avatar_link`. |
| CardsService.LinkedSocialsCarryIcon | app/repo/logos.py:39-44 | After the link update, the card's social with that id carries the new asset id. |
| CardsService.IconShownAfterLink | app/services/cards.py:37-50 | After an icon is inserted and linked, reading the card shows that icon's URL on that social. |
| CardsService.FreshCardHasNoCodes | app/services/cards.py:77-86 | A card id no code refers to has no codes before the initial one is inserted. |
| CardsService.Create | app/services/cards.py:60-94 | Inserts the card, then one active code holding the hash of the plaintext. Afterwards that is the card's only code. Both rows are committed whatever the response: a card without a website makes `OnCreate` fail with `ValidationError` (app/schemas/cards.py:145), so the plaintext is lost. Otherwise the response is the card with no socials, no avatar link and the plaintext. |
| SocialsService.Create | app/services/socials.py:10-26 | 404 iff the card does not exist, with nothing changed. Otherwise returns the new social, appended at the end of the card's list. |
| SocialsService.RemovedSocialGone | app/repo/socials.py:51-53 | With unique ids, after the removal no social with that id remains on the card. |
| SocialsService.Delete | app/services/socials.py:28-48 | 404 "Social does not exist" iff there is no such social, with nothing changed. The ownership 404 never occurs. On success the social is removed. Its icon object is deleted afterwards iff `icon_asset_id` is truthy. The icon's asset row is never removed. |
| LegacyAssets.ImageValidator | app/services/assets.py:16-36 | 413 for an oversized file, then 404 for a missing card, then 400 for a type not allowed. Accepts iff all three checks pass. |
| LegacyAssets.GetAvatarLink | app/services/assets.py:38-46 | `None` without an avatar row. Otherwise the URL of "avatar-{card_id}.png". |
| LegacyAssets.GetLogos | app/services/assets.py:48-65 | `{}` iff there is no `app_icon` asset. Otherwise each icon asset id maps to the URL of its file name. |
| LegacyAssets.UploadAvatar | app/services/assets.py:67-87 | The image check comes first. Then all avatar rows of the card are deleted and one named "avatar-{card_id}.png" is inserted, and the object is uploaded after both. A taken name raises `IntegrityError` with no upload. |
| LegacyAssets.AvatarFileInjective | app/services/assets.py:73 | Distinct cards get distinct avatar file names. |
| LegacyAssets.AvatarFileNotIconFile | app/services/assets.py:96 | No avatar file name equals an icon file name. |
| LegacyAssets.AvatarFileFreeAfterDelete | app/services/assets.py:73-83 | When every row carries a name this service gives, deleting the card's avatars frees its avatar name, so the insert cannot hit the unique constraint. |
| LegacyAssets.UploadLogo | app/services/assets.py:89-115 | 404 when the card has no such social, before any image check. A taken "app_icon-{card}-{social}.png" gives 400 "App icon already exists". Otherwise the icon is inserted, then linked from the social, then uploaded. |
| Schema.Public | app/utils/utils.py:22-25 | Keeps exactly the attributes whose names do not start with "_", with their values. |
| Schema.BuildSchema | app/utils/utils.py:7-27 | The loop's dictionary is the fold of the models' public attributes, overridden by the extra fields. |
| Schema.CombinedKeys | app/utils/utils.py:19-25 | The combined keys are exactly the public attribute names of the models that have a `__dict__`. |
| Schema.BuildSchemaKeys | app/utils/utils.py:19-27 | The result's keys are the models' public names plus the extra names. A "_" name is present only as an extra field. Extra fields override every model. |
| Schema.LaterWins | app/utils/utils.py:20-25 | On a name several models share, the last model having it wins. |
| Schema.NoDictAddsNothing | app/utils/utils.py:21 | A model without `__dict__` contributes nothing, wherever it stands. |

## Left out

- HTTP routing and app wiring are not modelled. The routers only choose which guard and service to call, and the endpoint `app/api/v1/endpoints/assets.py` for the older asset service is not mounted.
- The S3 client's network calls are not modelled. The bucket is a set of keys, and presigned URLs are the parameter `url`, with no expiry.
- The Redis cache is not modelled; it is cache I/O only.
- Sessions, transactions and concurrency are not modelled. Each commit is one sequential step of a method, so the concurrent-regeneration race cannot arise in the model.
- `created_at` and `updated_at` timestamps are not modelled; nothing reads them.
- The card patch update (`cards.update`, app/services/cards.py:97-119) is left out. It calls `repo.cards.update`, which the source does not define. Only the `Patch` schema's rules are modelled.
- `repo.cards.get` inside `socials.delete` is not modelled. It loads the card's socials list, which the model reads from the table directly.
- The code generator and hash (`app/utils/code.py`, `CODE_LEN`): the plaintext is an input and the hash the function `encode`.
- `utils.token.get_or_create` is not part of this model; `CodesService.Redeem` takes the token it would return.
- Pydantic's validation of responses is modelled for missing required values: `logos.upload` with no created row, and `cards.create` and `cards.get` for a card without a website or a social without an order id, return `ValidationError`. The timestamps the response schemas also require are not modelled, and neither are the enum-typed fields (next line).
- Enum classes: the model has one type per enum, but the source has two classes of each.
  - The columns are typed with the classes of app/core/models/asset.py:10 and app/core/models/social.py:9 (`SQLEnum(...)` at app/core/models/asset.py:19 and app/core/models/social.py:21).
  - The mounted repositories bind members of the separate classes in app/core/enums.py instead. Filters and inserts use `enums.AssetType` (app/repo/avatars.py:14, :29, :33; app/repo/logos.py:14, :35), and `repo.socials.create` inserts the `enums.SocialType` member of its input (app/repo/socials.py:39).
  - By our reading of SQLAlchemy's `Enum` bind, a member of another class is not among the column's values, so these statements raise `StatementError` as written. The response fields `type: enums.SocialType` (app/schemas/socials.py:48) and `type: enums.AssetType` (app/schemas/assets.py:35) would likewise reject the rows' members. This is not executed.
  - The model takes the two definitions as one type, so `Db.GetAvatar`, `Db.GetIcons`, `Db.Store.CreateAvatar`, `Db.Store.CreateIcon`, `Db.Store.AppendSocial`, the avatar, icon and socials services and `CardsService.Get` describe the code as it would run with a single enum class.
  - The older service in app/services/assets.py imports the model's `AssetType` (:9), and there the model and the code agree.
- The older service returns `schemas.assets.AssetOut`, which the source does not define; the model returns the row.
- The order in which pydantic reports several field errors is not modelled. `CardSchema.ValidateIn` and `CardSchema.ValidatePatch` state only whether any error exists.
- `file.size` being `None` is not modelled; sizes are integers.
- `app/utils/jwt.py` and `app/repo/assets.py` repeat `app/utils/token.py`, `app/repo/avatars.py` and `app/repo/logos.py` verbatim, so the same members cover them.
- CardSchema.ValidatePhone: `isdigit` is modelled for the digits of the Basic Multilingual Plane only. Digits from the supplementary planes, such as the mathematical digits at U+1D7CE, are rejected by the model although Python accepts them.
- Tokens.JoseSound: jose is modelled only as far as the round trip goes. Signature forgery, algorithm choice and claim types other than `exp` are not modelled.
- Db.Store.InsertAsset: every commit that can fail does so only on a foreign key or on the unique `file_name`. Other database errors are not modelled.
- CardsService.Get: the socials' icon links follow the corrected lookup (see Findings). `CardsService.SocialsOutAsWritten` is the lookup as written.
- Db.GetCard and CardsService.Get: a card's socials are in insertion order. The relationship has no `order_by` (app/core/models/card.py:25) and `selectinload` issues no `ORDER BY` (app/repo/cards.py:14), so the database may return them in any order; the model assumes one.
- Db.Store.AppendSocial: sets the order id that the NOT NULL column needs (see Findings). `Db.Store.AppendSocialAsWritten` is the method as written.
- Db.Store.AppendSocialAsWritten: it reports `IntegrityError`, the outcome of the missing order id, and it takes the type's enum bind as succeeding. As written, the enum bind described above may raise `StatementError` before the row reaches the database.

## Findings

| source | as written | input that shows it | evidently intended | confidence | as-written member | corrected member |
|---|---|---|---|---|---|---|
| app/repo/socials.py:39 | `CardSocial(**social.model_dump())` builds the row from type, url and label only. `order_id` stays unset although `order_id: Mapped[int]` makes the column NOT NULL (app/core/models/social.py:24). | Any `socials.create` on an existing card: the commit raises `IntegrityError`. This holds once the `type` column's enum bind succeeds; as written, that bind may raise `StatementError` first (see Left out). | The new link gets the order id after the card's largest, so every link has one and links can be ordered by it. | not executed; assumes the table was created from the ORM declaration | Db.Store.AppendSocialAsWritten | Db.Store.AppendSocial |
| app/services/cards.py:47 | `socials_icons.get(social.id)` looks up the icon URLs under the social's id, but `logos.get_all` keys them by asset id (app/repo/logos.py:18). | Social 1 links asset 2 and social 2 links nothing, with icons `{2: "u"}`: social 1 shows no icon and social 2 shows "u". | Each social shows the URL of the asset its `icon_asset_id` references. | not executed | CardsService.AsWrittenShowsWrongIcons | CardsService.IconShownAfterLink |
