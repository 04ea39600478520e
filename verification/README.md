# Keycloak provider: realm URLs, logout URL, key selection, role extraction

A Dafny model of the logic in `Provider.php` of the Keycloak provider for
the Socialite OAuth2 framework. The provider supplies the realm's OpenID
Connect endpoints, builds logout URLs, and can read per-client roles out of
a verified access token. The model covers four pure pieces of it:

- **Realm endpoints** (`Endpoints`). `getBaseUrl` gives
  `rtrim(rtrim(base_url,'/') . '/realms/' . realm, '/')`, with realm
  `master` by default. The authorize, token, userinfo and logout endpoints
  hang off this root. The admin keys URL of `getKey` is built differently:
  it uses the raw `base_url` and the raw `realms`, with no default.
- **Logout URL** (`LogoutUrl`). `getLogoutUrl` is a first-match decision:
  - no redirect gives the bare endpoint;
  - a redirect alone gives the pre-Keycloak-18 `redirect_uri` form;
  - otherwise it gives the OpenID Connect RP-Initiated Logout 1.0
    (section 2) form: `post_logout_redirect_uri`, then an optional
    `client_id` and `id_token_hint`, then the caller's extra parameters, in
    order. A malformed extra parameter raises `InvalidArgument` instead.
- **Active-key selection** (`KeySelection`). This is `getKey` working on
  the keys endpoint's decoded response.
- **Role extraction** (`RoleExtraction`). `getUserRoles` covers the early
  exit, the key fetch, the PEM armour, decoding, and reading
  `resource_access`. Every failure gives `[]`.

Supporting modules:
- `PhpStrings`: PHP truthiness, `rtrim`, `nl2br`, the `<br />` removal.
- `UrlEncoding`: `urlencode`, with `urldecode` as its proved inverse.
- `Query`: joining `key=value` pairs and parsing a query string back.
- `Wrappers`: `Option` and `Result`.

Modelling decisions:
- A Dafny `string` stands for a PHP byte string.
- A PHP `null` is `None`.
- Thrown exceptions are the `Failure` side of a `Result`. Inside
  `getUserRoles`'s `try`, they become the empty array `NoRoles`.
- The HTTP transport is a function parameter, `KeyFetcher`. It maps a
  `Request` (URL and `Authorization` header) to the decoded key set, or
  `None`.
- The JWT library is a function parameter, `JwtDecoder`. It maps the token,
  the key material and the algorithm to the decoded claims, or `None`.
- `getConfig` comes from the host framework, which is not part of this
  model. The model assumes it returns the default when the stored value is
  PHP-empty (null, `""` or `"0"`). This is why an empty `realms` falls back
  to `master`.

Points where the code's behaviour is easy to misread:
- With a client id, `getUserRoles` returns that client's `roles` list
  itself (`RoleList(["admin"])`), not a one-entry map
  (`RoleExtraction.RolesForClientExample`).
- A client id of `"0"` is falsy in PHP, so it yields the map of all
  clients.
- A missing client, or a client without roles, makes the declared `array`
  return type throw inside the `try`, so the result is `[]`.
- A client whose `roles` list is empty returns that empty list, which is
  the same PHP array `[]` as a failure. The model returns `NoRoles` for
  both (`RoleExtraction.EmptyClientRolesExample`).

## Model

| member | source | states |
|---|---|---|
| PhpStrings.RTrim | Provider.php:32 | `rtrim(s, c)` is the prefix of `s` that does not end in `c` and after which `s` holds only `c` |
| PhpStrings.RTrimIgnoresTrailing | Provider.php:32 | appending any number of `c` to the input does not change the result of `rtrim(s, c)` |
| PhpStrings.StripNl2Br | Provider.php:214-218 | removing every `<br />` after `nl2br` restores any string that contains no `<` |
| UrlEncoding.DecodeEncode | Provider.php:112 | `urldecode(urlencode(s)) == s` for every string: each encoded value is recovered exactly |
| UrlEncoding.UrlEncode | Provider.php:112 | `urlencode` writes each input byte as one to three output bytes |
| UrlEncoding.UrlEncodeAlphabet | Provider.php:118-138 | `urlencode` output holds only unreserved bytes, `%` and `+`, so never `&` or `=` |
| Query.ParseJoin | Provider.php:118-138 | pairs written as `key=urlencode(value)` joined by `&` parse back to exactly those pairs in order, when names are free of `& = % +` |
| Endpoints.RealmRoot | Provider.php:30-33 | the realm root starts with the trimmed base followed by `/realms` and never ends in `/` |
| Endpoints.EndpointUrl | Provider.php:38-56 | every endpoint, the logout one of line 103 included, lies under the realm root's `/protocol/openid-connect/` path and none ends in `/` |
| Endpoints.KeysUrl | Provider.php:155 | the keys URL starts with the untrimmed base and `/admin/realms/` and ends in `/keys` |
| Endpoints.KeysUrlNoDefault | Provider.php:155 | for every configuration without a (non-empty) realm, the keys URL is the untrimmed base + `/admin/realms//keys`, although the protocol endpoints use `master` |
| Endpoints.RealmRootIgnoresTrailingSlashes | Provider.php:30-33 | any number of trailing `/` on `base_url` leaves the realm root unchanged (base other than PHP-empty `"0"`) |
| Endpoints.RealmRootShape | Provider.php:30-33 | when the realm keeps a non-`/` byte, the root is trimmed base + `/realms/` + realm without trailing `/` |
| Endpoints.RealmRootDefault | Provider.php:32 | with no (or an empty) realm configured the root is trimmed base + `/realms/master` |
| Endpoints.EndpointsDistinct | Provider.php:38-63 | the authorize, token, userinfo and logout endpoints are four different URLs under the same realm root |
| Endpoints.KeysUrlAgreesWhenNormalised | Provider.php:155 | for a base and realm without trailing `/`, the keys URL is the realm root with `/admin` after the base, plus `/keys` |
| Endpoints.RealmRootExample | Provider.php:32 | `https://idp.example/` with no realm has root `https://idp.example/realms/master` |
| Endpoints.KeysUrlAsymmetry | Provider.php:155 | for that configuration the keys URL is `https://idp.example//admin/realms//keys`: untrimmed base, no `master` default |
| LogoutUrl.AppendExtras | Provider.php:130-139 | the extras loop succeeds iff every extra is an array of at most one pair; otherwise it fails with the `InvalidArgument` message |
| LogoutUrl.GetLogoutUrl | Provider.php:101-142 | a null redirect gives exactly the bare logout endpoint; the call fails iff a redirect and a client id or hint are given and some extra is malformed |
| LogoutUrl.AppendExtrasJoin | Provider.php:130-139 | appending accepted extras to a joined query joins their pairs after it, in the order supplied |
| LogoutUrl.AppendExtrasPrefix | Provider.php:130-139 | appending extras leaves everything before the query untouched |
| LogoutUrl.LogoutLegacy | Provider.php:110-113 | a redirect alone gives the endpoint + `?redirect_uri=` + encoded redirect, for any extras, which are never checked |
| LogoutUrl.RpInitiatedBaseJoin | Provider.php:118-128 | before the extras, the RP-initiated URL is the endpoint, `?`, then `post_logout_redirect_uri`, `client_id` iff given and `id_token_hint` iff given, joined by `&` |
| LogoutUrl.LogoutRpInitiated | Provider.php:115-139 | otherwise the URL is the endpoint, `?`, `post_logout_redirect_uri`, `client_id` iff given, `id_token_hint` iff given, then the extras in order |
| LogoutUrl.LogoutRpInitiatedParses | Provider.php:115-139 | a server parsing that query gets exactly those parameters back, values decoded, in that order, when extra names are free of `& = % +` |
| KeySelection.FilterAlgorithm | Provider.php:179-184 | the filtered list holds only matching entries, is empty iff no entry matches, and starts with the first match |
| KeySelection.SelectActiveKey | Provider.php:168-189 | no key unless the algorithm is active; otherwise the first matching entry's `publicKey`, or none if it lacks one or nothing matches |
| KeySelection.GetKey | Provider.php:151-190 | a key is returned exactly when the keys endpoint answered, lists the algorithm as active, and its first matching entry has a `publicKey`; that key is the one returned |
| KeySelection.SelectIgnoresLaterEntries | Provider.php:179-186 | entries after the first match never affect the selected key |
| RoleExtraction.PemKey | Provider.php:214-218 | a fetched key without `<` becomes exactly `-----BEGIN PUBLIC KEY-----\n` + key + `\n-----END PUBLIC KEY-----` |
| RoleExtraction.ExtractRoles | Provider.php:221-239 | no claims give `[]`; without a truthy client id every client maps to its roles, none added or dropped; with one, the answer is that client's entry in the all-clients answer, or `[]` when it is absent or null; a role list is never empty |
| RoleExtraction.EmptyClientRolesExample | Provider.php:226-228 | a client listed with an empty `roles` array yields `[]`, the same value as a failure |
| RoleExtraction.GetUserRoles | Provider.php:198-240 | with neither key nor algorithm configured the result is `[]`; a configured key is handed to the decoder as it is |
| RoleExtraction.RolesUnconfigured | Provider.php:200-205 | unconfigured, the result is `[]` whatever the fetcher and decoder do: nothing is fetched |
| RoleExtraction.RolesIgnoreFetchWithConfiguredKey | Provider.php:207-219 | with a configured public key the key fetcher has no influence |
| RoleExtraction.RolesFromFetchedKey | Provider.php:207-222 | otherwise the fetched key, PEM-armoured, is handed to the decoder with the configured algorithm |
| RoleExtraction.RolesWithoutKey | Provider.php:207-212 | a failed or falsy key lookup gives `[]` |
| RoleExtraction.RolesUndecodable | Provider.php:221-239 | a token the decoder rejects gives `[]` |
| RoleExtraction.RolesForClientExample | Provider.php:226-228 | `client-x` with roles `["admin"]`, asked for `client-x`, yields the list `["admin"]` |

## Left out

- HTTP transport (`getHttpClient()->get`) and JSON decoding in `getKey` and `getUserByToken`: the key set arrives through the `KeyFetcher` parameter. A response missing `active` or `keys` makes the source return null, the same outcome as a failed fetch (`None`).
- `getUserByToken` beyond its URL: the model has the userinfo endpoint (`Endpoints.EndpointUrl`) but not the request or the JSON body.
- JWT verification and decoding (`JWT::decode`, `new Key`): an external cryptographic library, modelled as the `JwtDecoder` parameter. `Key`'s own rejection of empty key material or algorithm is part of what that parameter may answer.
- `buildAuthUrlFromBase` (state and CSRF handling), `parent::getTokenFields` and the `User` mapping in `mapUserToObject`: host-framework code. The model keeps only the URL handed to `buildAuthUrlFromBase`.
- `getConfig` belongs to the host framework and is not part of this model. The model assumes it returns the default for a PHP-empty stored value.
- PHP warnings and deprecations: the model follows PHP with no error handler installed, where a warning only yields its value (null for a missing array key or property). The host framework's handler turns every warning into an `ErrorException`, and that changes three outcomes the model does not follow:
  - an empty array given as an extra parameter passes the size check; the model appends `&=`, while under the handler `getLogoutUrl` throws;
  - a `keys` entry without `algorithm` is skipped by the model (`KeySelection.Matches`), while under the handler `getKey` returns null;
  - without a client id, a client entry with no `roles` maps to null in the model's `RoleMap`, while under the handler `getUserRoles` returns `[]`.
- `RoleExtraction.RoleMap`: the all-clients answer is a Dafny map, so the order in which the token lists its clients, which the PHP array keeps, is not modelled.
- Characters above 255: a PHP string cannot hold them. `UrlEncode` passes such a character through unchanged, and no property depends on this.
- Query.ParseJoin: it holds only for parameter names without `&`, `=`, `%` or `+`. The source writes extra-parameter names unencoded, so other names change how the query parses.
- PhpStrings.StripNl2Br: proved only for strings without `<`. The source also deletes any `<br />` that the fetched key itself contains, and `PemKey` models that exact behaviour.
- Concrete logout URLs for literal inputs, such as a redirect encoded as `https%3A%2F%2Fapp%2Fcb`, are not stated as lemmas. The general logout lemmas cover their shape.
- Extra logout parameters: keys and values are modelled as strings, and an integer key stands for its decimal text. PHP's coercion of other scalar values is not modelled. Neither is the `TypeError` that `urlencode` throws for an accepted one-pair array whose value is itself an array; it is neither a result nor an `InvalidArgument`.
- `Roles` keeps a role list and a client map apart. A PHP caller sees both as arrays, and the model equates only the empty cases, as `NoRoles`.
