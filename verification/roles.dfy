/**
 * Role extraction (`getUserRoles`): resolve the realm's public key, decode
 * the access token, and read the `resource_access` claim.  Every failure
 * yields PHP's empty array.
 */
module RoleExtraction {
  import opened Wrappers
  import opened PhpStrings
  import opened Endpoints
  import opened KeySelection

  /** One client's entry in `resource_access`; `roles` is null when the entry has none. */
  datatype ClientAccess = ClientAccess(roles: Option<seq<string>>)

  /** The decoded token claims this code reads; `resourceAccess` is null when the claim is absent. */
  datatype Claims = Claims(resourceAccess: Option<map<string, ClientAccess>>)

  /**
   * The array `getUserRoles` returns: one client's role list, or a map from
   * each client to its roles (null for a client entry without roles).
   */
  datatype Roles = RoleList(roles: seq<string>) | RoleMap(byClient: map<string, Option<seq<string>>>)

  /** PHP's `[]`, the result of every failure. */
  const NoRoles: Roles := RoleMap(map[])

  /**
   * The JWT library: `JWT::decode(token, new Key(keyMaterial, algorithm))`,
   * `None` when it throws (bad signature, malformed token, unusable key).
   */
  type JwtDecoder = (string, string, Option<string>) -> Option<Claims>

  const PemHeader: string := "-----BEGIN PUBLIC KEY-----\n"
  const PemFooter: string := "\n-----END PUBLIC KEY-----"

  /** Key material with no `<`, as base64 text never has. */
  predicate NoAngle(raw: string) {
    forall i | 0 <= i < |raw| :: raw[i] != '<'
  }

  /**
   * The PEM text built from a fetched raw key: armour, `nl2br`, then every
   * `<br />` removed.  For key material without `<` this is exactly the
   * plain armour around the key.
   */
  function PemKey(raw: string): (r: string)
    ensures NoAngle(raw) ==> r == PemHeader + raw + PemFooter
  {
    var s := PemHeader + raw + PemFooter;
    assert NoAngle(raw) ==> StripBr(Nl2Br(s)) == s by {
      if NoAngle(raw) {
        assert PemHeader == ['-', '-', '-', '-', '-', 'B', 'E', 'G', 'I', 'N', ' ', 'P', 'U', 'B',
                             'L', 'I', 'C', ' ', 'K', 'E', 'Y', '-', '-', '-', '-', '-', '\n'];
        assert PemFooter == ['\n', '-', '-', '-', '-', '-', 'E', 'N', 'D', ' ', 'P', 'U', 'B',
                             'L', 'I', 'C', ' ', 'K', 'E', 'Y', '-', '-', '-', '-', '-'];
        forall i | 0 <= i < |s|
          ensures s[i] != '<'
        {
          if i < |PemHeader| {
            assert s[i] == PemHeader[i];
          } else if i < |PemHeader| + |raw| {
            assert s[i] == raw[i - |PemHeader|];
          } else {
            assert s[i] == PemFooter[i - |PemHeader| - |raw|];
          }
        }
        StripNl2Br(s);
      }
    }
    StripBr(Nl2Br(s))
  }

  /** `(array) $decoded['resource_access']`: an absent claim reads as an empty array. */
  function ResourceAccess(claims: Claims): map<string, ClientAccess> {
    claims.resourceAccess.GetOr(map[])
  }

  /**
   * A client's role list as the array PHP returns: an empty list is the
   * same array as the `[]` of every failure, so it is `NoRoles`.
   */
  function Listed(roles: seq<string>): Roles {
    if roles == [] then NoRoles else RoleList(roles)
  }

  /**
   * The part of `getUserRoles` inside the `try` after decoding: with a
   * truthy client id, that client's `roles` list (a missing client or
   * missing list makes the return type check throw, hence `[]`); otherwise
   * every client mapped to its roles, no client added or dropped.  The
   * single-client answer is the entry of the all-clients answer for that
   * client.
   */
  function ExtractRoles(claims: Option<Claims>, clientId: Option<string>): (r: Roles)
    ensures claims.None? ==> r == NoRoles
    ensures r.RoleList? ==> r.roles != []
    ensures claims.Some? && !Truthy(clientId) ==>
      && r.RoleMap?
      && r.byClient.Keys == ResourceAccess(claims.value).Keys
      && forall c | c in r.byClient :: r.byClient[c] == ResourceAccess(claims.value)[c].roles
    ensures claims.Some? && Truthy(clientId) ==>
      var all := ExtractRoles(claims, None).byClient;
      r == (if clientId.value in all && all[clientId.value].Some? then Listed(all[clientId.value].value) else NoRoles)
    decreases if Truthy(clientId) then 1 else 0
  {
    match claims
    case None => NoRoles
    case Some(decoded) =>
      var ra := ResourceAccess(decoded);
      if Truthy(clientId) then
        if clientId.value in ra && ra[clientId.value].roles.Some? then Listed(ra[clientId.value].roles.value)
        else NoRoles
      else
        RoleMap(map c | c in ra :: ra[c].roles)
  }

  /**
   * `getUserRoles(access_token, client_id)`.  With neither `public_key` nor
   * `algorithm` configured the result is `[]` and nothing is fetched or
   * decoded; a configured `public_key` is used as it is and nothing is
   * fetched.
   */
  function GetUserRoles(
    cfg: Config, accessToken: string, clientId: Option<string>, fetch: KeyFetcher, jwt: JwtDecoder): (r: Roles)
    ensures !Truthy(cfg.publicKey) && !Truthy(cfg.algorithm) ==> r == NoRoles
    ensures Truthy(cfg.publicKey) ==>
      r == ExtractRoles(jwt(accessToken, cfg.publicKey.value, GetConfig(cfg.algorithm, None)), clientId)
  {
    var publicKey := GetConfig(cfg.publicKey, None);
    var algorithm := GetConfig(cfg.algorithm, None);
    if !Truthy(publicKey) && !Truthy(algorithm) then NoRoles
    else if !Truthy(publicKey) then
      var raw := GetKey(cfg, algorithm.value, accessToken, fetch);
      if !Truthy(raw) then NoRoles
      else ExtractRoles(jwt(accessToken, PemKey(raw.value), algorithm), clientId)
    else ExtractRoles(jwt(accessToken, publicKey.value, algorithm), clientId)
  }

  /** Without a configured key or algorithm the fetcher and the decoder are never consulted. */
  lemma RolesUnconfigured(
    cfg: Config, accessToken: string, clientId: Option<string>,
    fetch: KeyFetcher, jwt: JwtDecoder, fetch': KeyFetcher, jwt': JwtDecoder)
    requires !Truthy(cfg.publicKey) && !Truthy(cfg.algorithm)
    ensures GetUserRoles(cfg, accessToken, clientId, fetch, jwt)
      == GetUserRoles(cfg, accessToken, clientId, fetch', jwt')
      == NoRoles
  {
  }

  /** With a configured public key the result does not depend on the key fetcher. */
  lemma RolesIgnoreFetchWithConfiguredKey(
    cfg: Config, accessToken: string, clientId: Option<string>,
    fetch: KeyFetcher, fetch': KeyFetcher, jwt: JwtDecoder)
    requires Truthy(cfg.publicKey)
    ensures GetUserRoles(cfg, accessToken, clientId, fetch, jwt)
      == GetUserRoles(cfg, accessToken, clientId, fetch', jwt)
  {
  }

  /**
   * Without a configured key, the key fetched for the configured algorithm
   * is handed to the decoder in PEM armour, together with that algorithm.
   */
  lemma RolesFromFetchedKey(
    cfg: Config, accessToken: string, clientId: Option<string>,
    fetch: KeyFetcher, jwt: JwtDecoder, raw: string)
    requires !Truthy(cfg.publicKey) && Truthy(cfg.algorithm)
    requires GetKey(cfg, cfg.algorithm.value, accessToken, fetch) == Some(raw)
    requires Truthy(Some(raw))
    requires NoAngle(raw)
    ensures GetUserRoles(cfg, accessToken, clientId, fetch, jwt)
      == ExtractRoles(jwt(accessToken, PemHeader + raw + PemFooter, cfg.algorithm), clientId)
  {
  }

  /** Without a configured key, a failed or falsy key lookup gives `[]`. */
  lemma RolesWithoutKey(
    cfg: Config, accessToken: string, clientId: Option<string>,
    fetch: KeyFetcher, jwt: JwtDecoder)
    requires !Truthy(cfg.publicKey)
    requires !Truthy(GetKey(cfg, cfg.algorithm.GetOr(""), accessToken, fetch))
    ensures GetUserRoles(cfg, accessToken, clientId, fetch, jwt) == NoRoles
  {
  }

  /** A token the decoder rejects gives `[]`, whichever key was used. */
  lemma RolesUndecodable(
    cfg: Config, accessToken: string, clientId: Option<string>,
    fetch: KeyFetcher, jwt: JwtDecoder)
    requires forall key, alg :: jwt(accessToken, key, alg).None?
    ensures GetUserRoles(cfg, accessToken, clientId, fetch, jwt) == NoRoles
  {
  }

  /**
   * A token whose `resource_access` grants `client-x` the role `admin`,
   * asked for `client-x`, yields the list `["admin"]` itself, not a map.
   */
  lemma RolesForClientExample(cfg: Config, accessToken: string, fetch: KeyFetcher, jwt: JwtDecoder)
    requires Truthy(cfg.publicKey)
    requires jwt(accessToken, cfg.publicKey.value, GetConfig(cfg.algorithm, None))
      == Some(Claims(Some(map["client-x" := ClientAccess(Some(["admin"]))])))
    ensures GetUserRoles(cfg, accessToken, Some("client-x"), fetch, jwt) == RoleList(["admin"])
  {
  }

  /** A client listed with an empty `roles` array yields the same `[]` as a failure. */
  lemma EmptyClientRolesExample()
    ensures ExtractRoles(Some(Claims(Some(map["client-x" := ClientAccess(Some([]))]))), Some("client-x")) == NoRoles
  {
  }
}
