/**
 * Realm-scoped endpoint construction (`getBaseUrl`, the OpenID Connect
 * endpoint suffixes, and the admin keys URL built in `getKey`).
 */
module Endpoints {
  import opened Wrappers
  import opened PhpStrings

  /** The provider's additional configuration keys; `None` when a key is not set. */
  datatype Config = Config(
    baseUrl: Option<string>,
    realms: Option<string>,
    publicKey: Option<string>,
    algorithm: Option<string>)

  /**
   * The host framework's `getConfig(key, default)`, as assumed here: a
   * PHP-empty stored value reads as the default.
   */
  function GetConfig(stored: Option<string>, default: Option<string>): Option<string> {
    if Truthy(stored) then stored else default
  }

  const DefaultRealm: string := "master"

  /** `base_url` as `getConfig('base_url')` hands it to string code. */
  function BaseUrl(cfg: Config): string {
    ToStr(GetConfig(cfg.baseUrl, None))
  }

  /** `getConfig('realms', 'master')`: the realm name used by the protocol endpoints. */
  function RealmName(cfg: Config): string {
    ToStr(GetConfig(cfg.realms, Some(DefaultRealm)))
  }

  /**
   * `getBaseUrl()`: `rtrim(rtrim(base_url, '/') . '/realms/' . realm, '/')`.
   * The realm root always starts with the trimmed base and `/realms`, and
   * never ends in `/`.
   */
  function RealmRoot(cfg: Config): (r: string)
    ensures RTrim(BaseUrl(cfg), '/') + "/realms" <= r
    ensures r[|r| - 1] != '/'
  {
    var b := RTrim(BaseUrl(cfg), '/');
    assert b + "/realms/" + RealmName(cfg) == (b + "/realms") + ("/" + RealmName(cfg));
    RTrimKeepsPrefix(b + "/realms", "/" + RealmName(cfg), '/');
    RTrim(b + "/realms/" + RealmName(cfg), '/')
  }

  /** The OpenID Connect endpoints the provider hands to the OAuth2 client. */
  datatype Endpoint = Authorize | Token | UserInfo | Logout

  function EndpointName(e: Endpoint): string {
    match e
    case Authorize => "auth"
    case Token => "token"
    case UserInfo => "userinfo"
    case Logout => "logout"
  }

  /**
   * The realm root followed by `/protocol/openid-connect/<name>`: every
   * endpoint lies under the realm root and none ends in `/`.
   */
  function EndpointUrl(cfg: Config, e: Endpoint): (r: string)
    ensures RealmRoot(cfg) + "/protocol/openid-connect/" <= r
    ensures r[|r| - 1] != '/'
  {
    RealmRoot(cfg) + "/protocol/openid-connect/" + EndpointName(e)
  }

  /**
   * The admin keys URL of `getKey`: the raw `base_url`, then
   * `/admin/realms/`, the raw `realms` (no default), then `/keys`.
   */
  function KeysUrl(cfg: Config): (r: string)
    ensures BaseUrl(cfg) + "/admin/realms/" <= r
    ensures |r| >= 5 && r[|r| - 5..] == "/keys"
  {
    BaseUrl(cfg) + "/admin/realms/" + ToStr(GetConfig(cfg.realms, None)) + "/keys"
  }

  /**
   * Without a realm configured (or with an empty one) the keys URL has an
   * empty realm segment, while the protocol endpoints use `master`.
   */
  lemma KeysUrlNoDefault(cfg: Config)
    requires !Truthy(cfg.realms)
    ensures KeysUrl(cfg) == BaseUrl(cfg) + "/admin/realms//keys"
    ensures RealmName(cfg) == DefaultRealm
  {
  }

  /** Any number of trailing slashes on `base_url` leaves the realm root unchanged. */
  lemma RealmRootIgnoresTrailingSlashes(cfg: Config, base: string, n: nat)
    requires cfg.baseUrl == Some(base)
    requires base != "0"
    ensures RealmRoot(cfg.(baseUrl := Some(base + Repeat('/', n)))) == RealmRoot(cfg)
  {
    var cfg' := cfg.(baseUrl := Some(base + Repeat('/', n)));
    RTrimIgnoresTrailing(base, '/', n);
    if n > 0 && base == "" {
      assert RTrim(BaseUrl(cfg'), '/') == [];
    } else if n > 0 {
      assert (base + Repeat('/', n))[0] == base[0];
      assert BaseUrl(cfg') == base + Repeat('/', n);
    } else {
      assert base + Repeat('/', n) == base;
    }
  }

  /**
   * When the realm name keeps a byte other than `/`, the realm root is the
   * trimmed base, `/realms/`, and the realm with its trailing slashes removed.
   */
  lemma RealmRootShape(cfg: Config)
    requires RTrim(RealmName(cfg), '/') != []
    ensures RealmRoot(cfg) == RTrim(BaseUrl(cfg), '/') + "/realms/" + RTrim(RealmName(cfg), '/')
  {
    RTrimAppend(RTrim(BaseUrl(cfg), '/') + "/realms/", RealmName(cfg), '/');
  }

  /** With no realm configured (or an empty one) the root is `<base>/realms/master`. */
  lemma RealmRootDefault(cfg: Config)
    requires !Truthy(cfg.realms)
    ensures RealmRoot(cfg) == RTrim(BaseUrl(cfg), '/') + "/realms/master"
  {
    assert RealmName(cfg) == DefaultRealm;
    RTrimNoTrailing(DefaultRealm, '/');
    RealmRootShape(cfg);
  }

  /** The four protocol endpoints are pairwise different URLs. */
  lemma EndpointsDistinct(cfg: Config, e1: Endpoint, e2: Endpoint)
    requires e1 != e2
    ensures EndpointUrl(cfg, e1) != EndpointUrl(cfg, e2)
  {
    assert |EndpointName(e1)| != |EndpointName(e2)|;
  }

  /**
   * For a normalised configuration (a base without trailing `/`, a realm
   * set and without trailing `/`) the keys URL is the realm root with
   * `/admin` inserted after the base, plus `/keys`.
   */
  lemma KeysUrlAgreesWhenNormalised(cfg: Config)
    requires Truthy(cfg.baseUrl) && cfg.baseUrl.value[|cfg.baseUrl.value| - 1] != '/'
    requires Truthy(cfg.realms) && cfg.realms.value[|cfg.realms.value| - 1] != '/'
    ensures RealmRoot(cfg) == cfg.baseUrl.value + "/realms/" + cfg.realms.value
    ensures KeysUrl(cfg) == cfg.baseUrl.value + "/admin" + RealmRoot(cfg)[|cfg.baseUrl.value|..] + "/keys"
  {
    var base := cfg.baseUrl.value;
    var realm := cfg.realms.value;
    RTrimNoTrailing(base, '/');
    RTrimNoTrailing(realm, '/');
    RealmRootShape(cfg);
    assert (base + "/realms/" + realm)[|base|..] == "/realms/" + realm;
  }

  /** `https://idp.example/` with no realm has the realm root `https://idp.example/realms/master`. */
  lemma RealmRootExample()
    ensures RealmRoot(Config(Some("https://idp.example/"), None, None, None)) == "https://idp.example/realms/master"
  {
    var cfg := Config(Some("https://idp.example/"), None, None, None);
    var host: string := "https://idp.example";
    assert BaseUrl(cfg) == host + Repeat('/', 1);
    RTrimNoTrailing(host, '/');
    RTrimIgnoresTrailing(host, '/', 1);
    assert RTrim(BaseUrl(cfg), '/') == host;
    RealmRootDefault(cfg);
  }

  /**
   * Without a realm the keys URL keeps an empty realm segment while the
   * protocol endpoints fall back to `master`; a trailing `/` on the base is
   * kept in the keys URL and trimmed from the realm root.
   */
  lemma KeysUrlAsymmetry()
    ensures RealmRoot(Config(Some("https://idp.example/"), None, None, None)) == "https://idp.example/realms/master"
    ensures KeysUrl(Config(Some("https://idp.example/"), None, None, None)) == "https://idp.example//admin/realms//keys"
  {
    RealmRootExample();
  }
}
