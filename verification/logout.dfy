/**
 * The logout URL builder (`getLogoutUrl`): a first-match decision between
 * the bare endpoint, the pre-Keycloak-18 `redirect_uri` form, and the
 * OpenID Connect RP-Initiated Logout 1.0 (section 2) form followed by the
 * caller's extra parameters.
 */
module LogoutUrl {
  import opened Wrappers
  import opened PhpStrings
  import opened UrlEncoding
  import opened Query
  import opened Endpoints

  /**
   * One value of the variadic extra parameters: anything that is not a PHP
   * array, or an array given as its key/value pairs in order.
   */
  datatype ExtraParam = NotArray | ArrayParam(pairs: seq<Param>)

  /** The `InvalidArgumentException` thrown for a malformed extra parameter. */
  datatype LogoutError = InvalidArgument(message: string)

  const InvalidParameterMessage: string := "Invalid argument. Expected an array with a key and a value."

  /** The check of each extra parameter: an array with at most one pair. */
  predicate ValidExtra(p: ExtraParam) {
    p.ArrayParam? && |p.pairs| <= 1
  }

  predicate AllValid(extras: seq<ExtraParam>) {
    forall i | 0 <= i < |extras| :: ValidExtra(extras[i])
  }

  /**
   * The pair an accepted extra parameter contributes.  An empty array has
   * no first key or value; PHP reads both as null, which print as "".
   */
  function ExtraPair(p: ExtraParam): Param
    requires ValidExtra(p)
  {
    if p.pairs == [] then ([], []) else p.pairs[0]
  }

  function ExtraPairs(extras: seq<ExtraParam>): (ps: seq<Param>)
    requires AllValid(extras)
    ensures |ps| == |extras|
  {
    if extras == [] then [] else [ExtraPair(extras[0])] + ExtraPairs(extras[1..])
  }

  /** Dropping the first extra parameter keeps the rest accepted. */
  lemma TailValid(extras: seq<ExtraParam>)
    requires extras != []
    requires AllValid(extras)
    ensures AllValid(extras[1..])
  {
    forall i | 0 <= i < |extras[1..]|
      ensures ValidExtra(extras[1..][i])
    {
      assert extras[1..][i] == extras[i + 1];
    }
  }

  /**
   * The `foreach` over the extra parameters: each accepted one appends
   * `&key=urlencode(value)` (the key unencoded); the first malformed one
   * aborts with `InvalidArgument` and no URL.
   */
  function AppendExtras(url: string, extras: seq<ExtraParam>): (r: Result<string, LogoutError>)
    ensures r.Success? <==> AllValid(extras)
    ensures r.Failure? ==> r.error == InvalidArgument(InvalidParameterMessage)
    decreases |extras|
  {
    if extras == [] then Success(url)
    else if !ValidExtra(extras[0]) then Failure(InvalidArgument(InvalidParameterMessage))
    else
      var r := AppendExtras(url + "&" + Render(ExtraPair(extras[0])), extras[1..]);
      assert AllValid(extras[1..]) ==> AllValid(extras) by {
        if AllValid(extras[1..]) {
          forall i | 0 <= i < |extras|
            ensures ValidExtra(extras[i])
          {
            if i > 0 {
              assert extras[i] == extras[1..][i - 1];
            }
          }
        }
      }
      assert !AllValid(extras[1..]) ==> !AllValid(extras) by {
        if !AllValid(extras[1..]) {
          var j :| 0 <= j < |extras[1..]| && !ValidExtra(extras[1..][j]);
          assert extras[1..][j] == extras[j + 1];
        }
      }
      r
  }

  /**
   * `getLogoutUrl(redirectUri, clientId, idTokenHint, ...extras)`.  A null
   * redirect gives the bare endpoint; a redirect alone gives the legacy
   * form; otherwise the RP-initiated form, whose extra parameters are the
   * only thing that can fail.
   */
  function GetLogoutUrl(
    cfg: Config,
    redirectUri: Option<string>,
    clientId: Option<string>,
    idTokenHint: Option<string>,
    extras: seq<ExtraParam>): (r: Result<string, LogoutError>)
    ensures redirectUri.None? ==> r == Success(EndpointUrl(cfg, Logout))
    ensures r.Failure? <==> redirectUri.Some? && (clientId.Some? || idTokenHint.Some?) && !AllValid(extras)
    ensures r.Failure? ==> r.error == InvalidArgument(InvalidParameterMessage)
  {
    var logoutUrl := EndpointUrl(cfg, Logout);
    if redirectUri.None? then Success(logoutUrl)
    else if clientId.None? && idTokenHint.None? then
      Success(logoutUrl + "?" + Render(("redirect_uri", redirectUri.value)))
    else AppendExtras(RpInitiatedBase(logoutUrl, redirectUri.value, clientId, idTokenHint), extras)
  }

  /**
   * The RP-initiated URL before the extras: `post_logout_redirect_uri`,
   * then `client_id` and `id_token_hint` when given, each value encoded.
   */
  function RpInitiatedBase(
    logoutUrl: string, redirectUri: string, clientId: Option<string>, idTokenHint: Option<string>): string
  {
    var withRedirect := logoutUrl + "?" + Render(("post_logout_redirect_uri", redirectUri));
    var withClient :=
      if clientId.Some? then withRedirect + "&" + Render(("client_id", clientId.value)) else withRedirect;
    if idTokenHint.Some? then withClient + "&" + Render(("id_token_hint", idTokenHint.value)) else withClient
  }

  /**
   * The parameters of the RP-initiated form before the extras:
   * `post_logout_redirect_uri`, then `client_id` if given, then
   * `id_token_hint` if given.
   */
  function FixedParams(redirectUri: string, clientId: Option<string>, idTokenHint: Option<string>): seq<Param> {
    [("post_logout_redirect_uri", redirectUri)]
    + (if clientId.Some? then [("client_id", clientId.value)] else [])
    + (if idTokenHint.Some? then [("id_token_hint", idTokenHint.value)] else [])
  }

  /** Every parameter of the RP-initiated form: the fixed ones, then the extras in the order given. */
  function LogoutParams(
    redirectUri: string, clientId: Option<string>, idTokenHint: Option<string>, extras: seq<ExtraParam>): seq<Param>
    requires AllValid(extras)
  {
    FixedParams(redirectUri, clientId, idTokenHint) + ExtraPairs(extras)
  }

  /** The fixed parameter names need no encoding. */
  lemma FixedParamsPlain(redirectUri: string, clientId: Option<string>, idTokenHint: Option<string>)
    ensures PlainNames(FixedParams(redirectUri, clientId, idTokenHint))
  {
    var a: string := "post_logout_redirect_uri";
    var b: string := "client_id";
    var c: string := "id_token_hint";
    assert PlainName(a) && PlainName(b) && PlainName(c);
    var ps := FixedParams(redirectUri, clientId, idTokenHint);
    forall i | 0 <= i < |ps|
      ensures PlainName(ps[i].0)
    {
      assert ps[i].0 == a || ps[i].0 == b || ps[i].0 == c;
    }
  }

  lemma ConsAssoc<T>(a: seq<T>, x: T, b: seq<T>)
    ensures a + [x] + b == a + ([x] + b)
  {
  }

  lemma Assoc(a: string, b: string, c: string)
    ensures a + b + c == a + (b + c)
  {
  }

  /** Appending `&` and a rendered pair to `a + b` is appending them to `b`. */
  lemma AppendPairAssoc(a: string, b: string, p: Param)
    ensures a + b + "&" + Render(p) == a + (b + "&" + Render(p))
  {
    Assoc(a, b, "&");
    Assoc(a, b + "&", Render(p));
  }

  /** Appending accepted extras to a joined query joins their pairs after it. */
  lemma {:induction false} AppendExtrasJoin(ps: seq<Param>, extras: seq<ExtraParam>)
    requires |ps| > 0
    requires AllValid(extras)
    ensures AppendExtras(Join(ps), extras) == Success(Join(ps + ExtraPairs(extras)))
    decreases |extras|
  {
    if extras == [] {
      assert ps + ExtraPairs(extras) == ps;
    } else {
      var p := ExtraPair(extras[0]);
      TailValid(extras);
      var ps' := ps + [p];
      assert ps'[..|ps'| - 1] == ps;
      assert Join(ps') == Join(ps) + "&" + Render(p);
      AppendExtrasJoin(ps', extras[1..]);
      assert ExtraPairs(extras) == [p] + ExtraPairs(extras[1..]);
      ConsAssoc(ps, p, ExtraPairs(extras[1..]));
    }
  }

  /** A fixed prefix in front of the URL is carried through the extras unchanged. */
  lemma {:induction false} AppendExtrasPrefix(prefix: string, url: string, extras: seq<ExtraParam>)
    requires AllValid(extras)
    ensures AppendExtras(prefix + url, extras).Success?
    ensures AppendExtras(prefix + url, extras).value == prefix + AppendExtras(url, extras).value
    decreases |extras|
  {
    if extras != [] {
      var p := ExtraPair(extras[0]);
      TailValid(extras);
      AppendPairAssoc(prefix, url, p);
      AppendExtrasPrefix(prefix, url + "&" + Render(p), extras[1..]);
    }
  }

  /**
   * The legacy form: the bare endpoint, `?`, and one `redirect_uri`
   * parameter, whatever the extras are (they are not even checked).
   */
  lemma LogoutLegacy(cfg: Config, redirectUri: string, extras: seq<ExtraParam>)
    ensures GetLogoutUrl(cfg, Some(redirectUri), None, None, extras)
      == Success(EndpointUrl(cfg, Logout) + "?" + Join([("redirect_uri", redirectUri)]))
    ensures ParseQuery(Join([("redirect_uri", redirectUri)])) == [("redirect_uri", redirectUri)]
  {
    ParseJoin([("redirect_uri", redirectUri)]);
  }

  /** The fixed part of the RP-initiated URL is the endpoint, `?` and the joined fixed parameters. */
  lemma RpInitiatedBaseJoin(
    logoutUrl: string, redirectUri: string, clientId: Option<string>, idTokenHint: Option<string>)
    ensures RpInitiatedBase(logoutUrl, redirectUri, clientId, idTokenHint)
      == logoutUrl + "?" + Join(FixedParams(redirectUri, clientId, idTokenHint))
  {
    var start := logoutUrl + "?";
    var ps0: seq<Param> := [("post_logout_redirect_uri", redirectUri)];
    var ps1: seq<Param> := ps0 + (if clientId.Some? then [("client_id", clientId.value)] else []);
    var ps2: seq<Param> := ps1 + (if idTokenHint.Some? then [("id_token_hint", idTokenHint.value)] else []);
    assert ps2 == FixedParams(redirectUri, clientId, idTokenHint);
    var withRedirect := start + Render(ps0[0]);
    assert withRedirect == start + Join(ps0);
    var withClient :=
      if clientId.Some? then withRedirect + "&" + Render(("client_id", clientId.value)) else withRedirect;
    if clientId.Some? {
      assert ps1[..|ps1| - 1] == ps0;
      AppendPairAssoc(start, Join(ps0), ("client_id", clientId.value));
    }
    assert withClient == start + Join(ps1);
    if idTokenHint.Some? {
      assert ps2[..|ps2| - 1] == ps1;
      AppendPairAssoc(start, Join(ps1), ("id_token_hint", idTokenHint.value));
    }
  }

  /**
   * The RP-initiated form: the bare endpoint, `?`, then the fixed
   * parameters in their order followed by the extras in the order given.
   */
  lemma LogoutRpInitiated(
    cfg: Config, redirect: string, clientId: Option<string>, hint: Option<string>, extras: seq<ExtraParam>)
    requires clientId.Some? || hint.Some?
    requires AllValid(extras)
    ensures GetLogoutUrl(cfg, Some(redirect), clientId, hint, extras)
      == Success(EndpointUrl(cfg, Logout) + "?" + Join(LogoutParams(redirect, clientId, hint, extras)))
  {
    RpInitiatedBaseJoin(EndpointUrl(cfg, Logout), redirect, clientId, hint);
    AppendExtrasPrefix(EndpointUrl(cfg, Logout) + "?", Join(FixedParams(redirect, clientId, hint)), extras);
    AppendExtrasJoin(FixedParams(redirect, clientId, hint), extras);
  }

  /**
   * A server reading the RP-initiated query (what `LogoutRpInitiated` shows
   * follows the `?`) gets back exactly the fixed parameters and then the
   * extras, values decoded, provided the extras' names (written unencoded)
   * hold no `&`, `=`, `%` or `+`.
   */
  lemma LogoutRpInitiatedParses(
    redirectUri: string, clientId: Option<string>, idTokenHint: Option<string>, extras: seq<ExtraParam>)
    requires AllValid(extras)
    requires PlainNames(ExtraPairs(extras))
    ensures ParseQuery(Join(LogoutParams(redirectUri, clientId, idTokenHint, extras)))
      == LogoutParams(redirectUri, clientId, idTokenHint, extras)
  {
    var fixed := FixedParams(redirectUri, clientId, idTokenHint);
    FixedParamsPlain(redirectUri, clientId, idTokenHint);
    PlainNamesAppend(fixed, ExtraPairs(extras));
    ParseJoin(fixed + ExtraPairs(extras));
  }
}
