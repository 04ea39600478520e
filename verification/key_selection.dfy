/**
 * Active signing-key selection (`getKey`): picking the realm's public key
 * for an algorithm out of the admin keys endpoint's response.
 */
module KeySelection {
  import opened Wrappers
  import opened Endpoints

  /** The decoded body of the keys endpoint: `{active: {alg: kid}, keys: [{...}, ...]}`. */
  datatype KeySet = KeySet(active: map<string, string>, keys: seq<map<string, string>>)

  /** An HTTP GET carrying an `Authorization` header. */
  datatype Request = Request(url: string, authorization: string)

  /** The transport: `None` when the request, or decoding its JSON body, fails. */
  type KeyFetcher = Request -> Option<KeySet>

  /** A key entry whose `algorithm` field is exactly `algorithm`. */
  predicate Matches(entry: map<string, string>, algorithm: string) {
    "algorithm" in entry && entry["algorithm"] == algorithm
  }

  /** `i` is the first entry of `keys` that matches `algorithm`. */
  predicate IsFirstMatch(keys: seq<map<string, string>>, algorithm: string, i: int) {
    && 0 <= i < |keys|
    && Matches(keys[i], algorithm)
    && forall j | 0 <= j < i :: !Matches(keys[j], algorithm)
  }

  /** When some entry matches, there is a first one. */
  lemma {:induction false} FirstMatchExists(keys: seq<map<string, string>>, algorithm: string, k: int)
    requires 0 <= k < |keys| && Matches(keys[k], algorithm)
    ensures exists i :: IsFirstMatch(keys, algorithm, i)
    decreases k
  {
    if forall j | 0 <= j < k :: !Matches(keys[j], algorithm) {
      assert IsFirstMatch(keys, algorithm, k);
    } else {
      var j :| 0 <= j < k && Matches(keys[j], algorithm);
      FirstMatchExists(keys, algorithm, j);
    }
  }

  /** `array_values(array_filter($keys, ...))`: the matching entries, in order. */
  function FilterAlgorithm(keys: seq<map<string, string>>, algorithm: string): (r: seq<map<string, string>>)
    ensures forall k | 0 <= k < |r| :: Matches(r[k], algorithm)
    ensures r == [] <==> forall i | 0 <= i < |keys| :: !Matches(keys[i], algorithm)
    ensures forall i | IsFirstMatch(keys, algorithm, i) :: r != [] && r[0] == keys[i]
    decreases |keys|
  {
    if keys == [] then []
    else
      var rest := FilterAlgorithm(keys[1..], algorithm);
      assert forall i | 1 <= i < |keys| :: keys[i] == keys[1..][i - 1];
      assert forall i | IsFirstMatch(keys, algorithm, i) && i > 0 :: IsFirstMatch(keys[1..], algorithm, i - 1);
      if Matches(keys[0], algorithm) then [keys[0]] + rest else rest
  }

  /**
   * The selection logic of `getKey` on the endpoint's response: no key
   * unless `algorithm` is listed as active; then the `publicKey` of the
   * first entry whose `algorithm` matches, or no key when there is no such
   * entry or it has no `publicKey`.
   */
  function SelectActiveKey(response: Option<KeySet>, algorithm: string): (r: Option<string>)
    ensures response.None? ==> r.None?
    ensures response.Some? && algorithm !in response.value.active ==> r.None?
    ensures response.Some? && (forall i | 0 <= i < |response.value.keys| :: !Matches(response.value.keys[i], algorithm))
      ==> r.None?
    ensures forall i | response.Some? && algorithm in response.value.active
                       && IsFirstMatch(response.value.keys, algorithm, i) ::
      r == (if "publicKey" in response.value.keys[i] then Some(response.value.keys[i]["publicKey"]) else None)
    ensures r.Some? ==>
      exists i :: IsFirstMatch(response.value.keys, algorithm, i) && "publicKey" in response.value.keys[i]
        && r.value == response.value.keys[i]["publicKey"]
  {
    if response.None? then None
    else if algorithm !in response.value.active then None
    else
      var matching := FilterAlgorithm(response.value.keys, algorithm);
      if matching == [] then None
      else
        assert exists i :: IsFirstMatch(response.value.keys, algorithm, i) by {
          var k :| 0 <= k < |response.value.keys| && Matches(response.value.keys[k], algorithm);
          FirstMatchExists(response.value.keys, algorithm, k);
        }
        if "publicKey" in matching[0] then Some(matching[0]["publicKey"]) else None
  }

  /** The request `getKey` sends: the admin keys URL with the access token as bearer. */
  function KeysRequest(cfg: Config, accessToken: string): Request {
    Request(KeysUrl(cfg), "Bearer " + accessToken)
  }

  /**
   * `getKey(algorithm, access_token)`: fetch the key set, then select.  A
   * key comes back exactly when the keys endpoint answered, lists the
   * algorithm as active, and its first matching entry carries a
   * `publicKey`; that key is the one returned.
   */
  function GetKey(cfg: Config, algorithm: string, accessToken: string, fetch: KeyFetcher): (r: Option<string>)
    ensures r.Some? ==>
      var response := fetch(KeysRequest(cfg, accessToken));
      && response.Some?
      && algorithm in response.value.active
      && (exists i :: IsFirstMatch(response.value.keys, algorithm, i) && "publicKey" in response.value.keys[i]
           && r.value == response.value.keys[i]["publicKey"])
    ensures var response := fetch(KeysRequest(cfg, accessToken));
      forall i | response.Some? && algorithm in response.value.active
                 && IsFirstMatch(response.value.keys, algorithm, i)
                 && "publicKey" in response.value.keys[i] ::
        r == Some(response.value.keys[i]["publicKey"])
  {
    SelectActiveKey(fetch(KeysRequest(cfg, accessToken)), algorithm)
  }

  /** A matching entry found after the first one has no influence on the selected key. */
  lemma SelectIgnoresLaterEntries(ks: KeySet, algorithm: string, extra: seq<map<string, string>>)
    requires exists i :: IsFirstMatch(ks.keys, algorithm, i)
    ensures SelectActiveKey(Some(ks.(keys := ks.keys + extra)), algorithm) == SelectActiveKey(Some(ks), algorithm)
  {
    var i :| IsFirstMatch(ks.keys, algorithm, i);
    var all := ks.keys + extra;
    assert forall j | 0 <= j <= i :: all[j] == ks.keys[j];
    assert IsFirstMatch(all, algorithm, i);
  }
}
