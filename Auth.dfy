/** The OAuth session of `src/utils/spotify.js`: the authorization-code flow with
    PKCE (RFC 7636) against the Spotify accounts service, the token store kept in
    `localStorage`, the refresh grant of section 6 of RFC 6749, and the wrapper
    every Web API call goes through, which retries once after a 401.

    `localStorage` is the `store` field of a `Session`. `Date.now()` is the `now`
    parameter (one instant per operation). Every reply of the network is an
    oracle argument: `Result<TokenReply>` for the token endpoint (an `Err` is the
    rejection `fetch` gives when no response arrives), and for the Web API a
    function from the call's index to its reply. SHA-256 is an uninterpreted
    function argument, and `Math.random()` a function from the draw's index to
    the alphabet position it picks. */
module Auth {

  import opened Common
  import Strings
  import Decimal
  import Base64

  const ClientId := "d99bb196bf4a4d05bd7ee06d9d6cdb61"
  const LocalRedirectUri := "http://localhost:4173/spotify-web-test/callback"
  const DeployedRedirectUri := "https://caquilina-veitch.github.io/spotify-web-test/callback"
  const ApiBase := "https://api.spotify.com/v1"

  const ScopeList: seq<string> := [
    "user-read-playback-state",
    "user-modify-playback-state",
    "user-read-currently-playing",
    "playlist-modify-public",
    "playlist-modify-private",
    "playlist-read-private",
    "playlist-read-collaborative",
    "user-library-read",
    "user-library-modify"
  ]

  /** The `scope` parameter: the scopes joined with single spaces. */
  function Scope(): string {
    Strings.Join(ScopeList, " ")
  }

  /** The `localStorage` keys the session owns. */
  const AccessTokenKey := "access_token"
  const RefreshTokenKey := "refresh_token"
  const ExpiresAtKey := "expires_at"
  const CodeVerifierKey := "code_verifier"

  const NoVerifierMessage := "No code verifier found"
  const ExchangeFailedMessage := "Failed to get access token"
  const NoRefreshTokenMessage := "No refresh token found"
  const RefreshFailedMessage := "Failed to refresh access token"
  const AuthRequiredMessage := "Authentication required"

  /** `REDIRECT_URI`: the local preview server on `localhost`, the deployed site elsewhere. */
  function RedirectUri(hostname: string): string {
    if hostname == "localhost" then LocalRedirectUri else DeployedRedirectUri
  }

  // ---------------------------------------------------------------------------
  // PKCE: the code verifier and its S256 challenge

  /** The alphabet `generateRandomString` draws from. */
  const PossibleChars: string := UpperLetters + LowerLetters + Digits
  const UpperLetters: string := "ABCDEFGHIJKLMNOPQRSTUVWXYZ"
  const LowerLetters: string := "abcdefghijklmnopqrstuvwxyz"
  const Digits: string := "0123456789"

  /** The length of the code verifier `authenticateSpotify` generates. */
  const VerifierLength := 128

  /** `Math.floor(Math.random() * possible.length)`: a position in the alphabet. */
  type AlphabetIndex = k: int | 0 <= k < 62

  /** The unreserved characters of section 2.3 of RFC 3986, which section 4.1
      of RFC 7636 allows in a code verifier. */
  predicate IsUnreserved(c: char) {
    'A' <= c <= 'Z' || 'a' <= c <= 'z' || '0' <= c <= '9' || c == '-' || c == '.' || c == '_' || c == '~'
  }

  /** A code verifier as section 4.1 of RFC 7636 defines it: 43 to 128
      unreserved characters. */
  predicate IsCodeVerifier(v: string) {
    43 <= |v| <= 128 && forall i :: 0 <= i < |v| ==> IsUnreserved(v[i])
  }

  /** `generateRandomString(length)`: draw `i` picks the `i`-th character. */
  method GenerateRandomString(length: nat, random: nat -> AlphabetIndex) returns (text: string)
    ensures |text| == length
    ensures forall i :: 0 <= i < length ==> text[i] == PossibleChars[random(i)]
  {
    text := "";
    var i := 0;
    while i < length
      invariant 0 <= i <= length
      invariant |text| == i
      invariant forall k :: 0 <= k < i ==> text[k] == PossibleChars[random(k)]
    {
      text := text + [PossibleChars[random(i)]];
      i := i + 1;
    }
  }

  /** Every character of the alphabet is unreserved. */
  lemma PossibleCharsUnreserved()
    ensures |PossibleChars| == 62
    ensures forall k :: 0 <= k < 62 ==> IsUnreserved(PossibleChars[k])
  {
    forall k | 0 <= k < 62 ensures IsUnreserved(PossibleChars[k]) {
      if k < 26 {
        assert PossibleChars[k] == UpperLetters[k];
        assert 'A' <= UpperLetters[k] <= 'Z';
      } else if k < 52 {
        assert PossibleChars[k] == LowerLetters[k - 26];
        assert 'a' <= LowerLetters[k - 26] <= 'z';
      } else {
        assert PossibleChars[k] == Digits[k - 52];
      }
    }
  }

  /** Whatever the random draws, a generated string of verifier length is a
      valid RFC 7636 code verifier. */
  lemma GeneratedVerifierIsValid(text: string, random: nat -> AlphabetIndex)
    requires |text| == VerifierLength
    requires forall i :: 0 <= i < |text| ==> text[i] == PossibleChars[random(i)]
    ensures IsCodeVerifier(text)
  {
    PossibleCharsUnreserved();
  }

  /** `new TextEncoder().encode(s)`: UTF-8, one to four bytes per code point. */
  function Utf8Encode(s: string): seq<Base64.Byte>
    decreases |s|
  {
    if s == [] then [] else Utf8Char(s[0]) + Utf8Encode(s[1..])
  }

  function Utf8Char(c: char): (bs: seq<Base64.Byte>)
    ensures 1 <= |bs| <= 4
    ensures c as int < 128 ==> bs == [c as int]
  {
    var n := c as int;
    if n < 0x80 then [n]
    else if n < 0x800 then [0xC0 + n / 64, 0x80 + n % 64]
    else if n < 0x10000 then [0xE0 + n / 4096, 0x80 + n / 64 % 64, 0x80 + n % 64]
    else [0xF0 + n / 262144 % 8, 0x80 + n / 4096 % 64, 0x80 + n / 64 % 64, 0x80 + n % 64]
  }

  /** On ASCII text, such as every code verifier, UTF-8 is the code points themselves. */
  lemma {:induction false} Utf8OfAscii(s: string)
    requires forall i :: 0 <= i < |s| ==> s[i] as int < 128
    ensures Utf8Encode(s) == seq(|s|, i requires 0 <= i < |s| => s[i] as int)
    decreases |s|
  {
    if s != [] {
      Utf8OfAscii(s[1..]);
      var codes := seq(|s|, i requires 0 <= i < |s| => s[i] as int);
      assert Utf8Char(s[0]) == [s[0] as int];
      assert codes == [s[0] as int] + seq(|s| - 1, i requires 0 <= i < |s| - 1 => s[1..][i] as int);
    }
  }

  /** `base64encode`: `btoa` over the bytes as Latin-1 text, then the URL-safe
      alphabet and no padding (section 5 of RFC 4648). */
  function Base64UrlEncode(bytes: seq<Base64.Byte>): (r: string)
    ensures forall i :: 0 <= i < |r| ==> Base64.IsUrlSafeChar(r[i])
  {
    Base64.Latin1RoundTrip(Base64.Latin1String(bytes));
    Base64.UrlSafeAlphabet(bytes);
    Base64.UrlSafeNoPad(Base64.Btoa(Base64.Latin1String(bytes)).value)
  }

  /** The URL-safe text decodes back to the bytes once alphabet and padding are restored. */
  lemma Base64UrlDecodes(bytes: seq<Base64.Byte>)
    ensures Base64.Atob(Base64.RestoreStandard(Base64UrlEncode(bytes))) == Some(Base64.Latin1String(bytes))
  {
    Base64.Latin1RoundTrip(Base64.Latin1String(bytes));
    assert Base64.Latin1Bytes(Base64.Latin1String(bytes)) == bytes;
    Base64.UrlSafeRoundTrip(bytes);
  }

  /** `generateCodeChallenge`: the S256 method of section 4.2 of RFC 7636,
      `BASE64URL(SHA256(ASCII(code_verifier)))`. */
  function CodeChallenge(verifier: string, sha256: seq<Base64.Byte> -> seq<Base64.Byte>): (c: string)
    ensures forall i :: 0 <= i < |c| ==> c[i] != '+' && c[i] != '/' && c[i] != '='
  {
    Base64UrlEncode(sha256(Utf8Encode(verifier)))
  }

  /** The challenge carries the digest of the verifier's ASCII bytes, which is
      what the server recomputes under section 4.6 of RFC 7636. */
  lemma ChallengeCarriesDigest(verifier: string, sha256: seq<Base64.Byte> -> seq<Base64.Byte>)
    requires IsCodeVerifier(verifier)
    ensures Base64.Atob(Base64.RestoreStandard(CodeChallenge(verifier, sha256)))
      == Some(Base64.Latin1String(sha256(seq(|verifier|, i requires 0 <= i < |verifier| => verifier[i] as int))))
  {
    forall i | 0 <= i < |verifier| ensures verifier[i] as int < 128 {
      assert IsUnreserved(verifier[i]);
    }
    Utf8OfAscii(verifier);
    Base64UrlDecodes(sha256(Utf8Encode(verifier)));
  }

  // ---------------------------------------------------------------------------
  // Requests and replies

  /** The authorization request `authenticateSpotify` redirects to
      (section 4.1.1 of RFC 6749, section 4.3 of RFC 7636). */
  datatype AuthorizeRequest = AuthorizeRequest(
    clientId: string, responseType: string, redirectUri: string,
    scope: string, codeChallengeMethod: string, codeChallenge: string)

  /** The form posted to the token endpoint. */
  datatype TokenRequest =
    | AuthorizationCodeGrant(clientId: string, code: string, redirectUri: string, codeVerifier: string)
    | RefreshTokenGrant(clientId: string, refreshToken: string)

  /** The JSON body of a token reply; a missing member is `None`. */
  datatype TokenBody = TokenBody(accessToken: Option<string>, refreshToken: Option<string>, expiresIn: Option<int>)

  /** A token endpoint response: `response.ok` and its parsed body. */
  datatype TokenReply = TokenReply(ok: bool, body: TokenBody)

  /** The options a caller passes to `makeSpotifyRequest`. */
  datatype RequestOptions = RequestOptions(httpMethod: Option<string>, body: Option<string>, headers: map<string, string>)

  /** One `fetch` of the Web API. */
  datatype ApiRequest = ApiRequest(url: string, httpMethod: Option<string>, body: Option<string>, headers: map<string, string>)

  /** A Web API response, passed back to the caller untouched. */
  datatype ApiResponse = ApiResponse(status: int, payload: string)

  /** A JavaScript value in a template literal or in `setItem`: `undefined`
      becomes the text "undefined". */
  function JsString(v: Option<string>): string {
    match v
    case None => "undefined"
    case Some(s) => s
  }

  /** `localStorage.getItem(key)` is truthy: present and non-empty. */
  predicate HasValue(store: map<string, string>, key: string) {
    key in store && store[key] != ""
  }

  /** `Date.now() + data.expires_in * 1000` as `setItem` stores it; a missing
      `expires_in` makes it `NaN`. */
  function ExpiryText(now: int, expiresIn: Option<int>): string {
    match expiresIn
    case None => "NaN"
    case Some(e) => Decimal.IntToString(now + e * 1000)
  }

  /** The headers of every Web API call: the defaults, then the caller's headers,
      which win on a shared name. */
  function Headers(token: string, caller: map<string, string>): (h: map<string, string>)
    ensures h.Keys == caller.Keys + {"Authorization", "Content-Type"}
    ensures forall name :: name in caller ==> h[name] == caller[name]
  {
    map["Authorization" := "Bearer " + token, "Content-Type" := "application/json"] + caller
  }

  /** The `fetch` `makeSpotifyRequest` issues with `token`. */
  function ApiCall(endpoint: string, options: RequestOptions, token: string): ApiRequest {
    ApiRequest(ApiBase + endpoint, options.httpMethod, options.body, Headers(token, options.headers))
  }

  /** A caller's header replaces the default of the same name, `Authorization`
      included; without one the bearer token and the JSON content type are sent;
      nothing else is added. */
  lemma HeadersMerge(token: string, caller: map<string, string>)
    ensures "Authorization" in caller ==> Headers(token, caller)["Authorization"] == caller["Authorization"]
    ensures "Authorization" !in caller ==> Headers(token, caller)["Authorization"] == "Bearer " + token
    ensures "Content-Type" !in caller ==> Headers(token, caller)["Content-Type"] == "application/json"
    ensures forall k :: k in Headers(token, caller) <==> k in caller || k == "Authorization" || k == "Content-Type"
    ensures forall k :: k in caller ==> Headers(token, caller)[k] == caller[k]
  {
  }

  // ---------------------------------------------------------------------------
  // The token store

  /** `getStoredAccessToken`: the stored token while it has not expired; `None`
      when either key is missing or empty, or once `now` is past the expiry.
      An expiry `parseInt` cannot read is `NaN`, and `now > NaN` is false. */
  function StoredAccessToken(store: map<string, string>, now: int): (r: Option<string>)
    ensures r.Some? ==> HasValue(store, ExpiresAtKey) && HasValue(store, AccessTokenKey) && r.value == store[AccessTokenKey]
    ensures r.None? && HasValue(store, AccessTokenKey) && HasValue(store, ExpiresAtKey) ==>
      Decimal.ParseInt(store[ExpiresAtKey]).Some? && now > Decimal.ParseInt(store[ExpiresAtKey]).value
  {
    if !HasValue(store, AccessTokenKey) || !HasValue(store, ExpiresAtKey) then None
    else
      match Decimal.ParseInt(store[ExpiresAtKey])
      case None => Some(store[AccessTokenKey])
      case Some(expiresAt) => if now > expiresAt then None else Some(store[AccessTokenKey])
  }

  /** Without a token or an expiry there is nothing to return; whatever is
      returned is the stored token. */
  lemma StoredTokenNeedsBoth(store: map<string, string>, now: int)
    ensures !HasValue(store, AccessTokenKey) ==> StoredAccessToken(store, now).None?
    ensures !HasValue(store, ExpiresAtKey) ==> StoredAccessToken(store, now).None?
    ensures StoredAccessToken(store, now).Some? ==> StoredAccessToken(store, now).value == store[AccessTokenKey] != ""
  {
  }

  /** With a readable expiry the token is returned exactly up to and including
      the expiry instant: the comparison is a strict `>`. */
  lemma StoredTokenExpiry(store: map<string, string>, now: int, token: string, expiresAt: int)
    requires store.Keys >= {AccessTokenKey, ExpiresAtKey}
    requires store[AccessTokenKey] == token && token != ""
    requires store[ExpiresAtKey] == Decimal.IntToString(expiresAt)
    ensures StoredAccessToken(store, now) == Some(token) <==> now <= expiresAt
    ensures StoredAccessToken(store, now) == None <==> now > expiresAt
  {
    Decimal.ParseIntToString(expiresAt);
    assert store[ExpiresAtKey] != "" by {
      if expiresAt >= 0 {
        assert |Decimal.NatToString(expiresAt)| >= 1;
      }
    }
  }

  /** An expiry `parseInt` cannot read never expires the token. */
  lemma UnreadableExpiryNeverExpires(store: map<string, string>, now: int)
    requires HasValue(store, AccessTokenKey) && HasValue(store, ExpiresAtKey)
    requires Decimal.ParseInt(store[ExpiresAtKey]).None?
    ensures StoredAccessToken(store, now) == Some(store[AccessTokenKey])
  {
  }

  /** The store once a code exchange succeeds: both tokens and the expiry written
      (missing members as "undefined" and "NaN"), the verifier removed. */
  function AfterExchange(store: map<string, string>, now: int, body: TokenBody): map<string, string> {
    store[AccessTokenKey := JsString(body.accessToken)]
         [RefreshTokenKey := JsString(body.refreshToken)]
         [ExpiresAtKey := ExpiryText(now, body.expiresIn)]
    - {CodeVerifierKey}
  }

  /** The store once a refresh succeeds: the access token and expiry
      overwritten, the refresh token replaced only when the reply has a
      non-empty one (section 6 of RFC 6749 lets the server keep the old one). */
  function AfterRefresh(store: map<string, string>, now: int, body: TokenBody): map<string, string> {
    var written := store[AccessTokenKey := JsString(body.accessToken)][ExpiresAtKey := ExpiryText(now, body.expiresIn)];
    if body.refreshToken.Some? && body.refreshToken.value != "" then written[RefreshTokenKey := body.refreshToken.value]
    else written
  }

  /** What one token-endpoint call does: its result, the store afterwards, and
      the form it posted (`None` when it threw before posting). */
  datatype TokenStep<T> = TokenStep(result: Result<T>, store: map<string, string>, sent: Option<TokenRequest>)

  /** `getAccessToken(code)` on `store`, the endpoint answering `reply`. */
  function Exchange(store: map<string, string>, code: string, redirectUri: string, now: int,
                    reply: Result<TokenReply>): (r: TokenStep<TokenBody>)
    ensures r.sent.None? <==> !HasValue(store, CodeVerifierKey)
    ensures r.result.Err? ==> r.store == store
    ensures r.result.Ok? ==> CodeVerifierKey !in r.store && r.store.Keys >= {AccessTokenKey, RefreshTokenKey, ExpiresAtKey}
  {
    if !HasValue(store, CodeVerifierKey) then TokenStep(Err(Thrown(NoVerifierMessage)), store, None)
    else
      var sent := Some(AuthorizationCodeGrant(ClientId, code, redirectUri, store[CodeVerifierKey]));
      match reply
      case Err(e) => TokenStep(Err(e), store, sent)
      case Ok(response) =>
        if !response.ok then TokenStep(Err(Thrown(ExchangeFailedMessage)), store, sent)
        else TokenStep(Ok(response.body), AfterExchange(store, now, response.body), sent)
  }

  /** `refreshAccessToken()` on `store`, the endpoint answering `reply`; the
      result is `data.access_token`, possibly `undefined`. */
  function Refresh(store: map<string, string>, now: int, reply: Result<TokenReply>): (r: TokenStep<Option<string>>)
    ensures r.sent.None? <==> !HasValue(store, RefreshTokenKey)
    ensures r.result.Err? ==> r.store == store
    ensures r.result.Ok? ==> AccessTokenKey in r.store && r.store[AccessTokenKey] == JsString(r.result.value)
    ensures r.result.Ok? ==> HasValue(r.store, RefreshTokenKey)
  {
    if !HasValue(store, RefreshTokenKey) then TokenStep(Err(Thrown(NoRefreshTokenMessage)), store, None)
    else
      var sent := Some(RefreshTokenGrant(ClientId, store[RefreshTokenKey]));
      match reply
      case Err(e) => TokenStep(Err(e), store, sent)
      case Ok(response) =>
        if !response.ok then TokenStep(Err(Thrown(RefreshFailedMessage)), store, sent)
        else TokenStep(Ok(response.body.accessToken), AfterRefresh(store, now, response.body), sent)
  }

  /** Every failed exchange leaves the store as it was; without a verifier it
      fails before anything is posted; otherwise the posted form carries the
      stored verifier (section 4.5 of RFC 7636). */
  lemma ExchangeFailures(store: map<string, string>, code: string, redirectUri: string, now: int, reply: Result<TokenReply>)
    ensures Exchange(store, code, redirectUri, now, reply).result.Err? ==> Exchange(store, code, redirectUri, now, reply).store == store
    ensures !HasValue(store, CodeVerifierKey) <==> Exchange(store, code, redirectUri, now, reply).sent.None?
    ensures !HasValue(store, CodeVerifierKey) ==> Exchange(store, code, redirectUri, now, reply).result == Err(Thrown(NoVerifierMessage))
    ensures HasValue(store, CodeVerifierKey) ==>
      Exchange(store, code, redirectUri, now, reply).sent.value.codeVerifier == store[CodeVerifierKey]
    ensures HasValue(store, CodeVerifierKey) && reply.Ok? && !reply.value.ok ==>
      Exchange(store, code, redirectUri, now, reply).result == Err(Thrown(ExchangeFailedMessage))
  {
  }

  /** A successful exchange writes the three token keys, drops the verifier and
      keeps every other key as it was. */
  lemma ExchangeWrites(store: map<string, string>, now: int, body: TokenBody)
    ensures AfterExchange(store, now, body).Keys == store.Keys + {AccessTokenKey, RefreshTokenKey, ExpiresAtKey} - {CodeVerifierKey}
    ensures AfterExchange(store, now, body)[AccessTokenKey] == JsString(body.accessToken)
    ensures AfterExchange(store, now, body)[RefreshTokenKey] == JsString(body.refreshToken)
    ensures AfterExchange(store, now, body)[ExpiresAtKey] == ExpiryText(now, body.expiresIn)
    ensures forall k :: k in store && k !in {AccessTokenKey, RefreshTokenKey, ExpiresAtKey, CodeVerifierKey} ==>
      AfterExchange(store, now, body)[k] == store[k]
  {
  }

  /** Right after an exchange granting `token` for `e` seconds, the stored token
      is returned until `now + e * 1000` inclusive and not after. */
  lemma TokenValidAfterExchange(store: map<string, string>, now: int, token: string, e: int, refresh: Option<string>, later: int)
    requires token != ""
    ensures var s := AfterExchange(store, now, TokenBody(Some(token), refresh, Some(e)));
      StoredAccessToken(s, later) == (if later <= now + e * 1000 then Some(token) else None)
  {
    var s := AfterExchange(store, now, TokenBody(Some(token), refresh, Some(e)));
    StoredTokenExpiry(s, later, token, now + e * 1000);
  }

  /** Every failed refresh leaves the store as it was; without a refresh token it
      fails before anything is posted. */
  lemma RefreshFailures(store: map<string, string>, now: int, reply: Result<TokenReply>)
    ensures Refresh(store, now, reply).result.Err? ==> Refresh(store, now, reply).store == store
    ensures !HasValue(store, RefreshTokenKey) <==> Refresh(store, now, reply).sent.None?
    ensures !HasValue(store, RefreshTokenKey) ==> Refresh(store, now, reply).result == Err(Thrown(NoRefreshTokenMessage))
    ensures HasValue(store, RefreshTokenKey) ==>
      Refresh(store, now, reply).sent == Some(RefreshTokenGrant(ClientId, store[RefreshTokenKey]))
    ensures HasValue(store, RefreshTokenKey) && reply.Ok? && !reply.value.ok ==>
      Refresh(store, now, reply).result == Err(Thrown(RefreshFailedMessage))
    ensures Refresh(store, now, reply).result.Ok? <==> HasValue(store, RefreshTokenKey) && reply.Ok? && reply.value.ok
  {
  }

  /** A successful refresh overwrites the access token and the expiry, replaces
      the refresh token only when a non-empty one came back, and keeps every
      other key, the verifier included. */
  lemma RefreshWrites(store: map<string, string>, now: int, body: TokenBody)
    requires HasValue(store, RefreshTokenKey)
    ensures AfterRefresh(store, now, body).Keys == store.Keys + {AccessTokenKey, ExpiresAtKey}
    ensures AfterRefresh(store, now, body)[AccessTokenKey] == JsString(body.accessToken)
    ensures AfterRefresh(store, now, body)[ExpiresAtKey] == ExpiryText(now, body.expiresIn)
    ensures AfterRefresh(store, now, body)[RefreshTokenKey]
      == if body.refreshToken.Some? && body.refreshToken.value != "" then body.refreshToken.value else store[RefreshTokenKey]
    ensures HasValue(AfterRefresh(store, now, body), RefreshTokenKey)
    ensures forall k :: k in store && k !in {AccessTokenKey, RefreshTokenKey, ExpiresAtKey} ==>
      AfterRefresh(store, now, body)[k] == store[k]
  {
  }

  /** Right after a refresh granting `token` for `e` seconds, the stored token
      is returned until `now + e * 1000` inclusive and not after. */
  lemma TokenValidAfterRefresh(store: map<string, string>, now: int, token: string, e: int, refresh: Option<string>, later: int)
    requires token != ""
    ensures var s := AfterRefresh(store, now, TokenBody(Some(token), refresh, Some(e)));
      StoredAccessToken(s, later) == (if later <= now + e * 1000 then Some(token) else None)
  {
    var s := AfterRefresh(store, now, TokenBody(Some(token), refresh, Some(e)));
    StoredTokenExpiry(s, later, token, now + e * 1000);
  }

  // ---------------------------------------------------------------------------
  // The authenticated request wrapper

  /** What one `makeSpotifyRequest` call does: its result, the store afterwards,
      the Web API calls it made in order, and how many refreshes it ran. */
  datatype RequestRun = RequestRun(result: Result<ApiResponse>, store: map<string, string>, fetches: seq<ApiRequest>, refreshes: nat)

  /** `makeSpotifyRequest(endpoint, options)`: refresh first when no valid token is
      stored, call the API, and on a 401 refresh once more and retry once. Refresh
      `k` of the call gets `tokenServer(k)`, API call `k` gets `apiServer(k)`. */
  function SpotifyRequest(store: map<string, string>, endpoint: string, options: RequestOptions, now: int,
                          tokenServer: nat -> Result<TokenReply>, apiServer: nat -> Result<ApiResponse>): (r: RequestRun)
    ensures |r.fetches| <= 2 && r.refreshes <= 2
    ensures r.fetches == [] ==> r.result == Err(Thrown(AuthRequiredMessage))
    ensures |r.fetches| == 2 ==> r.refreshes >= 1
  {
    match StoredAccessToken(store, now)
    case Some(token) => CallWithToken(store, token, 0, endpoint, options, now, tokenServer, apiServer)
    case None =>
      var step := Refresh(store, now, tokenServer(0));
      if step.result.Err? then RequestRun(Err(Thrown(AuthRequiredMessage)), step.store, [], 1)
      else CallWithToken(step.store, JsString(step.result.value), 1, endpoint, options, now, tokenServer, apiServer)
  }

  /** `SpotifyRequest` one step at a time: a stored token goes straight to the
      call; otherwise a refresh comes first, and a failed refresh ends the run. */
  lemma SpotifyRequestSteps(store: map<string, string>, endpoint: string, options: RequestOptions, now: int,
                            tokenServer: nat -> Result<TokenReply>, apiServer: nat -> Result<ApiResponse>)
    ensures var stored := StoredAccessToken(store, now);
      var run := SpotifyRequest(store, endpoint, options, now, tokenServer, apiServer);
      && (stored.Some? ==> run == CallWithToken(store, stored.value, 0, endpoint, options, now, tokenServer, apiServer))
      && (stored.None? ==>
            var step := Refresh(store, now, tokenServer(0));
            run == if step.result.Err? then RequestRun(Err(Thrown(AuthRequiredMessage)), step.store, [], 1)
                   else CallWithToken(step.store, JsString(step.result.value), 1, endpoint, options, now, tokenServer, apiServer))
  {
  }

  /** The part of `makeSpotifyRequest` after a token is in hand. */
  function CallWithToken(store: map<string, string>, token: string, refreshes: nat, endpoint: string,
                         options: RequestOptions, now: int,
                         tokenServer: nat -> Result<TokenReply>, apiServer: nat -> Result<ApiResponse>): (r: RequestRun)
    ensures 1 <= |r.fetches| <= 2 && r.fetches[0] == ApiCall(endpoint, options, token)
    ensures r.refreshes == refreshes || r.refreshes == refreshes + 1
    ensures |r.fetches| == 2 ==> r.refreshes == refreshes + 1
  {
    var first := ApiCall(endpoint, options, token);
    match apiServer(0)
    case Err(e) => RequestRun(Err(e), store, [first], refreshes)
    case Ok(response) =>
      if response.status != 401 then RequestRun(Ok(response), store, [first], refreshes)
      else
        var step := Refresh(store, now, tokenServer(refreshes));
        if step.result.Err? then RequestRun(Err(Thrown(AuthRequiredMessage)), step.store, [first], refreshes + 1)
        else
          var retry := ApiCall(endpoint, options, JsString(step.result.value));
          match apiServer(1)
          case Err(_) => RequestRun(Err(Thrown(AuthRequiredMessage)), step.store, [first, retry], refreshes + 1)
          case Ok(retried) => RequestRun(Ok(retried), step.store, [first, retry], refreshes + 1)
  }

  /** Once a token is in hand: one or two API calls, at most one more refresh,
      both only after a 401; the first call carries that token; failures are
      `Authentication required` unless the first call got no response. */
  lemma CallWithTokenFacts(store: map<string, string>, token: string, refreshes: nat, endpoint: string,
                           options: RequestOptions, now: int,
                           tokenServer: nat -> Result<TokenReply>, apiServer: nat -> Result<ApiResponse>)
    ensures var run := CallWithToken(store, token, refreshes, endpoint, options, now, tokenServer, apiServer);
      var unauthorized := apiServer(0).Ok? && apiServer(0).value.status == 401;
      && 1 <= |run.fetches| <= 2
      && run.fetches[0] == ApiCall(endpoint, options, token)
      && (|run.fetches| == 2 ==>
            var step := Refresh(store, now, tokenServer(refreshes));
            && unauthorized && step.result.Ok?
            && run.fetches[1] == ApiCall(endpoint, options, JsString(step.result.value))
            && run.store == step.store && run.store[AccessTokenKey] == JsString(step.result.value))
      && run.refreshes == (if unauthorized then refreshes + 1 else refreshes)
      && (run.result.Err? ==>
            run.result.error == Thrown(AuthRequiredMessage) || (run.result == apiServer(0) && |run.fetches| == 1))
  {
    var run := CallWithToken(store, token, refreshes, endpoint, options, now, tokenServer, apiServer);
  }

  /** At most two refreshes and two API calls; a second call or a second refresh
      only after a 401; no refresh at all exactly when a valid token was stored
      and no 401 came back; every call goes to the endpoint with the caller's
      options and the merged headers. */
  lemma RequestBounds(store: map<string, string>, endpoint: string, options: RequestOptions, now: int,
                      tokenServer: nat -> Result<TokenReply>, apiServer: nat -> Result<ApiResponse>)
    ensures var run := SpotifyRequest(store, endpoint, options, now, tokenServer, apiServer);
      var unauthorized := apiServer(0).Ok? && apiServer(0).value.status == 401;
      && |run.fetches| <= 2 && run.refreshes <= 2
      && (|run.fetches| == 2 ==> unauthorized)
      && (run.refreshes == 2 ==> unauthorized)
      && (run.refreshes == 0 <==> StoredAccessToken(store, now).Some? && !unauthorized)
      && (StoredAccessToken(store, now).Some? && run.fetches != [] ==>
            run.fetches[0] == ApiCall(endpoint, options, StoredAccessToken(store, now).value))
      && (StoredAccessToken(store, now).None? && run.fetches != [] ==>
            Refresh(store, now, tokenServer(0)).result.Ok?
            && run.fetches[0] == ApiCall(endpoint, options, JsString(Refresh(store, now, tokenServer(0)).result.value)))
      && (|run.fetches| == 2 ==>
            AccessTokenKey in run.store && run.fetches[1] == ApiCall(endpoint, options, run.store[AccessTokenKey]))
  {
    match StoredAccessToken(store, now)
    case Some(token) =>
      CallWithTokenFacts(store, token, 0, endpoint, options, now, tokenServer, apiServer);
    case None =>
      var step := Refresh(store, now, tokenServer(0));
      if step.result.Ok? {
        CallWithTokenFacts(step.store, JsString(step.result.value), 1, endpoint, options, now, tokenServer, apiServer);
      }
  }

  /** A first response other than 401 is handed back untouched, after exactly
      one API call and with no refresh beyond the one a missing token needed. */
  lemma FirstResponseReturned(store: map<string, string>, endpoint: string, options: RequestOptions, now: int,
                              tokenServer: nat -> Result<TokenReply>, apiServer: nat -> Result<ApiResponse>)
    requires apiServer(0).Ok? && apiServer(0).value.status != 401
    ensures var run := SpotifyRequest(store, endpoint, options, now, tokenServer, apiServer);
      run.fetches != [] ==> run.result == apiServer(0) && |run.fetches| == 1
    ensures StoredAccessToken(store, now).Some? ==>
      SpotifyRequest(store, endpoint, options, now, tokenServer, apiServer)
        == RequestRun(apiServer(0), store, [ApiCall(endpoint, options, StoredAccessToken(store, now).value)], 0)
  {
  }

  /** After a 401 the call refreshes once and retries once; whatever the retry
      answers, 401 included, is returned as it is. */
  lemma UnauthorizedRetriedOnce(store: map<string, string>, endpoint: string, options: RequestOptions, now: int,
                                tokenServer: nat -> Result<TokenReply>, apiServer: nat -> Result<ApiResponse>)
    requires apiServer(0).Ok? && apiServer(0).value.status == 401
    requires apiServer(1).Ok?
    ensures var run := SpotifyRequest(store, endpoint, options, now, tokenServer, apiServer);
      run.fetches != [] ==>
        && run.refreshes == (if StoredAccessToken(store, now).Some? then 1 else 2)
        && (|run.fetches| == 2 <==> run.result == apiServer(1))
        && (|run.fetches| == 1 <==> run.result == Err(Thrown(AuthRequiredMessage)))
    ensures var run := SpotifyRequest(store, endpoint, options, now, tokenServer, apiServer);
      var before := StoredAccessToken(store, now);
      var upFront := Refresh(store, now, tokenServer(0));
      var inHand := if before.Some? then store else upFront.store;
      var again := Refresh(inHand, now, tokenServer(if before.Some? then 0 else 1));
      |run.fetches| == 2 ==>
        && again.result.Ok?
        && run.fetches[1] == ApiCall(endpoint, options, JsString(again.result.value))
        && run.store == again.store
  {
    var before := StoredAccessToken(store, now);
    if before.Some? {
      CallWithTokenFacts(store, before.value, 0, endpoint, options, now, tokenServer, apiServer);
    } else {
      var upFront := Refresh(store, now, tokenServer(0));
      if upFront.result.Ok? {
        CallWithTokenFacts(upFront.store, JsString(upFront.result.value), 1, endpoint, options, now, tokenServer, apiServer);
      }
    }
  }

  /** Every failure is `Authentication required`, except a first API call that
      gets no response at all, whose rejection passes through. No API call is
      made only when the token was missing or expired and the refresh failed. */
  lemma RequestFailures(store: map<string, string>, endpoint: string, options: RequestOptions, now: int,
                        tokenServer: nat -> Result<TokenReply>, apiServer: nat -> Result<ApiResponse>)
    ensures var run := SpotifyRequest(store, endpoint, options, now, tokenServer, apiServer);
      run.result.Err? ==>
        run.result.error == Thrown(AuthRequiredMessage)
        || (run.result == apiServer(0) && |run.fetches| == 1)
    ensures var run := SpotifyRequest(store, endpoint, options, now, tokenServer, apiServer);
      run.fetches == [] <==>
        (run.result == Err(Thrown(AuthRequiredMessage)) && run.refreshes == 1 && StoredAccessToken(store, now).None?
         && Refresh(store, now, tokenServer(0)).result.Err?)
  {
    match StoredAccessToken(store, now)
    case Some(token) =>
      CallWithTokenFacts(store, token, 0, endpoint, options, now, tokenServer, apiServer);
    case None =>
      var step := Refresh(store, now, tokenServer(0));
      if step.result.Ok? {
        CallWithTokenFacts(step.store, JsString(step.result.value), 1, endpoint, options, now, tokenServer, apiServer);
      }
  }

  // ---------------------------------------------------------------------------
  // Logout

  /** The four keys the session owns. */
  const SessionKeys: set<string> := {AccessTokenKey, RefreshTokenKey, ExpiresAtKey, CodeVerifierKey}

  /** The store after `logout`. */
  function LoggedOut(store: map<string, string>): map<string, string> {
    store - SessionKeys
  }

  /** Logging out removes exactly the session's keys, keeps the rest, and a
      second logout changes nothing. Afterwards there is no token, a refresh
      fails before posting, and so does a code exchange. */
  lemma LogoutProperties(store: map<string, string>, now: int, code: string, redirectUri: string, reply: Result<TokenReply>)
    ensures LoggedOut(store).Keys == store.Keys - SessionKeys
    ensures forall k :: k in LoggedOut(store) ==> LoggedOut(store)[k] == store[k]
    ensures LoggedOut(LoggedOut(store)) == LoggedOut(store)
    ensures StoredAccessToken(LoggedOut(store), now).None?
    ensures Refresh(LoggedOut(store), now, reply).result == Err(Thrown(NoRefreshTokenMessage))
    ensures Exchange(LoggedOut(store), code, redirectUri, now, reply).result == Err(Thrown(NoVerifierMessage))
  {
  }

  // ---------------------------------------------------------------------------
  // The session object over `localStorage`

  class Session {
    /** `localStorage`. */
    var store: map<string, string>
    /** `REDIRECT_URI`, fixed when the module loads. */
    const redirectUri: string

    constructor(hostname: string, initial: map<string, string>)
      ensures store == initial && redirectUri == RedirectUri(hostname)
    {
      store := initial;
      redirectUri := RedirectUri(hostname);
    }

    /** `authenticateSpotify`: stores a fresh verifier and returns the
        authorization request carrying its S256 challenge. */
    method Authenticate(random: nat -> AlphabetIndex, sha256: seq<Base64.Byte> -> seq<Base64.Byte>)
      returns (request: AuthorizeRequest)
      modifies this
      ensures CodeVerifierKey in store && store == old(store)[CodeVerifierKey := store[CodeVerifierKey]]
      ensures IsCodeVerifier(store[CodeVerifierKey]) && |store[CodeVerifierKey]| == VerifierLength
      ensures forall i :: 0 <= i < VerifierLength ==> store[CodeVerifierKey][i] == PossibleChars[random(i)]
      ensures request == AuthorizeRequest(ClientId, "code", redirectUri, Scope(), "S256",
                                          CodeChallenge(store[CodeVerifierKey], sha256))
    {
      var verifier := GenerateRandomString(VerifierLength, random);
      GeneratedVerifierIsValid(verifier, random);
      var challenge := CodeChallenge(verifier, sha256);
      store := store[CodeVerifierKey := verifier];
      request := AuthorizeRequest(ClientId, "code", redirectUri, Scope(), "S256", challenge);
    }

    /** `getAccessToken(code)`. */
    method GetAccessToken(code: string, now: int, reply: Result<TokenReply>)
      returns (r: Result<TokenBody>, sent: Option<TokenRequest>)
      modifies this
      ensures var step := Exchange(old(store), code, redirectUri, now, reply);
        r == step.result && store == step.store && sent == step.sent
    {
      if !HasValue(store, CodeVerifierKey) {
        return Err(Thrown(NoVerifierMessage)), None;
      }
      var codeVerifier := store[CodeVerifierKey];
      sent := Some(AuthorizationCodeGrant(ClientId, code, redirectUri, codeVerifier));
      if reply.Err? {
        return Err(reply.error), sent;
      }
      if !reply.value.ok {
        return Err(Thrown(ExchangeFailedMessage)), sent;
      }
      var data := reply.value.body;
      store := store[AccessTokenKey := JsString(data.accessToken)];
      store := store[RefreshTokenKey := JsString(data.refreshToken)];
      store := store[ExpiresAtKey := ExpiryText(now, data.expiresIn)];
      store := store - {CodeVerifierKey};
      r := Ok(data);
    }

    /** `refreshAccessToken()`. */
    method RefreshAccessToken(now: int, reply: Result<TokenReply>)
      returns (r: Result<Option<string>>, sent: Option<TokenRequest>)
      modifies this
      ensures var step := Refresh(old(store), now, reply);
        r == step.result && store == step.store && sent == step.sent
    {
      if !HasValue(store, RefreshTokenKey) {
        return Err(Thrown(NoRefreshTokenMessage)), None;
      }
      sent := Some(RefreshTokenGrant(ClientId, store[RefreshTokenKey]));
      if reply.Err? {
        return Err(reply.error), sent;
      }
      if !reply.value.ok {
        return Err(Thrown(RefreshFailedMessage)), sent;
      }
      var data := reply.value.body;
      store := store[AccessTokenKey := JsString(data.accessToken)];
      store := store[ExpiresAtKey := ExpiryText(now, data.expiresIn)];
      if data.refreshToken.Some? && data.refreshToken.value != "" {
        store := store[RefreshTokenKey := data.refreshToken.value];
      }
      r := Ok(data.accessToken);
    }

    /** `makeSpotifyRequest(endpoint, options)`. */
    method MakeSpotifyRequest(endpoint: string, options: RequestOptions, now: int,
                              tokenServer: nat -> Result<TokenReply>, apiServer: nat -> Result<ApiResponse>)
      returns (r: Result<ApiResponse>, fetches: seq<ApiRequest>, refreshes: nat)
      modifies this
      ensures var run := SpotifyRequest(old(store), endpoint, options, now, tokenServer, apiServer);
        r == run.result && store == run.store && fetches == run.fetches && refreshes == run.refreshes
    {
      ghost var expected := SpotifyRequest(store, endpoint, options, now, tokenServer, apiServer);
      SpotifyRequestSteps(store, endpoint, options, now, tokenServer, apiServer);
      fetches := [];
      refreshes := 0;
      var token: string;
      var stored := StoredAccessToken(store, now);
      if stored.None? {
        var refreshed, _ := RefreshAccessToken(now, tokenServer(refreshes));
        refreshes := refreshes + 1;
        if refreshed.Err? {
          r := Err(Thrown(AuthRequiredMessage));
          assert expected == RequestRun(r, store, fetches, refreshes);
          return;
        }
        token := JsString(refreshed.value);
      } else {
        token := stored.value;
      }
      // From here on the run is `CallWithToken` with the token in hand.
      assert expected == CallWithToken(store, token, refreshes, endpoint, options, now, tokenServer, apiServer);
      r, fetches, refreshes := CallWithTokenInHand(token, refreshes, endpoint, options, now, tokenServer, apiServer);
    }

    /** The rest of `makeSpotifyRequest` once a token is in hand: the call,
        and after a 401 one refresh and one retry. */
    method CallWithTokenInHand(token: string, refreshes: nat, endpoint: string, options: RequestOptions, now: int,
                               tokenServer: nat -> Result<TokenReply>, apiServer: nat -> Result<ApiResponse>)
      returns (r: Result<ApiResponse>, fetches: seq<ApiRequest>, refreshesAfter: nat)
      modifies this
      ensures var run := CallWithToken(old(store), token, refreshes, endpoint, options, now, tokenServer, apiServer);
        r == run.result && store == run.store && fetches == run.fetches && refreshesAfter == run.refreshes
    {
      refreshesAfter := refreshes;
      fetches := [ApiCall(endpoint, options, token)];
      var response := apiServer(0);
      if response.Err? || response.value.status != 401 {
        r := response;
        return;
      }
      var refreshed, _ := RefreshAccessToken(now, tokenServer(refreshesAfter));
      refreshesAfter := refreshesAfter + 1;
      if refreshed.Err? {
        r := Err(Thrown(AuthRequiredMessage));
        return;
      }
      fetches := fetches + [ApiCall(endpoint, options, JsString(refreshed.value))];
      var retried := apiServer(1);
      if retried.Err? {
        r := Err(Thrown(AuthRequiredMessage));
        return;
      }
      r := retried;
    }

    /** `logout()`. */
    method Logout()
      modifies this
      ensures store == LoggedOut(old(store))
    {
      store := store - {AccessTokenKey};
      store := store - {RefreshTokenKey};
      store := store - {ExpiresAtKey};
      store := store - {CodeVerifierKey};
    }
  }

  /** The verifier `authenticateSpotify` stores is the one the later exchange
      posts, and its challenge is the one the authorization request sent: the
      binding section 4.6 of RFC 7636 relies on. */
  lemma PkceBinding(store: map<string, string>, verifier: string, sha256: seq<Base64.Byte> -> seq<Base64.Byte>,
                    code: string, redirectUri: string, now: int, reply: Result<TokenReply>)
    requires IsCodeVerifier(verifier)
    ensures var step := Exchange(store[CodeVerifierKey := verifier], code, redirectUri, now, reply);
      && step.sent == Some(AuthorizationCodeGrant(ClientId, code, redirectUri, verifier))
      && CodeChallenge(step.sent.value.codeVerifier, sha256) == CodeChallenge(verifier, sha256)
      && (step.result.Ok? ==> CodeVerifierKey !in step.store)
  {
  }
}
