/** The OAuth2 authorization-code-with-PKCE token manager. Time (`Date.now()`)
    is the parameter `now`, in milliseconds; the token endpoint's answers are
    parameters; the random bytes and the SHA-256 digest of PKCE are inputs. The
    pending-request slot is sequential state: a request is issued or joined by
    RequestToken, and its answer arrives in Settle. */
module OAuth {
  import opened Wrappers
  import opened Base64

  const TOKEN_URL: string := "https://api.teslemetry.com/oauth/token"
  const AUTHORIZATION_URL: string := "https://teslemetry.com/connect"
  const REDIRECT_URL: string := "https://callback.athom.com/oauth2/callback"
  const CLIENT_ID: string := "homey"
  const SETTINGS_KEY: string := "teslemetry_oauth2_token"

  /** A token is refreshed when it expires within this many milliseconds. */
  const REFRESH_MARGIN: int := 60000
  const DEFAULT_EXPIRES_IN: int := 3600
  const DEFAULT_TOKEN_TYPE: string := "Bearer"

  /** `OAuth2Token`. `expires_at` is None when it is `undefined` or `NaN`; both,
      and 0, are falsy. An absent refresh token is "". */
  datatype Token = Token(
    access_token: string,
    refresh_token: string,
    expires_in: int,
    token_type: string,
    expires_at: Option<int>)

  /** `!!token.expires_at` */
  predicate HasExpiry(t: Token) {
    t.expires_at.Some? && t.expires_at.value != 0
  }

  /** The parsed answer of the token endpoint. Absent strings are "". */
  datatype GrantResponse = GrantResponse(
    ok: bool,
    error: Option<string>,
    access_token: string,
    refresh_token: string,
    expires_in: Option<int>,
    token_type: string)

  /** The body of a token request. `name` is the result of the system-name lookup (null when it fails). */
  datatype GrantBody =
    | AuthorizationCodeGrant(code: string, code_verifier: string, name: Option<string>)
    | RefreshTokenGrant(refresh_token: string, name: Option<string>)

  datatype AuthError =
    | NoTokenError           // "No OAuth2 token available"
    | NoRefreshTokenError    // "No refresh token available"
    | ErrorResponse(error: Option<string>)  // a non-2xx answer; the request fails
    | InvalidTokenResponse   // "Invalid token response from server"

  // ---------------------------------------------------------------------------
  // Expiry rules

  /** `hasValidToken()` */
  predicate IsValid(t: Option<Token>, now: int) {
    t.Some? && HasExpiry(t.value) && now < t.value.expires_at.value
  }

  datatype AccessStep = NoToken | UseStored(access_token: string) | Refresh

  /** What `getAccessToken()` does before any await: fail, hand out the stored
      token, or refresh first. */
  function AccessStepAt(t: Option<Token>, now: int): AccessStep {
    if t.None? then NoToken
    else if HasExpiry(t.value) && now + REFRESH_MARGIN > t.value.expires_at.value then Refresh
    else UseStored(t.value.access_token)
  }

  /** A token that expires no earlier than a minute from now, or has no usable
      expiry, is handed out without a refresh; one that expires within the
      minute is refreshed first. */
  lemma AccessStepFollowsMargin(t: Option<Token>, now: int)
    ensures t.Some? && (!HasExpiry(t.value) || now + REFRESH_MARGIN <= t.value.expires_at.value) ==>
      AccessStepAt(t, now) == UseStored(t.value.access_token)
    ensures AccessStepAt(t, now) == Refresh <==>
      t.Some? && HasExpiry(t.value) && t.value.expires_at.value < now + REFRESH_MARGIN
    ensures AccessStepAt(t, now) == Refresh ==> !IsValid(t, now + REFRESH_MARGIN)
    ensures AccessStepAt(t, now).NoToken? <==> t.None?
  {
  }

  /** A token without a usable `expires_at` is never refreshed, yet it is never
      valid either: the connection controller will not start on it. */
  lemma TokenWithoutExpiryIsNeverRefreshedNorValid(t: Token, now: int)
    requires !HasExpiry(t)
    ensures AccessStepAt(Some(t), now) == UseStored(t.access_token)
    ensures !IsValid(Some(t), now)
  {
  }

  // ---------------------------------------------------------------------------
  // Grant responses and saving

  /** The token `_requestToken` builds from a successful answer: `expires_in`
      defaults to 3600 when falsy, `token_type` to "Bearer", and `expires_at` is
      `now + expires_in * 1000` with the answer's own `expires_in`, which is NaN
      when that is missing. */
  function ResponseToken(d: GrantResponse, now: int): Token {
    Token(
      d.access_token,
      d.refresh_token,
      if d.expires_in.None? || d.expires_in.value == 0 then DEFAULT_EXPIRES_IN else d.expires_in.value,
      if d.token_type == "" then DEFAULT_TOKEN_TYPE else d.token_type,
      if d.expires_in.None? then None else Some(now + d.expires_in.value * 1000))
  }

  /** The patch `saveToken` applies: a falsy `expires_at` is recomputed from the token's `expires_in`. */
  function WithExpiry(t: Token, now: int): (r: Token)
    ensures r.(expires_at := t.expires_at) == t
    ensures HasExpiry(t) ==> r == t
  {
    if HasExpiry(t) then t else t.(expires_at := Some(now + t.expires_in * 1000))
  }

  /** The outcome of one token request once its answer `d` arrives. */
  function GrantOutcome(d: GrantResponse, now: int): Result<Token, AuthError> {
    if !d.ok then Err(ErrorResponse(d.error))
    else if d.access_token == "" then Err(InvalidTokenResponse)
    else Ok(WithExpiry(ResponseToken(d, now), now))
  }

  /** An error answer naming the refresh token as invalid clears the credentials. */
  predicate ClearsCredentials(d: GrantResponse) {
    !d.ok && d.error == Some("invalid_refresh_token")
  }

  /** What a successful answer is saved as. */
  lemma SavedTokenFields(d: GrantResponse, now: int)
    requires d.ok && d.access_token != ""
    ensures GrantOutcome(d, now).Ok?
    ensures var t := GrantOutcome(d, now).value;
      && t.access_token == d.access_token
      && t.refresh_token == d.refresh_token
      && t.token_type == (if d.token_type == "" then "Bearer" else d.token_type)
      && t.expires_in == (if d.expires_in.None? || d.expires_in == Some(0) then 3600 else d.expires_in.value)
      && (d.expires_in.None? ==> t.expires_at == Some(now + 3600 * 1000))
      && (d.expires_in.Some? && now + d.expires_in.value * 1000 != 0 ==>
            t.expires_at == Some(now + d.expires_in.value * 1000))
  {
  }

  /** Saved with a positive lifetime of `e` seconds at a non-negative time, a
      token is valid for exactly the next `e * 1000` milliseconds. */
  lemma SavedTokenValidity(d: GrantResponse, now: int, later: int)
    requires d.ok && d.access_token != ""
    requires now >= 0 && (d.expires_in.None? || d.expires_in.value > 0)
    ensures var lifetime := if d.expires_in.None? then 3600 else d.expires_in.value;
      IsValid(Some(GrantOutcome(d, now).value), later) <==> later < now + lifetime * 1000
  {
  }

  /** `expires_in: 0` is defaulted to 3600 in the saved record but not in its
      `expires_at`, which is then `now`: such a token is saved already expired. */
  lemma ZeroLifetimeSavedExpired(d: GrantResponse, now: int)
    requires d.ok && d.access_token != "" && d.expires_in == Some(0) && now != 0
    ensures GrantOutcome(d, now).Ok?
    ensures GrantOutcome(d, now).value.expires_in == 3600
    ensures GrantOutcome(d, now).value.expires_at == Some(now)
    ensures !IsValid(Some(GrantOutcome(d, now).value), now)
  {
  }

  // ---------------------------------------------------------------------------
  // Authorization URL and PKCE

  /** The query parameters of the authorization URL. */
  datatype Param = ResponseType | ClientId | RedirectUri | State | CodeChallenge | CodeChallengeMethod

  /** The name each parameter is sent under. */
  function ParamName(p: Param): string {
    match p
    case ResponseType => "response_type"
    case ClientId => "client_id"
    case RedirectUri => "redirect_uri"
    case State => "state"
    case CodeChallenge => "code_challenge"
    case CodeChallengeMethod => "code_challenge_method"
  }

  /** No two parameters are sent under the same name. */
  lemma ParamNamesDistinct(p: Param, q: Param)
    ensures ParamName(p) == ParamName(q) ==> p == q
  {
    assert |ParamName(p)| == |ParamName(q)| ==> p == q;
  }

  /** A URL as its base and its ordered query parameters (percent-encoding is not modelled). */
  datatype Url = Url(base: string, query: seq<(Param, string)>)

  /** The value of the first occurrence of `key`. */
  function Lookup(query: seq<(Param, string)>, key: Param): (r: Option<string>)
    ensures r.None? <==> forall i :: 0 <= i < |query| ==> query[i].0 != key
  {
    if query == [] then None
    else if query[0].0 == key then Some(query[0].1)
    else Lookup(query[1..], key)
  }

  function Keys(query: seq<(Param, string)>): (r: seq<Param>)
    ensures |r| == |query| && forall i :: 0 <= i < |query| ==> r[i] == query[i].0
  {
    if query == [] then [] else [query[0].0] + Keys(query[1..])
  }

  /** The parameters of the authorization URL, in the order they are sent. */
  const AUTHORIZATION_PARAMS: seq<Param> :=
    [ResponseType, ClientId, RedirectUri, State, CodeChallenge, CodeChallengeMethod]

  /** The value each parameter carries for a given state and code challenge. */
  function ParamValue(p: Param, state: string, codeChallenge: string): string {
    match p
    case ResponseType => "code"
    case ClientId => CLIENT_ID
    case RedirectUri => REDIRECT_URL
    case State => state
    case CodeChallenge => codeChallenge
    case CodeChallengeMethod => "S256"
  }

  /** The query sending each parameter of `ps` with its value. */
  function Query(ps: seq<Param>, state: string, codeChallenge: string): (q: seq<(Param, string)>)
    ensures Keys(q) == ps
    ensures forall p :: Lookup(q, p) == if p in ps then Some(ParamValue(p, state, codeChallenge)) else None
  {
    if ps == [] then []
    else [(ps[0], ParamValue(ps[0], state, codeChallenge))] + Query(ps[1..], state, codeChallenge)
  }

  /** `getAuthorizationUrl(state, codeChallenge)` */
  function AuthorizationUrl(state: string, codeChallenge: string): (u: Url)
    ensures u.base == AUTHORIZATION_URL
    ensures Keys(u.query) == [ResponseType, ClientId, RedirectUri, State, CodeChallenge, CodeChallengeMethod]
    ensures forall p :: Lookup(u.query, p) == Some(ParamValue(p, state, codeChallenge))
  {
    Url(AUTHORIZATION_URL, Query(AUTHORIZATION_PARAMS, state, codeChallenge))
  }

  datatype Pkce = Pkce(codeVerifier: string, codeChallenge: string)

  /** `generatePKCE()`, given the 32 random bytes and the SHA-256 digest function. */
  function GeneratePkce(random: seq<Byte>, sha256: string -> seq<Byte>): (p: Pkce)
    requires |random| == 32
    ensures |p.codeVerifier| == 43
    ensures forall k :: 0 <= k < |p.codeVerifier| ==> IsUrlChar(p.codeVerifier[k])
    ensures forall k :: 0 <= k < |p.codeChallenge| ==> IsUrlChar(p.codeChallenge[k])
    ensures |p.codeVerifier| % 4 != 1 && Base64UrlDecode(p.codeVerifier) == random
  {
    var verifier := Base64UrlEncode(random);
    Base64UrlEncodeIsUrlSafe(random);
    Base64UrlRoundTrip(random);
    Base64UrlEncodeIsUrlSafe(sha256(verifier));
    Pkce(verifier, Base64UrlEncode(sha256(verifier)))
  }

  // ---------------------------------------------------------------------------
  // The manager

  class TokenManager {
    /** The held token (`this.token`). */
    var token: Option<Token>
    /** The request in flight (`this.requestPromise`), by the body it was issued with. */
    var pending: Option<GrantBody>
    /** The settings store's value under SETTINGS_KEY. */
    var stored: Option<Token>
    /** Every request sent to TOKEN_URL, in order. */
    var requests: seq<GrantBody>
    /** Every `oauth2:token_saved` event emitted on the platform's event bus. */
    var saved: seq<Token>

    /** `constructor(app)`, which loads the persisted token. */
    constructor (persisted: Option<Token>)
      ensures token == persisted && stored == persisted
      ensures pending.None? && requests == [] && saved == []
    {
      token := None;
      pending := None;
      stored := persisted;
      requests := [];
      saved := [];
      new;
      LoadToken();
    }

    /** `loadToken()` */
    method LoadToken()
      modifies this
      ensures token == (if old(stored).Some? then old(stored) else old(token))
      ensures stored == old(stored) && pending == old(pending)
      ensures requests == old(requests) && saved == old(saved)
    {
      if stored.Some? {
        token := stored;
      }
    }

    /** `saveToken(token)`: patch the expiry, hold, persist, announce. */
    method SaveToken(t: Token, now: int)
      modifies this
      ensures token == Some(WithExpiry(t, now)) && stored == token
      ensures saved == old(saved) + [WithExpiry(t, now)]
      ensures pending == old(pending) && requests == old(requests)
    {
      var patched := t;
      if !HasExpiry(patched) {
        patched := patched.(expires_at := Some(now + patched.expires_in * 1000));
      }
      token := Some(patched);
      stored := Some(patched);
      saved := saved + [patched];
    }

    /** `clearToken()` */
    method ClearToken()
      modifies this
      ensures token.None? && stored.None?
      ensures pending == old(pending) && requests == old(requests) && saved == old(saved)
    {
      token := None;
      stored := None;
    }

    /** `hasValidToken()`; it reads the state and changes nothing. */
    function HasValidToken(now: int): bool
      reads this
    {
      IsValid(token, now)
    }

    /** `requestToken(body)`: join the request in flight, or issue a new one. */
    method RequestToken(body: GrantBody) returns (joined: bool)
      modifies this
      ensures joined == old(pending).Some?
      ensures pending == (if joined then old(pending) else Some(body))
      ensures requests == (if joined then old(requests) else old(requests) + [body])
      ensures token == old(token) && stored == old(stored) && saved == old(saved)
    {
      joined := pending.Some?;
      if !joined {
        pending := Some(body);
        requests := requests + [body];
      }
    }

    /** The answer `d` to the request in flight arrives at time `now`: the rest
        of `_requestToken`, then the `finally` that empties the slot. */
    method Settle(d: GrantResponse, now: int) returns (r: Result<Token, AuthError>)
      requires pending.Some?
      modifies this
      ensures r == GrantOutcome(d, now)
      ensures pending.None? && requests == old(requests)
      ensures token == (if r.Ok? then Some(r.value) else if ClearsCredentials(d) then None else old(token))
      ensures stored == (if r.Ok? then Some(r.value) else if ClearsCredentials(d) then None else old(stored))
      ensures saved == old(saved) + (if r.Ok? then [r.value] else [])
    {
      if !d.ok {
        if d.error == Some("invalid_refresh_token") {
          ClearToken();
        }
        r := Err(ErrorResponse(d.error));
      } else if d.access_token == "" {
        r := Err(InvalidTokenResponse);
      } else {
        var t := ResponseToken(d, now);
        SaveToken(t, now);
        r := Ok(WithExpiry(t, now));
      }
      pending := None;
    }

    /** `exchangeCodeForToken(code, codeVerifier)` up to its request. */
    method ExchangeCodeForToken(code: string, codeVerifier: string, name: Option<string>) returns (joined: bool)
      modifies this
      ensures joined == old(pending).Some?
      ensures var body := AuthorizationCodeGrant(code, codeVerifier, name);
        pending == (if joined then old(pending) else Some(body)) &&
        requests == (if joined then old(requests) else old(requests) + [body])
      ensures token == old(token) && stored == old(stored) && saved == old(saved)
    {
      joined := RequestToken(AuthorizationCodeGrant(code, codeVerifier, name));
    }

    /** `refreshToken()` up to its request: no refresh token, no request. */
    method RefreshToken(name: Option<string>) returns (r: Result<bool, AuthError>)
      modifies this
      ensures old(token).None? || old(token).value.refresh_token == "" ==>
        r == Err(NoRefreshTokenError) && pending == old(pending) && requests == old(requests)
      ensures old(token).Some? && old(token).value.refresh_token != "" ==>
        var body := RefreshTokenGrant(old(token).value.refresh_token, name);
        r == Ok(old(pending).Some?) &&
        pending == (if old(pending).Some? then old(pending) else Some(body)) &&
        requests == (if old(pending).Some? then old(requests) else old(requests) + [body])
      ensures token == old(token) && stored == old(stored) && saved == old(saved)
      ensures r.Err? ==> unchanged(this)
    {
      if token.None? || token.value.refresh_token == "" {
        return Err(NoRefreshTokenError);
      }
      var joined := RequestToken(RefreshTokenGrant(token.value.refresh_token, name));
      r := Ok(joined);
    }

    /** `getAccessToken()` for one caller: checked at `now`; a refresh, when one
        is due, is answered with `d` at `settledAt`. */
    method GetAccessToken(now: int, name: Option<string>, d: GrantResponse, settledAt: int)
      returns (r: Result<string, AuthError>)
      modifies this
      ensures old(token).None? ==> r == Err(NoTokenError) && unchanged(this)
      ensures AccessStepAt(old(token), now).UseStored? ==>
        r == Ok(old(token).value.access_token) && unchanged(this)
      ensures AccessStepAt(old(token), now).Refresh? && old(token).value.refresh_token == "" ==>
        r == Err(NoRefreshTokenError) && unchanged(this)
      ensures AccessStepAt(old(token), now).Refresh? && old(token).value.refresh_token != "" ==>
        && requests == old(requests) +
             (if old(pending).Some? then [] else [RefreshTokenGrant(old(token).value.refresh_token, name)])
        && pending.None?
        && r == (match GrantOutcome(d, settledAt)
                 case Ok(t) => Ok(t.access_token)
                 case Err(e) => Err(e))
        && token == (if GrantOutcome(d, settledAt).Ok? then Some(GrantOutcome(d, settledAt).value)
                     else if ClearsCredentials(d) then None else old(token))
        && stored == (if GrantOutcome(d, settledAt).Ok? then Some(GrantOutcome(d, settledAt).value)
                      else if ClearsCredentials(d) then None else old(stored))
        && saved == old(saved) + (if GrantOutcome(d, settledAt).Ok? then [GrantOutcome(d, settledAt).value] else [])
    {
      if token.None? {
        return Err(NoTokenError);
      }
      if HasExpiry(token.value) && now + REFRESH_MARGIN > token.value.expires_at.value {
        var refresh := RefreshToken(name);
        if refresh.Err? {
          return Err(refresh.error);
        }
        var outcome := Settle(d, settledAt);
        if outcome.Err? {
          return Err(outcome.error);
        }
      }
      r := Ok(token.value.access_token);
    }
  }

  /** Two callers that need a token request while none is in flight cause one
      request between them, and the slot is free again after its answer. */
  method SingleFlight(m: TokenManager, body1: GrantBody, body2: GrantBody, d: GrantResponse, now: int)
    requires m.pending.None?
    modifies m
    ensures m.requests == old(m.requests) + [body1]
    ensures m.pending.None?
  {
    var first := m.RequestToken(body1);
    var second := m.RequestToken(body2);
    assert !first && second;
    var outcome := m.Settle(d, now);
  }

  /** An `invalid_refresh_token` answer leaves no valid token and nothing persisted. */
  method RevokedRefreshClears(m: TokenManager, d: GrantResponse, now: int, later: int)
    requires m.pending.Some? && ClearsCredentials(d)
    modifies m
    ensures !m.HasValidToken(later) && m.stored.None?
  {
    var outcome := m.Settle(d, now);
  }

  /** An exchange of code "abc" with verifier "v1", answered with access token
      "A", refresh token "R", a lifetime of 3600 s and type "Bearer", saves a
      token that is valid at once and handed out without a refresh request;
      `refreshAnswer` is the answer a refresh would get, and is never asked for. */
  method ExchangeThenAccess(m: TokenManager, now: int, name: Option<string>, refreshAnswer: GrantResponse)
    returns (access: Result<string, AuthError>)
    requires m.pending.None? && now >= 0
    modifies m
    ensures access == Ok("A")
    ensures m.HasValidToken(now) && m.pending.None?
    ensures m.requests == old(m.requests) + [AuthorizationCodeGrant("abc", "v1", name)]
    ensures m.saved == old(m.saved) + [Token("A", "R", 3600, "Bearer", Some(now + 3600 * 1000))]
  {
    var joined := m.ExchangeCodeForToken("abc", "v1", name);
    var d := GrantResponse(true, None, "A", "R", Some(3600), "Bearer");
    var outcome := m.Settle(d, now);
    access := m.GetAccessToken(now, name, refreshAnswer, now);
  }
}
