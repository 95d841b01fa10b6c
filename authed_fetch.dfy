/**
 * `authedFetch` of frontend/src/lib/authedFetch.js: how the front end turns
 * a URL and fetch options into the request it actually sends — the final
 * URL and the merged headers. Obtaining the ID token and sending the request
 * are effects; the token lookup's outcome is an input and the request handed
 * to `fetch` is the output.
 */
module AuthedFetch {
  import opened JsValue
  import opened JsString

  const DefaultApiBase := "http://localhost:3001"
  const AuthorizationHeader := "Authorization"
  const ContentTypeHeader := "Content-Type"
  const JsonContentType := "application/json"

  /** What `await auth.currentUser?.getIdToken()` came to. */
  datatype TokenLookup =
    | SignedOut             // no current user: the token is `undefined`
    | IdToken(token: string)
    | LookupFailed          // getIdToken threw: the error is logged, the token stays `null`

  /** The request body, as far as the header logic looks at it. */
  datatype Body = NoBody | FormDataBody | OtherBody(value: Value)

  /**
   * The caller's `options`: `headers` (`None` when not given), `body`, and
   * every other option, which is passed through untouched.
   */
  datatype FetchOptions = FetchOptions(headers: Option<map<string, string>>, body: Body, rest: Doc)

  /** The build-time environment: `VITE_API_BASE_URL`, and whether `FormData` exists. */
  datatype Env = Env(apiBaseUrl: Option<string>, hasFormData: bool)

  /** The call made to `fetch`. */
  datatype FetchCall = FetchCall(url: string, headers: map<string, string>, body: Body, rest: Doc)

  /** `API_BASE`: the configured base URL, or the local backend when it is unset or empty. */
  function ApiBase(env: Env): (base: string)
    ensures env.apiBaseUrl.Some? && env.apiBaseUrl.value != "" ==> base == env.apiBaseUrl.value
    ensures env.apiBaseUrl == None || env.apiBaseUrl == Some("") ==> base == DefaultApiBase
  {
    if env.apiBaseUrl.Some? && env.apiBaseUrl.value != "" then env.apiBaseUrl.value else DefaultApiBase
  }

  /** `finalUrl`: a URL starting with `http` is used as is, any other is appended to `base`. */
  function FinalUrl(url: string, base: string): (r: string)
    ensures StartsWith(url, "http") ==> r == url
    ensures !StartsWith(url, "http") ==> r == base + url
  {
    if StartsWith(url, "http") then url else base + url
  }

  /**
   * When the base itself starts with `http` (the default one does), every
   * final URL does, and resolving it again leaves it unchanged.
   */
  lemma {:induction false} FinalUrlAbsolute(url: string, base: string)
    requires StartsWith(base, "http")
    ensures StartsWith(FinalUrl(url, base), "http")
    ensures FinalUrl(FinalUrl(url, base), base) == FinalUrl(url, base)
  {
    if !StartsWith(url, "http") {
      assert (base + url)[..4] == base[..4];
    }
  }

  /**
   * The token `authedFetch` ends up with: the ID token, or `None` for the
   * `undefined` of a signed-out user and the `null` left by a failed lookup,
   * which the header logic treats alike (both are falsy).
   */
  function TokenValue(lookup: TokenLookup): (t: Option<string>)
    ensures t.Some? <==> lookup.IdToken?
    ensures t.Some? ==> t.value == lookup.token
  {
    match lookup
    case SignedOut => None
    case IdToken(t) => Some(t)
    case LookupFailed => None
  }

  /** `idToken ? ... : ...`: a token is truthy exactly when it is a non-empty string. */
  predicate HasToken(token: Option<string>)
    ensures HasToken(token) <==> token.Some? && token.value != ""
  {
    token.Some? && Truthy(Str(token.value))
  }

  /** `isFormData`: only a FormData body counts, and only where `FormData` exists. */
  predicate IsFormData(env: Env, body: Body)
    ensures IsFormData(env, body) <==> env.hasFormData && body == FormDataBody
  {
    env.hasFormData && body.FormDataBody?
  }

  /**
   * The merged headers: the caller's, then `Authorization: Bearer <token>`
   * when a non-empty token was obtained, then `Content-Type:
   * application/json` unless the body is FormData. A later entry overrides
   * a caller header with the same key; every other caller header is kept.
   */
  function MergedHeaders(caller: map<string, string>, token: Option<string>, isFormData: bool): (h: map<string, string>)
    ensures HasToken(token) ==> AuthorizationHeader in h && h[AuthorizationHeader] == "Bearer " + token.value
    ensures !HasToken(token) ==>
      (AuthorizationHeader in h <==> AuthorizationHeader in caller)
      && (AuthorizationHeader in caller ==> h[AuthorizationHeader] == caller[AuthorizationHeader])
    ensures !isFormData ==> ContentTypeHeader in h && h[ContentTypeHeader] == JsonContentType
    ensures isFormData ==>
      (ContentTypeHeader in h <==> ContentTypeHeader in caller)
      && (ContentTypeHeader in caller ==> h[ContentTypeHeader] == caller[ContentTypeHeader])
    ensures forall k | k != AuthorizationHeader && k != ContentTypeHeader ::
      (k in h <==> k in caller) && (k in caller ==> h[k] == caller[k])
  {
    var auth: map<string, string> :=
      if HasToken(token) then map[AuthorizationHeader := "Bearer " + token.value] else map[];
    var contentType: map<string, string> :=
      if isFormData then map[] else map[ContentTypeHeader := JsonContentType];
    caller + auth + contentType
  }

  /** `options.headers || {}` */
  function CallerHeaders(options: FetchOptions): (h: map<string, string>)
    ensures options.headers.Some? ==> h == options.headers.value
    ensures options.headers.None? ==> h == map[]
  {
    if options.headers.Some? then options.headers.value else map[]
  }

  /**
   * `authedFetch(url, options)`: the request it hands to `fetch`. A relative
   * URL is sent to the API base; `Authorization` carries the bearer token
   * when a non-empty one was obtained and is otherwise the caller's own, if
   * any; `Content-Type` is JSON unless the body is FormData; every other
   * header, the body and the remaining options are the caller's.
   */
  function AuthedFetchCall(url: string, options: FetchOptions, lookup: TokenLookup, env: Env): (call: FetchCall)
    ensures StartsWith(url, "http") ==> call.url == url
    ensures !StartsWith(url, "http") ==> call.url == ApiBase(env) + url
    ensures lookup.IdToken? && lookup.token != "" ==>
      AuthorizationHeader in call.headers && call.headers[AuthorizationHeader] == "Bearer " + lookup.token
    ensures !(lookup.IdToken? && lookup.token != "") ==>
      (AuthorizationHeader in call.headers <==> AuthorizationHeader in CallerHeaders(options))
      && (AuthorizationHeader in CallerHeaders(options) ==>
            call.headers[AuthorizationHeader] == CallerHeaders(options)[AuthorizationHeader])
    ensures !IsFormData(env, options.body) ==>
      ContentTypeHeader in call.headers && call.headers[ContentTypeHeader] == JsonContentType
    ensures IsFormData(env, options.body) ==>
      (ContentTypeHeader in call.headers <==> ContentTypeHeader in CallerHeaders(options))
      && (ContentTypeHeader in CallerHeaders(options) ==>
            call.headers[ContentTypeHeader] == CallerHeaders(options)[ContentTypeHeader])
    ensures forall k | k != AuthorizationHeader && k != ContentTypeHeader ::
      (k in call.headers <==> k in CallerHeaders(options))
      && (k in CallerHeaders(options) ==> call.headers[k] == CallerHeaders(options)[k])
    ensures call.body == options.body && call.rest == options.rest
  {
    var headers := MergedHeaders(CallerHeaders(options), TokenValue(lookup), IsFormData(env, options.body));
    FetchCall(FinalUrl(url, ApiBase(env)), headers, options.body, options.rest)
  }

  /**
   * A FormData body, where `FormData` exists, gets no JSON `Content-Type`:
   * the request carries the caller's own `Content-Type`, if any, so the
   * browser can set the multipart boundary itself.
   */
  lemma FormDataBodyKeepsCallerContentType(url: string, options: FetchOptions, lookup: TokenLookup, env: Env)
    requires env.hasFormData && options.body == FormDataBody
    ensures var call := AuthedFetchCall(url, options, lookup, env);
      && (ContentTypeHeader in call.headers <==> ContentTypeHeader in CallerHeaders(options))
      && (ContentTypeHeader in CallerHeaders(options) ==>
            call.headers[ContentTypeHeader] == CallerHeaders(options)[ContentTypeHeader])
  {
  }

  /**
   * With no `VITE_API_BASE_URL`, a relative URL goes to the local backend
   * and every request URL is absolute.
   */
  lemma DefaultBaseRoutesToBackend(url: string, options: FetchOptions, lookup: TokenLookup, hasFormData: bool)
    ensures var call := AuthedFetchCall(url, options, lookup, Env(None, hasFormData));
      && StartsWith(call.url, "http")
      && (!StartsWith(url, "http") ==> call.url == DefaultApiBase + url)
  {
    FinalUrlAbsolute(url, DefaultApiBase);
  }
}
