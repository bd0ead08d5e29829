/** `CookieTokenMiddleware`: moves the token cookies of a request into its
    headers and, when only the refresh cookie is present, asks the identity
    provider's token endpoint for new tokens and writes them back as
    response cookies. The token endpoint is the parameter `tokenEndpoint`,
    from the refresh token to the reply; the client id, secret and URL it is
    called with are configuration and not modelled. */
module CookieTokenMiddleware {
  import opened Wrappers
  import opened Text
  import opened Http
  import opened Json

  /** The configurable cookie settings, `Api.Model.CookieOptions`. */
  datatype CookieOptions = CookieOptions(
    accessTokenCookieName: string, refreshTokenCookieName: string,
    domain: Option<string>, path: string, httpOnly: bool, secure: bool, sameSite: string)

  const DefaultCookieOptions := CookieOptions("AccessToken", "RefreshToken", None, "/", true, true, "Lax")

  /** The request cookies are read under these literal names, whatever the
      options say. */
  const AccessTokenRequestCookie := "AccessToken"
  const RefreshTokenRequestCookie := "RefreshToken"
  const AuthorizationHeader := "Authorization"
  const RefreshTokenHeader := "RefreshToken"
  const BearerPrefix := "Bearer "

  const RefreshFailedMessage := "Failed to refresh token"
  const RefreshExceptionPrefix := "Token refresh exception: "
  const AccessTokenNotFoundMessage := "Access token not found in refresh response"
  const RefreshCookieLifetimeDays := 7

  /** `TokenRefreshResult`; the nullable strings are options. */
  datatype TokenRefreshResult = TokenRefreshResult(
    isSuccess: bool, accessToken: Option<string>, refreshToken: Option<string>, errorMessage: Option<string>)

  function Success(accessToken: string, refreshToken: Option<string>): TokenRefreshResult {
    TokenRefreshResult(true, Some(accessToken), refreshToken, None)
  }

  function Failure(errorMessage: string): TokenRefreshResult {
    TokenRefreshResult(false, None, None, Some(errorMessage))
  }

  /** The two factories never produce the same value, and each result is
      told apart by `isSuccess` alone. */
  lemma FactoriesAreDistinct(a: string, r: Option<string>, m: string)
    ensures Success(a, r).isSuccess && !Failure(m).isSuccess
    ensures Success(a, r).accessToken == Some(a) && Success(a, r).refreshToken == r && Success(a, r).errorMessage.None?
    ensures Failure(m).errorMessage == Some(m) && Failure(m).accessToken.None? && Failure(m).refreshToken.None?
  {
  }

  /** The `ArgumentException` message of `Enum.Parse` for blank text. */
  const BlankEnumValueMessage := "Must specify valid information for parsing in the string. (Parameter 'value')"

  /** `Enum.Parse<SameSiteMode>`, for the member names (case-sensitive). Text
      that is empty after trimming leading white space is refused before any
      name is looked up. */
  function ParseSameSite(s: string): (r: Result<SameSiteMode>)
    ensures r.Ok? <==> s == "Unspecified" || s == "None" || s == "Lax" || s == "Strict"
    ensures s == "Lax" ==> r == Ok(Lax)
    ensures r.Fail? && IsBlank(s) ==> r.error.message == BlankEnumValueMessage
    ensures r.Fail? && !IsBlank(s) ==> r.error.message == "Requested value '" + s + "' was not found."
  {
    if IsBlank(s) then
      assert s == [] || IsWhiteSpace(s[0]);
      Fail(Wrappers.Failure(BlankEnumValueMessage))
    else if s == "Unspecified" then Ok(Unspecified)
    else if s == "None" then Ok(NoRestriction)
    else if s == "Lax" then Ok(Lax)
    else if s == "Strict" then Ok(Strict)
    else Fail(Wrappers.Failure("Requested value '" + s + "' was not found."))
  }

  /** The body of a token reply: not JSON (with the parser's message), or a
      JSON object with these three properties. */
  datatype TokenBody =
    | Unparseable(message: string)
    | TokenJson(accessToken: JsonString, refreshToken: JsonString, expiresIn: JsonNumber)

  /** The token endpoint's answer: the POST itself threw, or a reply. */
  datatype TokenResponse = PostThrew(message: string) | TokenReply(status: int, body: TokenBody)

  datatype RefreshRun = RefreshRun(result: TokenRefreshResult, cookies: seq<ResponseCookie>)

  /** The domain written on a cookie: the configured one if non-empty. */
  function CookieDomain(opts: CookieOptions): Option<string> {
    if opts.domain.Some? && opts.domain.value != "" then opts.domain else None
  }

  function Caught(message: string): RefreshRun {
    RefreshRun(Failure(RefreshExceptionPrefix + message), [])
  }

  /** What `RefreshAccessTokenAsync` returns for a reply, and the response
      cookies it appends, in order. Every exception on the way (the POST,
      the JSON reads, the null access token, the `SameSite` parse) is caught
      and reported with the exception prefix; a non-success status is a plain
      failure. */
  function Refresh(response: TokenResponse, opts: CookieOptions): (run: RefreshRun)
    ensures !run.result.isSuccess ==> run.cookies == [] && run.result.errorMessage.Some?
    ensures run.result.isSuccess ==> && 1 <= |run.cookies| <= 2
                                     && run.cookies[0].name == opts.accessTokenCookieName
                                     && Some(run.cookies[0].value) == run.result.accessToken
  {
    match response
    case PostThrew(m) => Caught(m)
    case TokenReply(status, body) =>
      if !IsSuccessStatusCode(status) then RefreshRun(Failure(RefreshFailedMessage), [])
      else
        match body
        case Unparseable(m) => Caught(m)
        case TokenJson(at, rt, ei) =>
          match GetPropertyString(at)
          case Fail(e) => Caught(e.message)
          case Ok(None) => Caught(AccessTokenNotFoundMessage)
          case Ok(Some(access)) =>
            match TryGetPropertyString(rt)
            case Fail(e) => Caught(e.message)
            case Ok(refresh) =>
              match GetPropertyInt32(ei)
              case Fail(e) => Caught(e.message)
              case Ok(expiresIn) =>
                match ParseSameSite(opts.sameSite)
                case Fail(e) => Caught(e.message)
                case Ok(mode) =>
                  var accessCookie := ResponseCookie(opts.accessTokenCookieName, access,
                    AppliedCookieOptions(opts.httpOnly, opts.secure, mode, InSeconds(expiresIn), opts.path, CookieDomain(opts)));
                  var refreshCookies :=
                    if refresh.Some? && refresh.value != "" then
                      [ResponseCookie(opts.refreshTokenCookieName, refresh.value,
                        AppliedCookieOptions(opts.httpOnly, opts.secure, mode, InDays(RefreshCookieLifetimeDays), opts.path, CookieDomain(opts)))]
                    else [];
                  RefreshRun(Success(access, refresh), [accessCookie] + refreshCookies)
  }

  /** The request headers after `InvokeAsync`, given the two request cookies. */
  function HeadersAfter(headers: map<string, string>, access: Option<string>, refresh: Option<string>,
                        tokenEndpoint: string -> TokenResponse, opts: CookieOptions): (h: map<string, string>)
    ensures access.None? && refresh.None? ==> h == headers
    ensures forall k :: !EqualsIgnoreCase(k, AuthorizationHeader) && !EqualsIgnoreCase(k, RefreshTokenHeader) ==>
              (k in h <==> k in headers) && (k in h ==> h[k] == headers[k])
    ensures access.Some? ==> AuthorizationHeader in h && h[AuthorizationHeader] == BearerPrefix + access.value
    ensures access.Some? || (refresh.Some? && Refresh(tokenEndpoint(refresh.value), opts).result.isSuccess) ==>
              forall k :: EqualsIgnoreCase(k, AuthorizationHeader) && k != AuthorizationHeader ==> k !in h
  {
    if access.Some? && refresh.Some? then
      SetHeader(SetHeader(headers, AuthorizationHeader, Some(BearerPrefix + access.value)), RefreshTokenHeader, refresh)
    else if access.Some? then
      SetHeader(headers, AuthorizationHeader, Some(BearerPrefix + access.value))
    else if refresh.Some? then
      var result := Refresh(tokenEndpoint(refresh.value), opts).result;
      if result.isSuccess then
        SetHeader(SetHeader(headers, AuthorizationHeader, Some(BearerPrefix + result.accessToken.GetOr(""))),
                  RefreshTokenHeader, result.refreshToken)
      else headers
    else headers
  }

  /** The response cookies `InvokeAsync` appends: only the refresh-only case
      calls the token endpoint. */
  function CookiesAfter(access: Option<string>, refresh: Option<string>,
                        tokenEndpoint: string -> TokenResponse, opts: CookieOptions): (cookies: seq<ResponseCookie>)
    ensures access.Some? || refresh.None? ==> cookies == []
    ensures |cookies| <= 2
  {
    if access.None? && refresh.Some? then Refresh(tokenEndpoint(refresh.value), opts).cookies else []
  }

  method RefreshAccessTokenAsync(context: HttpContext, refreshToken: string,
                                 tokenEndpoint: string -> TokenResponse, opts: CookieOptions)
      returns (result: TokenRefreshResult)
    modifies context`responseCookies
    ensures var run := Refresh(tokenEndpoint(refreshToken), opts);
      result == run.result && context.responseCookies == old(context.responseCookies) + run.cookies
  {
    var response := tokenEndpoint(refreshToken);
    if response.PostThrew? {
      return Failure(RefreshExceptionPrefix + response.message);
    }
    if !IsSuccessStatusCode(response.status) {
      return Failure(RefreshFailedMessage);
    }
    if response.body.Unparseable? {
      return Failure(RefreshExceptionPrefix + response.body.message);
    }
    var root := response.body;
    var accessRead := GetPropertyString(root.accessToken);
    if accessRead.Fail? {
      return Failure(RefreshExceptionPrefix + accessRead.error.message);
    }
    if accessRead.value.None? {
      return Failure(RefreshExceptionPrefix + AccessTokenNotFoundMessage);
    }
    var newAccessToken := accessRead.value.value;
    var refreshRead := TryGetPropertyString(root.refreshToken);
    if refreshRead.Fail? {
      return Failure(RefreshExceptionPrefix + refreshRead.error.message);
    }
    var newRefreshToken := refreshRead.value;
    var expiresRead := GetPropertyInt32(root.expiresIn);
    if expiresRead.Fail? {
      return Failure(RefreshExceptionPrefix + expiresRead.error.message);
    }
    var sameSite := ParseSameSite(opts.sameSite);
    if sameSite.Fail? {
      return Failure(RefreshExceptionPrefix + sameSite.error.message);
    }
    var accessOptions := AppliedCookieOptions(opts.httpOnly, opts.secure, sameSite.value,
                                              InSeconds(expiresRead.value), opts.path, CookieDomain(opts));
    context.AppendResponseCookie(ResponseCookie(opts.accessTokenCookieName, newAccessToken, accessOptions));
    if newRefreshToken.Some? && newRefreshToken.value != "" {
      var refreshOptions := AppliedCookieOptions(opts.httpOnly, opts.secure, sameSite.value,
                                                 InDays(RefreshCookieLifetimeDays), opts.path, CookieDomain(opts));
      context.AppendResponseCookie(ResponseCookie(opts.refreshTokenCookieName, newRefreshToken.value, refreshOptions));
    }
    result := Success(newAccessToken, newRefreshToken);
  }

  method InvokeAsync(context: HttpContext, tokenEndpoint: string -> TokenResponse, opts: CookieOptions)
    modifies context`requestHeaders, context`responseCookies, context`nextCalls
    ensures var access := context.RequestCookie(AccessTokenRequestCookie);
            var refresh := context.RequestCookie(RefreshTokenRequestCookie);
      && context.requestHeaders == HeadersAfter(old(context.requestHeaders), access, refresh, tokenEndpoint, opts)
      && context.responseCookies == old(context.responseCookies) + CookiesAfter(access, refresh, tokenEndpoint, opts)
    ensures context.nextCalls == old(context.nextCalls) + 1
  {
    var accessToken := context.RequestCookie(AccessTokenRequestCookie);
    var refreshToken := context.RequestCookie(RefreshTokenRequestCookie);
    if accessToken.Some? && refreshToken.Some? {
      context.SetRequestHeader(AuthorizationHeader, Some(BearerPrefix + accessToken.value));
      context.SetRequestHeader(RefreshTokenHeader, refreshToken);
    } else if accessToken.Some? && refreshToken.None? {
      context.SetRequestHeader(AuthorizationHeader, Some(BearerPrefix + accessToken.value));
    } else if refreshToken.Some? {
      var result := RefreshAccessTokenAsync(context, refreshToken.value, tokenEndpoint, opts);
      if result.isSuccess {
        context.SetRequestHeader(AuthorizationHeader, Some(BearerPrefix + result.accessToken.GetOr("")));
        context.SetRequestHeader(RefreshTokenHeader, result.refreshToken);
      }
    }
    context.Next();
  }

  // ---------------------------------------------------------------------
  // Properties

  /** The refresh outcome rules: a non-success status and every exception
      give `Failure` with no cookie written; a success carries a non-null
      access token, always rewrites the access cookie under the configured
      name with the reply's lifetime, and rewrites the refresh cookie, for
      seven days, exactly when the new refresh token is non-empty. */
  lemma RefreshSemantics(response: TokenResponse, opts: CookieOptions)
    ensures var run := Refresh(response, opts);
      && (response.PostThrew? ==> run.result == Failure(RefreshExceptionPrefix + response.message))
      && (response.TokenReply? && !IsSuccessStatusCode(response.status) ==> run.result == Failure(RefreshFailedMessage))
      && (!run.result.isSuccess ==> run.cookies == [] && run.result.errorMessage.Some?)
      && (run.result.isSuccess ==>
            && response.TokenReply? && IsSuccessStatusCode(response.status) && response.body.TokenJson?
            && response.body.accessToken.Str?
            && run.result.accessToken == Some(response.body.accessToken.s)
            && run.result.refreshToken == TryGetPropertyString(response.body.refreshToken).value
            && 1 <= |run.cookies| <= 2
            && run.cookies[0].name == opts.accessTokenCookieName
            && run.cookies[0].value == response.body.accessToken.s
            && run.cookies[0].options.expires == InSeconds(response.body.expiresIn.n)
            && ParseSameSite(opts.sameSite) == Ok(run.cookies[0].options.sameSite)
            && (|run.cookies| == 2 <==> run.result.refreshToken.Some? && run.result.refreshToken.value != "")
            && (|run.cookies| == 2 ==>
                  run.cookies[1] == ResponseCookie(opts.refreshTokenCookieName, run.result.refreshToken.value,
                                                   run.cookies[0].options.(expires := InDays(7)))))
  {
  }

  /** A null or missing access token is a caught failure, not a success. */
  lemma MissingAccessTokenFails(status: int, rt: JsonString, ei: JsonNumber, opts: CookieOptions)
    requires IsSuccessStatusCode(status)
    ensures Refresh(TokenReply(status, TokenJson(Null, rt, ei)), opts).result
              == Failure(RefreshExceptionPrefix + AccessTokenNotFoundMessage)
    ensures Refresh(TokenReply(status, TokenJson(Absent, rt, ei)), opts).result
              == Failure(RefreshExceptionPrefix + KeyNotFoundMessage)
  {
  }

  /** A blank `SameSite` option makes every otherwise good refresh fail, with
      the `ArgumentException` message of `Enum.Parse` and no cookie written. */
  lemma BlankSameSiteFailsRefresh(status: int, access: string, refresh: JsonString, expiresIn: int, opts: CookieOptions)
    requires IsSuccessStatusCode(status) && IsInt32(expiresIn) && !refresh.NotAString?
    requires IsBlank(opts.sameSite)
    ensures Refresh(TokenReply(status, TokenJson(Str(access), refresh, Number(expiresIn))), opts)
              == RefreshRun(Failure(RefreshExceptionPrefix + BlankEnumValueMessage), [])
  {
  }

  /** The default options are usable: their `SameSite` parses, and cookies
      are written with no domain, on path "/", HTTP-only and secure. */
  lemma DefaultOptionsWork(status: int, access: string, refresh: string, expiresIn: int)
    requires IsSuccessStatusCode(status) && IsInt32(expiresIn) && refresh != ""
    ensures var run := Refresh(TokenReply(status, TokenJson(Str(access), Str(refresh), Number(expiresIn))), DefaultCookieOptions);
      && run.result == Success(access, Some(refresh))
      && run.cookies == [
           ResponseCookie("AccessToken", access, AppliedCookieOptions(true, true, Lax, InSeconds(expiresIn), "/", None)),
           ResponseCookie("RefreshToken", refresh, AppliedCookieOptions(true, true, Lax, InDays(7), "/", None))]
  {
  }

  /** The cookie-to-header decision table. The endpoint is called only when
      the refresh cookie is the only one present; on a failed refresh, and
      with neither cookie, the headers stay as they were. */
  lemma DecisionTable(headers: map<string, string>, access: Option<string>, refresh: Option<string>,
                      tokenEndpoint: string -> TokenResponse, opts: CookieOptions)
    ensures var h := HeadersAfter(headers, access, refresh, tokenEndpoint, opts);
      && (access.Some? && refresh.Some? ==>
            h == WithoutName(WithoutName(headers, AuthorizationHeader), RefreshTokenHeader)
                   [AuthorizationHeader := BearerPrefix + access.value][RefreshTokenHeader := refresh.value])
      && (access.Some? && refresh.None? ==>
            h == WithoutName(headers, AuthorizationHeader)[AuthorizationHeader := BearerPrefix + access.value])
      && (access.Some? ==> CookiesAfter(access, refresh, tokenEndpoint, opts) == [])
      && (access.None? && refresh.Some? ==>
            var run := Refresh(tokenEndpoint(refresh.value), opts);
            && (run.result.isSuccess ==>
                  && (run.result.refreshToken.Some? ==>
                        h == WithoutName(WithoutName(headers, AuthorizationHeader), RefreshTokenHeader)
                               [AuthorizationHeader := BearerPrefix + run.result.accessToken.value]
                               [RefreshTokenHeader := run.result.refreshToken.value])
                  && (run.result.refreshToken.None? ==>
                        h == WithoutName(WithoutName(headers, AuthorizationHeader), RefreshTokenHeader)
                               [AuthorizationHeader := BearerPrefix + run.result.accessToken.value])
                  && h[AuthorizationHeader] == BearerPrefix + run.result.accessToken.value
                  && (run.result.refreshToken.Some? ==> h[RefreshTokenHeader] == run.result.refreshToken.value)
                  && (run.result.refreshToken.None? ==> forall k :: EqualsIgnoreCase(k, RefreshTokenHeader) ==> k !in h))
            && (!run.result.isSuccess ==> h == headers))
      && (access.None? && refresh.None? ==> h == headers && CookiesAfter(access, refresh, tokenEndpoint, opts) == [])
  {
    if access.None? && refresh.Some? {
      RefreshSemantics(tokenEndpoint(refresh.value), opts);
    }
  }

  /** A request whose `Authorization` header arrived lower-cased, as HTTP/2
      sends it, and whose access cookie was sent as "accesstoken": the cookie
      is found under the literal name and the stale header is replaced, not
      kept beside the new one. */
  lemma StaleLowerCaseHeaderIsReplaced(context: HttpContext, tokenEndpoint: string -> TokenResponse, opts: CookieOptions)
    requires context.requestCookies == map["accesstoken" := "t"]
    ensures context.RequestCookie(AccessTokenRequestCookie) == Some("t")
    ensures context.RequestCookie(RefreshTokenRequestCookie) == None
    ensures HeadersAfter(map["authorization" := "Bearer old"], Some("t"), None, tokenEndpoint, opts)
              == map[AuthorizationHeader := "Bearer t"]
  {
    assert ToLowerAscii(AccessTokenRequestCookie) == "accesstoken";
    assert ToLowerAscii(RefreshTokenRequestCookie)[0] == 'r';
    var h := HeadersAfter(map["authorization" := "Bearer old"], Some("t"), None, tokenEndpoint, opts);
    assert EqualsIgnoreCase("authorization", AuthorizationHeader);
    assert WithoutName(map["authorization" := "Bearer old"], AuthorizationHeader) == map[];
    assert h == SetHeader(map["authorization" := "Bearer old"], AuthorizationHeader, Some(BearerPrefix + "t"));
    assert BearerPrefix + "t" == "Bearer t";
  }
}
