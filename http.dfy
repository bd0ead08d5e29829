/** The slice of an ASP.NET Core `HttpContext` the two middlewares touch:
    the authenticated principal's claims, the request cookies and headers,
    the per-request `Items` dictionary, the response cookies, and how often
    the rest of the pipeline (`next`) was invoked. */
module Http {
  import opened Wrappers
  import opened Text
  import opened Domain

  /** `HttpResponseMessage.IsSuccessStatusCode`: the 2xx class. */
  predicate IsSuccessStatusCode(status: int) {
    200 <= status <= 299
  }

  datatype Claim = Claim(claimType: string, value: string)

  /** A value stored in `HttpContext.Items`: a domain user, or anything else. */
  datatype Item = DomainUserItem(user: User) | OtherItem(description: string)

  /** `Microsoft.AspNetCore.Http.SameSiteMode`; `NoRestriction` is its member
      named `None`. */
  datatype SameSiteMode = Unspecified | NoRestriction | Lax | Strict

  /** A cookie's expiry, relative to the moment it is written (the clock is
      not modelled). */
  datatype Expiry = InSeconds(seconds: int) | InDays(days: int)

  datatype AppliedCookieOptions = AppliedCookieOptions(
    httpOnly: bool, secure: bool, sameSite: SameSiteMode, expires: Expiry,
    path: string, domain: Option<string>)

  /** One `Response.Cookies.Append(name, value, options)`. */
  datatype ResponseCookie = ResponseCookie(name: string, value: string, options: AppliedCookieOptions)

  class HttpContext {
    /** `User.Identity?.IsAuthenticated ?? false`. */
    const isAuthenticated: bool
    /** The principal's claims, in the order `FindFirst` searches them. */
    const claims: seq<Claim>
    /** `Request.Cookies`: a collection that compares names ignoring case,
        so it holds one value per name; it is keyed here by the lower-cased
        name. */
    const requestCookies: map<string, string>
    /** `Request.Headers`; names are compared ignoring case when read or
        assigned (see `SetHeader`). */
    var requestHeaders: map<string, string>
    var items: map<string, Item>
    var responseCookies: seq<ResponseCookie>
    var nextCalls: nat

    constructor (isAuthenticated: bool, claims: seq<Claim>, requestCookies: map<string, string>,
                 requestHeaders: map<string, string>, items: map<string, Item>)
      requires forall name :: name in requestCookies ==> ToLowerAscii(name) == name
      ensures this.isAuthenticated == isAuthenticated && this.claims == claims
      ensures this.requestCookies == requestCookies && this.requestHeaders == requestHeaders
      ensures this.items == items && responseCookies == [] && nextCalls == 0
    {
      this.isAuthenticated := isAuthenticated;
      this.claims := claims;
      this.requestCookies := requestCookies;
      this.requestHeaders := requestHeaders;
      this.items := items;
      this.responseCookies := [];
      this.nextCalls := 0;
    }

    /** `Request.Cookies.TryGetValue(name, out var value)`: the cookie whose
        name equals `name` ignoring case. */
    function RequestCookie(name: string): (r: Option<string>)
      reads this
      ensures r.Some? <==> ToLowerAscii(name) in requestCookies
      ensures r.Some? ==> r.value == requestCookies[ToLowerAscii(name)]
      ensures forall key :: key in requestCookies && EqualsIgnoreCase(key, name) && ToLowerAscii(key) == key ==>
                r == Some(requestCookies[key])
    {
      var key := ToLowerAscii(name);
      if key in requestCookies then Some(requestCookies[key]) else None
    }

    /** `Request.Headers[name] = value`; assigning a null string removes the
        header. */
    method SetRequestHeader(name: string, value: Option<string>)
      modifies this`requestHeaders
      ensures requestHeaders == SetHeader(old(requestHeaders), name, value)
    {
      requestHeaders := SetHeader(requestHeaders, name, value);
    }

    method AppendResponseCookie(cookie: ResponseCookie)
      modifies this`responseCookies
      ensures responseCookies == old(responseCookies) + [cookie]
    {
      responseCookies := responseCookies + [cookie];
    }

    /** `await next(context)`: what the rest of the pipeline does is not modelled. */
    method Next()
      modifies this`nextCalls
      ensures nextCalls == old(nextCalls) + 1
    {
      nextCalls := nextCalls + 1;
    }
  }

  /** The headers whose names differ from `name` ignoring case. */
  function WithoutName(headers: map<string, string>, name: string): (r: map<string, string>)
    ensures forall h :: h in r <==> h in headers && !EqualsIgnoreCase(h, name)
    ensures forall h :: h in r ==> r[h] == headers[h]
  {
    map h | h in headers && !EqualsIgnoreCase(h, name) :: headers[h]
  }

  /** `Request.Headers[name] = value` on a dictionary that compares names
      ignoring case: a header stored under any casing of `name` is replaced
      (or removed, for a null value), and every other header is kept. */
  function SetHeader(headers: map<string, string>, name: string, value: Option<string>): (r: map<string, string>)
    ensures value.Some? ==> name in r && r[name] == value.value
    ensures value.None? ==> name !in r
    ensures forall h :: EqualsIgnoreCase(h, name) && (value.None? || h != name) ==> h !in r
    ensures forall h :: !EqualsIgnoreCase(h, name) ==> (h in r <==> h in headers) && (h in r ==> r[h] == headers[h])
  {
    if value.Some? then WithoutName(headers, name)[name := value.value] else WithoutName(headers, name)
  }
}
