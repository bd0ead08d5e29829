/** `DomainUserMiddleware`: for an authenticated request, picks the user id
    and name out of the principal's claims and, when the id parses as a GUID,
    stores a domain `User` under `Items["DomainUser"]`; then runs the rest of
    the pipeline. `Guid.TryParse` is the parameter `parseGuid`. */
module DomainUserMiddleware {
  import opened Wrappers
  import opened Text
  import opened Domain
  import opened Http
  import opened HttpContextExtensions

  /** `ClaimTypes.NameIdentifier`. */
  const NameIdentifierClaimType := "http://schemas.xmlsoap.org/ws/2005/05/identity/claims/nameidentifier"
  const UnknownUserName := "Unknown"

  /** `ClaimsPrincipal.FindFirst(type)`: the first claim of that type. */
  function FindFirst(claims: seq<Claim>, claimType: string): (r: Option<Claim>)
    ensures r.None? <==> forall i :: 0 <= i < |claims| ==> !EqualsIgnoreCase(claims[i].claimType, claimType)
    ensures r.Some? ==> exists i :: 0 <= i < |claims| && claims[i] == r.value
                                    && EqualsIgnoreCase(claims[i].claimType, claimType)
                                    && forall j :: 0 <= j < i ==> !EqualsIgnoreCase(claims[j].claimType, claimType)
  {
    if claims == [] then None
    else if EqualsIgnoreCase(claims[0].claimType, claimType) then Some(claims[0])
    else
      var r := FindFirst(claims[1..], claimType);
      assert forall i :: 1 <= i < |claims| ==> claims[i] == claims[1..][i - 1];
      r
  }

  /** The id claim: "sub", else the name-identifier claim, else "user_id". */
  function SelectUserIdClaim(claims: seq<Claim>): (r: Option<Claim>)
    ensures r.Some? ==> r.value in claims
    ensures r.Some? ==> EqualsIgnoreCase(r.value.claimType, "sub") || EqualsIgnoreCase(r.value.claimType, NameIdentifierClaimType)
                        || EqualsIgnoreCase(r.value.claimType, "user_id")
  {
    FindFirst(claims, "sub").OrElse(FindFirst(claims, NameIdentifierClaimType)).OrElse(FindFirst(claims, "user_id"))
  }

  /** The name: the "name" claim's value, else "preferred_username"'s, else "Unknown". */
  function SelectUserName(claims: seq<Claim>): (name: string)
    ensures name == UnknownUserName
            || exists i :: 0 <= i < |claims| && claims[i].value == name
                           && (EqualsIgnoreCase(claims[i].claimType, "name")
                               || EqualsIgnoreCase(claims[i].claimType, "preferred_username"))
  {
    match FindFirst(claims, "name")
    case Some(c) => c.value
    case None =>
      match FindFirst(claims, "preferred_username")
      case Some(c) => c.value
      case None => UnknownUserName
  }

  /** What one run of the middleware does before calling `next`. */
  datatype Decision = StoreUser(user: User) | Skip | NullReference

  /** The middleware as written: with no id claim at all, line 28 reads
      `Value` of a null claim and throws. */
  function Decide(isAuthenticated: bool, claims: seq<Claim>, parseGuid: string -> Option<Guid>): (d: Decision)
    ensures !isAuthenticated ==> d == Skip
    ensures d.StoreUser? ==> && SelectUserIdClaim(claims).Some?
                             && parseGuid(SelectUserIdClaim(claims).value.value) == Some(d.user.id)
                             && d.user.name == SelectUserName(claims)
  {
    if !isAuthenticated then Skip
    else
      match SelectUserIdClaim(claims)
      case None => NullReference
      case Some(idClaim) =>
        if idClaim.value != "" && parseGuid(idClaim.value).Some? then
          StoreUser(User(parseGuid(idClaim.value).value, SelectUserName(claims)))
        else Skip
  }

  /** The middleware as evidently intended: a missing id claim is treated like
      an empty one, so the request goes on without a domain user. */
  function DecideNullSafe(isAuthenticated: bool, claims: seq<Claim>, parseGuid: string -> Option<Guid>): (d: Decision)
    ensures d != NullReference
    ensures d.StoreUser? <==>
              isAuthenticated && SelectUserIdClaim(claims).Some?
              && SelectUserIdClaim(claims).value.value != ""
              && parseGuid(SelectUserIdClaim(claims).value.value).Some?
    ensures d.StoreUser? ==> d.user == User(parseGuid(SelectUserIdClaim(claims).value.value).value, SelectUserName(claims))
  {
    if !isAuthenticated then Skip
    else
      match SelectUserIdClaim(claims)
      case None => Skip
      case Some(idClaim) =>
        if idClaim.value != "" && parseGuid(idClaim.value).Some? then
          StoreUser(User(parseGuid(idClaim.value).value, SelectUserName(claims)))
        else Skip
  }

  function ItemsAfter(items: map<string, Item>, d: Decision): map<string, Item> {
    if d.StoreUser? then items[DomainUserKey := DomainUserItem(d.user)] else items
  }

  /** `InvokeAsync` as written. `threw` reports the null dereference, after
      which neither `Items` nor `next` is reached. */
  method InvokeAsync(context: HttpContext, parseGuid: string -> Option<Guid>) returns (threw: bool)
    modifies context`items, context`nextCalls
    ensures var d := Decide(context.isAuthenticated, context.claims, parseGuid);
      && threw == (d == NullReference)
      && context.items == ItemsAfter(old(context.items), d)
      && context.nextCalls == old(context.nextCalls) + (if threw then 0 else 1)
  {
    if context.isAuthenticated {
      var userId := SelectUserIdClaim(context.claims);
      var userName := SelectUserName(context.claims);
      if userId.None? {
        return true;
      }
      var value := userId.value.value;
      if value != "" && parseGuid(value).Some? {
        var domainUser := User(parseGuid(value).value, userName);
        context.items := context.items[DomainUserKey := DomainUserItem(domainUser)];
      }
    }
    context.Next();
    threw := false;
  }

  /** `InvokeAsync` with the null check added: never throws, and `next` runs
      exactly once. */
  method InvokeAsyncNullSafe(context: HttpContext, parseGuid: string -> Option<Guid>)
    modifies context`items, context`nextCalls
    ensures context.items == ItemsAfter(old(context.items), DecideNullSafe(context.isAuthenticated, context.claims, parseGuid))
    ensures context.nextCalls == old(context.nextCalls) + 1
  {
    if context.isAuthenticated {
      var userId := SelectUserIdClaim(context.claims);
      var userName := SelectUserName(context.claims);
      if userId.Some? && userId.value.value != "" && parseGuid(userId.value.value).Some? {
        var domainUser := User(parseGuid(userId.value.value).value, userName);
        context.items := context.items[DomainUserKey := DomainUserItem(domainUser)];
      }
    }
    context.Next();
  }

  /** The id claim is the first present of "sub", the name identifier and
      "user_id": a later type is consulted only when every earlier one is
      missing, and there is no id claim exactly when all three are. */
  lemma IdClaimFallback(claims: seq<Claim>)
    ensures FindFirst(claims, "sub").Some? ==> SelectUserIdClaim(claims) == FindFirst(claims, "sub")
    ensures FindFirst(claims, "sub").None? && FindFirst(claims, NameIdentifierClaimType).Some? ==>
              SelectUserIdClaim(claims) == FindFirst(claims, NameIdentifierClaimType)
    ensures FindFirst(claims, "sub").None? && FindFirst(claims, NameIdentifierClaimType).None? ==>
              SelectUserIdClaim(claims) == FindFirst(claims, "user_id")
    ensures SelectUserIdClaim(claims).None? <==>
              forall i :: 0 <= i < |claims| ==>
                !EqualsIgnoreCase(claims[i].claimType, "sub")
                && !EqualsIgnoreCase(claims[i].claimType, NameIdentifierClaimType)
                && !EqualsIgnoreCase(claims[i].claimType, "user_id")
  {
  }

  /** The name falls back from "name" to "preferred_username" to "Unknown";
      a present claim is used even when its value is empty. */
  lemma UserNameFallback(claims: seq<Claim>)
    ensures FindFirst(claims, "name").Some? ==> SelectUserName(claims) == FindFirst(claims, "name").value.value
    ensures FindFirst(claims, "name").None? && FindFirst(claims, "preferred_username").Some? ==>
              SelectUserName(claims) == FindFirst(claims, "preferred_username").value.value
    ensures SelectUserName(claims) == UnknownUserName <== FindFirst(claims, "name").None? && FindFirst(claims, "preferred_username").None?
  {
  }

  /** As written: a domain user is stored iff the request is authenticated,
      the id claim's value is non-empty and parses; an unauthenticated request
      never throws and leaves `Items` alone. */
  lemma DecideSemantics(isAuthenticated: bool, claims: seq<Claim>, parseGuid: string -> Option<Guid>)
    ensures var d := Decide(isAuthenticated, claims, parseGuid);
      && (d.StoreUser? <==>
            isAuthenticated && SelectUserIdClaim(claims).Some?
            && SelectUserIdClaim(claims).value.value != ""
            && parseGuid(SelectUserIdClaim(claims).value.value).Some?)
      && (d == NullReference <==> isAuthenticated && SelectUserIdClaim(claims).None?)
      && (!isAuthenticated ==> d == Skip)
  {
  }

  /** The discrepancy: an authenticated principal without any id claim makes
      the middleware throw instead of passing the request on. */
  lemma NoIdClaimThrows(parseGuid: string -> Option<Guid>)
    ensures Decide(true, [Claim("name", "alice")], parseGuid) == NullReference
  {
    assert !EqualsIgnoreCase("name", "sub");
    assert !EqualsIgnoreCase("name", NameIdentifierClaimType);
    assert ToLowerAscii("name") == "name" && ToLowerAscii("user_id") == "user_id";
  }

  /** The corrected middleware agrees with the written one wherever the
      written one does not throw. */
  lemma NullSafeAgrees(isAuthenticated: bool, claims: seq<Claim>, parseGuid: string -> Option<Guid>)
    requires Decide(isAuthenticated, claims, parseGuid) != NullReference
    ensures DecideNullSafe(isAuthenticated, claims, parseGuid) == Decide(isAuthenticated, claims, parseGuid)
  {
  }

  /** A stored user is what `GetDomainUser` hands the controllers. */
  lemma StoredUserIsVisible(items: map<string, Item>, d: Decision)
    ensures d.StoreUser? ==> GetDomainUser(ItemsAfter(items, d)) == Some(d.user)
    ensures !d.StoreUser? ==> ItemsAfter(items, d) == items
  {
  }
}
