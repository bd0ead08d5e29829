/** `HttpContextExtensions`: reading back the domain user that the
    domain-user middleware stores in the request's `Items`. Both members read
    only `context.Items`, so they take that dictionary. */
module HttpContextExtensions {
  import opened Wrappers
  import opened Domain
  import opened Http

  const DomainUserKey := "DomainUser"
  const DomainUserNotFoundMessage := "Domain user not found in HttpContext. Ensure the request is authenticated."

  /** The stored user when the key holds a `User`, null otherwise. */
  function GetDomainUser(items: map<string, Item>): (u: Option<User>)
    ensures u.Some? <==> DomainUserKey in items && items[DomainUserKey].DomainUserItem?
    ensures u.Some? ==> u.value == items[DomainUserKey].user
  {
    if DomainUserKey in items && items[DomainUserKey].DomainUserItem? then Some(items[DomainUserKey].user) else None
  }

  /** The stored user, or an `InvalidOperationException` exactly when
      `GetDomainUser` gives null. */
  function GetDomainUserOrThrow(items: map<string, Item>): (r: Result<User>)
    ensures r.Ok? <==> GetDomainUser(items).Some?
    ensures r.Ok? ==> r.value == items[DomainUserKey].user
    ensures r.Fail? ==> r.error == Error(DomainUserNotFoundMessage, InvalidOperation)
  {
    match GetDomainUser(items)
    case Some(u) => Ok(u)
    case None => Fail(Error(DomainUserNotFoundMessage, InvalidOperation))
  }
}
