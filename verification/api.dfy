/**
 * What every controller action shares: the authenticated caller, the
 * declarative `[Authorize]` gates re-expressed as one guard function, and the
 * HTTP result of an action.
 */
module Api {
  import opened Wrappers
  import opened Models

  /**
   * The request principal. `userId` is the `NameIdentifier` claim, which a
   * token may lack; `roles` are the role claims.
   */
  datatype Caller =
    | Anonymous
    | Authenticated(userId: Option<string>, roles: set<string>)

  const AdminRole := "ADMIN"

  /** `User.IsInRole("ADMIN")`. */
  predicate IsAdmin(c: Caller) {
    c.Authenticated? && AdminRole in c.roles
  }

  /** `User.FindFirst(ClaimTypes.NameIdentifier)?.Value`. */
  function UserIdOf(c: Caller): Option<string> {
    if c.Authenticated? then c.userId else None
  }

  /** The attribute on an action: `[AllowAnonymous]`, `[Authorize]` or `[Authorize(Roles = ...)]`. */
  datatype Policy = AllowAnonymous | AnyUser | RequireRole(role: string)

  /** Why a request was rejected with 400, one case per message of the source. */
  datatype Reason =
    | EmptyOrder
    | InvalidProductId(productId: int)
    | InvalidStatus
    | CannotCancel
    | IdMismatch
    | NameRequired
    | PriceNotPositive
    | InvalidCategoryId
    | CategoryNameRequired
    | BrandNameRequired
    | SearchTermRequired
    | FileNameRequired
    | NoFileUploaded
    | FileTooLarge
    | UnsupportedFileType

  datatype Error =
    | BadRequest(reason: Reason)
    | NotFound
    | Forbid
    | Unauthorized
    | ServerError

  /** The result of an action: 200 with a body, 201 with a body, 204, or an error. */
  datatype Response<+T> = Ok(value: T) | Created(value: T) | NoContent | Fail(error: Error)

  /** A mutating action's response together with the store it leaves behind. */
  datatype Reply<+T> = Reply(response: Response<T>, db: Db)

  /**
   * The authorization gate run before the action body: anonymous callers of
   * a protected action get 401, authenticated callers without the role get 403.
   */
  function Authorize(c: Caller, p: Policy): (e: Option<Error>)
    ensures e.None? <==> (p.AllowAnonymous? || (c.Authenticated? && (p.RequireRole? ==> p.role in c.roles)))
    ensures e.Some? ==> (e.value == Unauthorized <==> c.Anonymous?)
    ensures e.Some? ==> e.value == Unauthorized || e.value == Forbid
  {
    match p
    case AllowAnonymous => None
    case AnyUser => if c.Anonymous? then Some(Unauthorized) else None
    case RequireRole(r) =>
      if c.Anonymous? then Some(Unauthorized)
      else if r !in c.roles then Some(Forbid)
      else None
  }

  /** The access rule for a single order: an administrator, or the order's owner. */
  predicate CanActOn(c: Caller, o: Order) {
    IsAdmin(c) || o.userId == UserIdOf(c)
  }
}
