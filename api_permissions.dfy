/**
 * The permission classes of the API, as boolean formulas over the request
 * method and the requesting user's flags. `isAdmin` and `isModerator` are
 * taken as given flags of the user.
 */
module ApiPermissions {
  import opened Base

  /** The requesting user: `id` is `None` for an anonymous user. */
  datatype RequestUser = RequestUser(id: Option<int>, isAdmin: bool, isModerator: bool) {
    predicate IsAuthenticated() { id.Some? }
  }

  datatype Request = Request(httpMethod: string, user: RequestUser)

  /** The REST framework's read-only methods. */
  const SafeMethods: set<string> := {"GET", "HEAD", "OPTIONS"}

  predicate IsSafe(r: Request) { r.httpMethod in SafeMethods }

  /** `IsAuthorOrAdminOrReadOnly.has_permission`. */
  function AuthorOrAdminOrReadOnlyHasPermission(r: Request): (allowed: bool)
    ensures IsSafe(r) ==> allowed
    ensures !IsSafe(r) ==> (allowed <==> r.user.IsAuthenticated())
  {
    r.httpMethod in SafeMethods || r.user.IsAuthenticated()
  }

  /**
   * `IsAuthorOrAdminOrReadOnly.has_object_permission` for an object written by
   * `author`. An anonymous user is never the author.
   */
  function AuthorOrAdminOrReadOnlyHasObjectPermission(r: Request, author: int): (allowed: bool)
    ensures IsSafe(r) ==> allowed
    ensures !IsSafe(r) ==> (allowed <==> r.user.id == Some(author) || r.user.isModerator || r.user.isAdmin)
    ensures r.user.isAdmin || r.user.isModerator ==> allowed
  {
    r.httpMethod in SafeMethods || r.user.id == Some(author) || r.user.isModerator || r.user.isAdmin
  }

  /** `IsAdmin.has_permission`: the method plays no part. */
  function AdminHasPermission(r: Request): (allowed: bool)
    ensures allowed ==> r.user.IsAuthenticated()
    ensures allowed ==> r.user.isAdmin
  {
    r.user.IsAuthenticated() && r.user.isAdmin
  }

  /** `IsAdmin` gives the same answer for every method. */
  lemma AdminIgnoresMethod(r: Request, m: string)
    ensures AdminHasPermission(Request(m, r.user)) == AdminHasPermission(r)
  {
  }

  /** `IsAdminOrReadOnly.has_permission`: `safe or (authenticated and admin)`, as `and` binds tighter. */
  function AdminOrReadOnlyHasPermission(r: Request): (allowed: bool)
    ensures IsSafe(r) ==> allowed
    ensures !IsSafe(r) ==> (allowed <==> AdminHasPermission(r))
  {
    r.httpMethod in SafeMethods || (r.user.IsAuthenticated() && r.user.isAdmin)
  }

  /** An anonymous write request is refused by every `has_permission`. */
  lemma AnonymousWriteRefused(r: Request)
    requires !r.user.IsAuthenticated() && !IsSafe(r)
    ensures !AuthorOrAdminOrReadOnlyHasPermission(r)
    ensures !AdminHasPermission(r)
    ensures !AdminOrReadOnlyHasPermission(r)
  {
  }

  /** An authenticated admin passes every check, whatever the method and the object's author. */
  lemma AdminAllowedEverywhere(r: Request, author: int)
    requires r.user.IsAuthenticated() && r.user.isAdmin
    ensures AuthorOrAdminOrReadOnlyHasPermission(r)
    ensures AuthorOrAdminOrReadOnlyHasObjectPermission(r, author)
    ensures AdminHasPermission(r)
    ensures AdminOrReadOnlyHasPermission(r)
  {
  }

  /** The three `has_permission` checks are ordered from strictest to loosest. */
  lemma PermissionsNested(r: Request)
    ensures AdminHasPermission(r) ==> AdminOrReadOnlyHasPermission(r)
    ensures AdminOrReadOnlyHasPermission(r) ==> AuthorOrAdminOrReadOnlyHasPermission(r)
  {
  }

  /**
   * The grouping matters: with `(safe or authenticated) and admin` a
   * non-admin reader would be refused, while the source lets them read.
   */
  lemma ReadersNeedNotBeAdmin(u: RequestUser)
    requires !u.isAdmin
    ensures AdminOrReadOnlyHasPermission(Request("GET", u))
    ensures !(("GET" in SafeMethods || u.IsAuthenticated()) && u.isAdmin)
  {
  }
}
