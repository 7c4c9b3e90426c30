/**
  The three project middlewares of apps/users/middleware.py, the duplicate
  `AdminRestrictionMiddleware` of apps/dashboard/middleware.py, and their
  composition in the order the settings list them (RestrictAdmin outermost,
  then AdminLogoutOnExit, then AdminRestriction, then the view).

  A middleware is a function of the request and of the effect its downstream
  handler would have; a middleware that short-circuits ignores that effect.
  `request.user` is read before and after the downstream handler: `principal`
  is the user the request arrives with, and an effect carries the user the
  handler leaves on the request, which `login()` and `logout()` replace.
 */
module Middleware {
  import opened Wrappers
  import opened UserModels

  const ADMIN_PREFIX: string := "/admin/"
  const LOOPBACK: string := "127.0.0.1"
  const PRIVATE_PREFIX: string := "192.168."

  /** `REMOTE_ADDR` is absent from `META` when the server does not set it. */
  datatype Request = Request(path: string, remoteAddr: Option<string>, principal: Principal)

  datatype Response = RedirectTo(url: string) | ViewResponse

  /**
    What handling a request amounts to: the response, whether the view ran,
    whether the session was flushed on the way out, and `request.user` once the
    handler has returned.
   */
  datatype Effect = Effect(response: Response, reachedView: bool, flushed: bool, userAfter: Principal)

  /** A view that leaves `after` as the request's user. */
  function View(after: Principal): Effect {
    Effect(ViewResponse, true, false, after)
  }

  /** A redirect to "/" that answers before the view, leaving the user as it was. */
  function Refused(req: Request): Effect {
    Effect(RedirectTo("/"), false, false, req.principal)
  }

  predicate IsAdminPath(path: string) { ADMIN_PREFIX <= path }

  predicate IsSuperuserPrincipal(p: Principal) { p.Authenticated? && p.user.isSuperuser }

  /** `RestrictAdminMiddleware.is_internal`: a missing address reads as "". */
  function IsInternal(req: Request): (b: bool)
    ensures req.remoteAddr.None? ==> !b
    ensures b ==> req.remoteAddr.Some? && |req.remoteAddr.value| >= |PRIVATE_PREFIX|
  {
    var ip := req.remoteAddr.GetOr("");
    PRIVATE_PREFIX <= ip || ip == LOOPBACK
  }

  /**
    Which addresses count as internal: exactly "127.0.0.1" and the addresses
    that continue "192.168.", whatever the path and the user.
   */
  lemma InternalAddresses(p: string, ip: string, pr: Principal)
    ensures IsInternal(Request(p, Some(ip), pr)) <==> ip == LOOPBACK || exists rest :: ip == PRIVATE_PREFIX + rest
  {
    if PRIVATE_PREFIX <= ip {
      assert ip == PRIVATE_PREFIX + ip[|PRIVATE_PREFIX|..];
    }
    forall rest | ip == PRIVATE_PREFIX + rest ensures PRIVATE_PREFIX <= ip {
      assert ip[..|PRIVATE_PREFIX|] == PRIVATE_PREFIX;
    }
  }

  /** Other loopback spellings and other private ranges are not internal. */
  lemma ExternalAddresses(p: string, pr: Principal)
    ensures !IsInternal(Request(p, Some(""), pr))
    ensures !IsInternal(Request(p, Some("127.0.0.2"), pr))
    ensures !IsInternal(Request(p, Some("::1"), pr))
    ensures !IsInternal(Request(p, Some("10.0.0.1"), pr))
  {
    assert "127.0.0.2"[1] != PRIVATE_PREFIX[1] && "127.0.0.2" != LOOPBACK;
    assert "10.0.0.1"[1] != PRIVATE_PREFIX[1];
    assert "::1"[0] != PRIVATE_PREFIX[0];
  }

  /** `RestrictAdminMiddleware.__call__`. */
  function RestrictAdmin(req: Request, downstream: Effect): (e: Effect)
    ensures IsAdminPath(req.path) && !IsInternal(req) ==> e == Refused(req)
    ensures !IsAdminPath(req.path) || IsInternal(req) ==> e == downstream
  {
    if IsAdminPath(req.path) && !IsInternal(req) then Refused(req)
    else downstream
  }

  /**
    `AdminLogoutOnExitMiddleware.__call__`: always hands the request on, then,
    looking at `request.user` as the handler left it, flushes the session of a
    superuser who is outside the admin site.
   */
  function AdminLogoutOnExit(req: Request, downstream: Effect): (e: Effect)
    ensures e.response == downstream.response && e.reachedView == downstream.reachedView
    ensures e.userAfter == downstream.userAfter
    ensures e.flushed <==> downstream.flushed || (IsSuperuserPrincipal(downstream.userAfter) && !IsAdminPath(req.path))
  {
    var user := downstream.userAfter;
    var flush := user.Authenticated? && user.user.isSuperuser && !IsAdminPath(req.path);
    downstream.(flushed := downstream.flushed || flush)
  }

  /** `AdminRestrictionMiddleware.__call__` (apps/users/middleware.py). */
  function AdminRestriction(req: Request, downstream: Effect): (e: Effect)
    ensures req.principal.Anonymous? ==> e == downstream
    ensures req.principal.Authenticated? && IsAdminPath(req.path) && !req.principal.user.isSuperuser
            ==> e == Refused(req)
    ensures e != downstream ==> e.response == RedirectTo("/") && !e.reachedView
  {
    if !req.principal.Authenticated? then downstream
    else if IsAdminPath(req.path) && !req.principal.user.isSuperuser then Refused(req)
    else downstream
  }

  /** `AdminRestrictionMiddleware.__call__` (apps/dashboard/middleware.py). */
  function DashboardAdminRestriction(req: Request, downstream: Effect): (e: Effect)
    ensures e == AdminRestriction(req, downstream)
  {
    match req.principal
    case Anonymous => downstream
    case Authenticated(u) =>
      if IsAdminPath(req.path) && !u.isSuperuser then Refused(req)
      else downstream
  }

  /** The project middleware stack around a view that leaves `after` as the request's user. */
  function Chain(req: Request, after: Principal): Effect {
    RestrictAdmin(req, AdminLogoutOnExit(req, AdminRestriction(req, View(after))))
  }

  /**
    Who reaches the admin site: a request under "/admin/" gets to the view iff it
    comes from an internal address and is anonymous or from a superuser; every
    other path always reaches the view. A session is flushed exactly when the
    view, outside the admin site, leaves a superuser as the request's user.
   */
  lemma ChainAdminAccess(req: Request, after: Principal)
    ensures IsAdminPath(req.path) ==>
              (Chain(req, after).reachedView <==> IsInternal(req) && (req.principal.Anonymous? || req.principal.user.isSuperuser))
    ensures !IsAdminPath(req.path) ==> Chain(req, after).reachedView && Chain(req, after).response == ViewResponse
    ensures !Chain(req, after).reachedView ==> Chain(req, after).response == RedirectTo("/")
    ensures Chain(req, after).flushed <==> IsSuperuserPrincipal(after) && !IsAdminPath(req.path)
  {
  }

  /**
    The flush follows the user after the view, not the one before it: a
    superuser who signs in as someone else, or signs out, keeps the new session;
    a view that leaves a superuser signed in off the admin site loses it.
   */
  lemma FlushFollowsViewUser(req: Request, other: Principal)
    requires !IsAdminPath(req.path) && IsSuperuserPrincipal(req.principal) && !IsSuperuserPrincipal(other)
    ensures !Chain(req, other).flushed
    ensures Chain(req, req.principal).flushed
  {
    ChainAdminAccess(req, other);
    ChainAdminAccess(req, req.principal);
  }

  /** The prefix test needs the trailing slash: "/admin" itself is never restricted. */
  lemma BareAdminUnrestricted(addr: Option<string>, p: Principal, after: Principal)
    ensures Chain(Request("/admin", addr, p), after).reachedView
  {
    assert !IsAdminPath("/admin");
  }
}
