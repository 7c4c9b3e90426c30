/**
  The role tests that guard views: `normal_user_required` and
  `content_manager_required`, defined in apps/users/permissions.py and again,
  word for word, in apps/dashboard/views.py.
 */
module Permissions {
  import opened Wrappers
  import opened UserModels

  /** apps/users/permissions.py `normal_user_required`. */
  function NormalUserRequired(p: Principal): (ok: bool)
    ensures ok <==> p.Authenticated? && ParseRole(p.user.role) == Some(NormalUser)
  {
    p.Authenticated? && p.user.role == NORMAL_USER
  }

  /** apps/users/permissions.py `content_manager_required`. */
  function ContentManagerRequired(p: Principal): (ok: bool)
    ensures ok <==> p.Authenticated? && ParseRole(p.user.role) == Some(ContentManager)
  {
    p.Authenticated? && p.user.role == CONTENT_MANAGER
  }

  /** apps/dashboard/views.py `normal_user_required`, stated through the model's role predicate. */
  function DashboardNormalUserRequired(p: Principal): (ok: bool)
    ensures ok <==> NormalUserRequired(p)
  {
    match p
    case Anonymous => false
    case Authenticated(u) => IsNormalUser(u)
  }

  /** apps/dashboard/views.py `content_manager_required`. */
  function DashboardContentManagerRequired(p: Principal): (ok: bool)
    ensures ok <==> ContentManagerRequired(p)
  {
    match p
    case Anonymous => false
    case Authenticated(u) => IsContentManager(u)
  }

  /**
    No principal passes both tests, and neither an anonymous visitor nor a user
    with role "superuser" passes either, in both copies.
   */
  lemma PermissionsExclusive(p: Principal)
    ensures !(NormalUserRequired(p) && ContentManagerRequired(p))
    ensures !(DashboardNormalUserRequired(p) && DashboardContentManagerRequired(p))
    ensures p.Anonymous? ==> !NormalUserRequired(p) && !ContentManagerRequired(p)
    ensures p.Authenticated? && IsSuperuserRole(p.user) ==> !NormalUserRequired(p) && !ContentManagerRequired(p)
  {
  }
}
