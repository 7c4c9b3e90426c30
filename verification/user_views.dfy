/**
  The decision logic of the account views: where an authenticated visitor is
  sent, the login path, the error ladder of the password-reset resend, and the
  purpose dispatch of the mail helper.

  Sending mail is an effect recorded by purpose; tokens, sessions and rendering
  are left out. Which stored account the submitted password belongs to is an
  input.
 */
module UserViews {
  import opened Wrappers
  import opened Text
  import opened UserModels
  import Permissions

  datatype Purpose = Verification | PasswordReset

  /** What a view answers with. */
  datatype Reply =
    | RedirectTo(name: string)
    | LoginPage(error: Option<LoginError>)
    | Forbidden
    | JsonReply(status: nat, message: string)

  /**
    The errors the login page can show: the Google message, the generic credential
    message the view puts in place of the form's own, and the form's own message
    when the view leaves it.
   */
  datatype LoginError = GoogleAccount | BadCredentials | FormRejected

  /** A reply, the mails sent on the way, and whether the visitor got logged in. */
  datatype Step = Step(reply: Reply, mails: seq<Purpose>, loggedIn: bool)

  const DASHBOARD: string := "dashboard"
  const CONTENT_MANAGER_DASHBOARD: string := "content_manager_dashboard"
  const VERIFY_EMAIL_PAGE: string := "verify_email_page"

  // ---------------------------------------------------------------------------
  // `_send_email`

  /** The part of the mail the purpose decides: its subject and the route its link points at. */
  datatype Mail = Mail(subject: string, route: string)

  datatype EmailError = InvalidPurpose

  function PurposeValue(p: Purpose): string {
    match p
    case Verification => "verification"
    case PasswordReset => "password_reset"
  }

  /** `_send_email`'s dispatch on the purpose string. */
  function SendEmail(purpose: string): (r: Result<Mail, EmailError>)
    ensures r.Ok? <==> exists p :: purpose == PurposeValue(p)
    ensures r.Ok? && purpose == PurposeValue(Verification) ==> r.value.route == "verify_email"
    ensures r.Ok? && purpose == PurposeValue(PasswordReset) ==> r.value.route == "verify_password_reset"
  {
    if purpose == "verification" then
      assert purpose == PurposeValue(Verification);
      Ok(Mail("Verify Your Email", "verify_email"))
    else if purpose == "password_reset" then
      assert purpose == PurposeValue(PasswordReset);
      Ok(Mail("Reset Your Password", "verify_password_reset"))
    else
      assert forall p :: purpose != PurposeValue(p);
      Err(InvalidPurpose)
  }

  /** The two purposes give mails with different subjects and links. */
  lemma SendEmailDistinguishesPurposes()
    ensures SendEmail(PurposeValue(Verification)).Ok? && SendEmail(PurposeValue(PasswordReset)).Ok?
    ensures SendEmail(PurposeValue(Verification)).value.subject != SendEmail(PurposeValue(PasswordReset)).value.subject
    ensures SendEmail(PurposeValue(Verification)).value.route != SendEmail(PurposeValue(PasswordReset)).value.route
  {
  }

  // ---------------------------------------------------------------------------
  // Redirects of authenticated visitors

  /** `_redirect_user_dashboard`: by role; any other role raises `PermissionDenied`. */
  function RedirectUserDashboard(u: User): (r: Reply)
    ensures r == RedirectTo(DASHBOARD) <==> ParseRole(u.role) == Some(NormalUser)
    ensures r == RedirectTo(CONTENT_MANAGER_DASHBOARD) <==> ParseRole(u.role) == Some(ContentManager)
    ensures r.RedirectTo? || r == Forbidden
  {
    if u.role == NORMAL_USER then RedirectTo(DASHBOARD)
    else if u.role == CONTENT_MANAGER then RedirectTo(CONTENT_MANAGER_DASHBOARD)
    else Forbidden
  }

  /**
    The dashboard a user is sent to is one whose access test admits that user, so
    the redirect never bounces.
   */
  lemma DashboardAdmitsUser(u: User)
    ensures RedirectUserDashboard(u) == RedirectTo(DASHBOARD) ==> Permissions.NormalUserRequired(Authenticated(u))
    ensures RedirectUserDashboard(u) == RedirectTo(CONTENT_MANAGER_DASHBOARD) ==>
              Permissions.ContentManagerRequired(Authenticated(u))
    ensures RedirectUserDashboard(u) == Forbidden <==>
              !Permissions.NormalUserRequired(Authenticated(u)) && !Permissions.ContentManagerRequired(Authenticated(u))
  {
  }

  /**
    `_redirect_authenticated_user`: nothing for anonymous visitors and superusers;
    an unverified user is mailed a verification link and sent to the waiting page;
    anyone else goes to the role's dashboard.
   */
  function RedirectAuthenticatedUser(p: Principal): (r: Option<Step>)
    ensures r.None? <==> p.Anonymous? || p.user.isSuperuser
    ensures r.Some? ==> !r.value.loggedIn
    ensures r.Some? ==> (r.value.mails == [Verification] <==> !p.user.isVerified)
    ensures r.Some? && !p.user.isVerified ==> r.value.reply == RedirectTo(VERIFY_EMAIL_PAGE)
    ensures r.Some? && p.user.isVerified ==> r.value == Step(RedirectUserDashboard(p.user), [], false)
  {
    match p
    case Anonymous => None
    case Authenticated(u) =>
      if u.isSuperuser then None
      else if !u.isVerified then Some(Step(RedirectTo(VERIFY_EMAIL_PAGE), [Verification], false))
      else Some(Step(RedirectUserDashboard(u), [], false))
  }

  // ---------------------------------------------------------------------------
  // `user_login`

  datatype Method = Get | Post

  /**
    Whether the submitted password opens row `i`: `pw(i)` says it is that row's
    password, which an unusable password never is, and the account is active
    (`user_can_authenticate`).
   */
  predicate Opens(t: UserTable, pw: nat -> bool, i: nat)
    requires i < |t|
  {
    pw(i) && t[i].usablePassword && t[i].isActive
  }

  /** A row allauth's backend can log in with `email`: same address up to case, and the password opens it. */
  predicate CaselessOpens(t: UserTable, email: string, pw: nat -> bool, i: nat)
    requires i < |t|
  {
    Lower(t[i].email) == email && Opens(t, pw, i)
  }

  /** The first row from `from` on, in key order, that allauth's e-mail lookup would log in. */
  function FirstCaselessFrom(t: UserTable, email: string, pw: nat -> bool, from: nat): (r: Option<nat>)
    requires from <= |t|
    ensures r.Some? ==> from <= r.value < |t| && CaselessOpens(t, email, pw, r.value)
    ensures r.Some? ==> forall j :: from <= j < r.value ==> !CaselessOpens(t, email, pw, j)
    ensures r.None? ==> forall j :: from <= j < |t| ==> !CaselessOpens(t, email, pw, j)
    decreases |t| - from
  {
    if from == |t| then None
    else if CaselessOpens(t, email, pw, from) then Some(from)
    else FirstCaselessFrom(t, email, pw, from + 1)
  }

  /**
    `authenticate()` as `AuthenticationForm` calls it, through the two configured
    backends in order: Django's `ModelBackend` looks the address up exactly, then
    allauth's backend (login by e-mail) looks it up ignoring case. The form
    refuses an empty address before either runs. The address is the view's
    normalised one, so it has no upper-case letter.
   */
  function Authenticate(t: UserTable, email: string, pw: nat -> bool): (r: Option<nat>)
    requires NoUpper(email)
    ensures r.Some? ==> r.value < |t| && Lower(t[r.value].email) == email && Opens(t, pw, r.value)
    ensures r.None? <==> email == "" || forall j :: 0 <= j < |t| ==> !CaselessOpens(t, email, pw, j)
    ensures var exact := FindByEmail(t, email);
            email != "" && exact.Some? && Opens(t, pw, exact.value) ==> r == exact
  {
    if email == "" then None
    else match FindByEmail(t, email)
      case Some(i) =>
        if Opens(t, pw, i) then
          LowerNormalises(email);
          assert CaselessOpens(t, email, pw, i);
          Some(i)
        else FirstCaselessFrom(t, email, pw, 0)
      case None => FirstCaselessFrom(t, email, pw, 0)
  }

  /**
    `user_login`. Visitors the redirect rule sends away never see the form. A POST
    normalises the address; an account holding exactly that address without a
    usable password gets the Google message; otherwise the form authenticates,
    a superuser gets the generic credential message, and any other
    authenticated user is logged in and sent on like an authenticated visitor.
    When nothing authenticates, the generic message replaces the form's own only
    if no account holds exactly that address.
   */
  function UserLogin(t: UserTable, p: Principal, verb: Method, submitted: string, pw: nat -> bool): (r: Step)
    ensures RedirectAuthenticatedUser(p).Some? ==> r == RedirectAuthenticatedUser(p).value
    ensures RedirectAuthenticatedUser(p).None? && verb == Get ==> r == Step(LoginPage(None), [], false)
    ensures var email := NormalizeEmail(submitted);
            var found := FindByEmail(t, email);
            var google := found.Some? && !t[found.value].usablePassword;
            var auth := Authenticate(t, email, pw);
            RedirectAuthenticatedUser(p).None? && verb == Post ==>
              && (google ==> r == Step(LoginPage(Some(GoogleAccount)), [], false))
              && (r.loggedIn <==> !google && auth.Some? && !t[auth.value].isSuperuser)
              && (r.loggedIn && !t[auth.value].isVerified ==> r == Step(RedirectTo(VERIFY_EMAIL_PAGE), [Verification], true))
              && (r.loggedIn && t[auth.value].isVerified ==> r == Step(RedirectUserDashboard(t[auth.value]), [], true))
              && (!google && auth.Some? && t[auth.value].isSuperuser ==> r == Step(LoginPage(Some(BadCredentials)), [], false))
              && (found.None? && auth.None? ==> r == Step(LoginPage(Some(BadCredentials)), [], false))
              && (!google && found.Some? && auth.None? ==> r == Step(LoginPage(Some(FormRejected)), [], false))
  {
    match RedirectAuthenticatedUser(p)
    case Some(step) => step
    case None =>
      if verb == Get then Step(LoginPage(None), [], false)
      else
        var email := NormalizeEmail(submitted);
        var found := FindByEmail(t, email);
        if found.Some? && !t[found.value].usablePassword then Step(LoginPage(Some(GoogleAccount)), [], false)
        else match Authenticate(t, email, pw)
          case Some(i) =>
            var u := t[i];
            if u.isSuperuser then Step(LoginPage(Some(BadCredentials)), [], false)
            else if !u.isVerified then Step(RedirectTo(VERIFY_EMAIL_PAGE), [Verification], true)
            else Step(RedirectUserDashboard(u), [], true)
          case None =>
            if found.None? then Step(LoginPage(Some(BadCredentials)), [], false)
            else Step(LoginPage(Some(FormRejected)), [], false)
  }

  /** Whoever this page logs in is an account the password opens, and never a superuser. */
  lemma LoginRefusesSuperusers(t: UserTable, p: Principal, verb: Method, submitted: string, pw: nat -> bool)
    ensures var auth := Authenticate(t, NormalizeEmail(submitted), pw);
            UserLogin(t, p, verb, submitted, pw).loggedIn && RedirectAuthenticatedUser(p).None? ==>
              auth.Some? && !t[auth.value].isSuperuser && Opens(t, pw, auth.value)
  {
  }

  /**
    An account stored with upper-case letters in its address still logs in: the
    exact lookup of the lower-cased address finds nothing, and allauth's
    backend finds the account ignoring case.
   */
  lemma MixedCaseAddressLogsIn(u: User)
    requires u.email == "Alice@x.com" && u.role == NORMAL_USER
    requires u.usablePassword && u.isActive && u.isVerified && !u.isSuperuser
    ensures var r := UserLogin([u], Anonymous, Post, "Alice@x.com", i => true);
            r.loggedIn && r.reply == RedirectTo(DASHBOARD)
  {
    var submitted := "Alice@x.com";
    StripTrimmed(Python, submitted);
    var email := NormalizeEmail(submitted);
    assert email == Lower(submitted);
    assert u.email != email by { assert email[0] == LowerChar('A') == 'a'; }
    assert FindByEmail([u], email).None?;
    assert Lower(u.email) == email;
    var pw: nat -> bool := i => true;
    assert CaselessOpens([u], email, pw, 0);
    assert Authenticate([u], email, pw) == Some(0);
  }

  /** The submitted address matters only up to case and surrounding whitespace. */
  lemma LoginIgnoresCaseAndPadding(t: UserTable, p: Principal, verb: Method, s: string, pre: string, post: string, pw: nat -> bool)
    requires AllSpace(Python, pre) && AllSpace(Python, post)
    ensures UserLogin(t, p, verb, pre + Lower(s) + post, pw) == UserLogin(t, p, verb, s, pw)
  {
    NormalizeIgnoresCaseAndPadding(s, pre, post);
  }

  // ---------------------------------------------------------------------------
  // `resend_password_reset_verification`

  /**
    The resend endpoint, checked in order: the method, the address kept in the
    session, the account (404 when none), whether it is active; then the reset
    mail goes out.
   */
  function ResendPasswordReset(t: UserTable, verb: Method, sessionEmail: Option<string>): (r: Step)
    ensures !r.loggedIn
    ensures r.reply.JsonReply?
    ensures verb == Get ==> r.reply.status == 400 && r.mails == []
    ensures r.mails == [PasswordReset] <==>
              verb == Post && sessionEmail.Some? && sessionEmail.value != ""
              && FindByEmail(t, sessionEmail.value).Some? && t[FindByEmail(t, sessionEmail.value).value].isActive
    ensures r.mails != [] <==> r.reply.status == 200
    ensures r.reply.status == 404 <==>
              verb == Post && sessionEmail.Some? && sessionEmail.value != "" && FindByEmail(t, sessionEmail.value).None?
    ensures r.reply.status in {200, 400, 404}
  {
    if verb != Post then Step(JsonReply(400, "Invalid request method."), [], false)
    else if sessionEmail.None? || sessionEmail.value == "" then Step(JsonReply(400, "Email is required."), [], false)
    else match FindByEmail(t, sessionEmail.value)
      case None => Step(JsonReply(404, "User with this email does not exist."), [], false)
      case Some(i) =>
        if !t[i].isActive then Step(JsonReply(400, "User account is not active."), [], false)
        else Step(JsonReply(200, "Password reset verification email has been resent."), [PasswordReset], false)
  }
}
