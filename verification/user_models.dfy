/**
  The custom user model and its manager (apps/users/models.py): role choices, the
  defaults of a new account, `create_user` / `create_superuser`, and the `save`
  override that fills a missing username and pins the role of a stored user.

  The user table is a sequence whose row `i` has primary key `i`; a new row is
  appended. Django's `normalize_email` is passed in as an opaque function.
 */
module UserModels {
  import opened Wrappers
  import Text

  const NORMAL_USER: string := "normal"
  const CONTENT_MANAGER: string := "content_manager"
  const SUPERUSER: string := "superuser"

  /** `CustomUser.ROLE_CHOICES`. */
  datatype Role = NormalUser | ContentManager | SuperuserRole

  function RoleValue(r: Role): string {
    match r
    case NormalUser => NORMAL_USER
    case ContentManager => CONTENT_MANAGER
    case SuperuserRole => SUPERUSER
  }

  function ParseRole(v: string): Option<Role> {
    if v == NORMAL_USER then Some(NormalUser)
    else if v == CONTENT_MANAGER then Some(ContentManager)
    else if v == SUPERUSER then Some(SuperuserRole)
    else None
  }

  /** Roles and their stored values correspond one to one, within the 20-character column. */
  lemma RoleChoices(r: Role, v: string)
    ensures ParseRole(RoleValue(r)) == Some(r)
    ensures ParseRole(v) == Some(r) <==> v == RoleValue(r)
    ensures 0 < |RoleValue(r)| <= 20
  {
  }

  /**
    A user row. `role` is the stored string: the column has choices but nothing
    below the form layer enforces them. `usablePassword` stands for
    `has_usable_password()`.
   */
  datatype User = User(
    pk: Option<nat>,
    email: string,
    username: string,
    role: string,
    isStaff: bool,
    isSuperuser: bool,
    isActive: bool,
    isVerified: bool,
    usablePassword: bool)

  /** `request.user`: the anonymous user has no role at all. */
  datatype Principal = Anonymous | Authenticated(user: User)

  predicate IsNormalUser(u: User) { u.role == NORMAL_USER }

  predicate IsContentManager(u: User) { u.role == CONTENT_MANAGER }

  predicate IsSuperuserRole(u: User) { u.role == SUPERUSER }

  /**
    For a role among the three choices exactly one role predicate holds; for any
    other stored string none does.
   */
  lemma RolePredicatesPartition(u: User)
    ensures ParseRole(u.role).Some? ==>
              (IsNormalUser(u) <==> !IsContentManager(u) && !IsSuperuserRole(u))
              && (IsContentManager(u) ==> !IsSuperuserRole(u))
              && (IsNormalUser(u) || IsContentManager(u) || IsSuperuserRole(u))
    ensures ParseRole(u.role).None? ==> !IsNormalUser(u) && !IsContentManager(u) && !IsSuperuserRole(u)
  {
  }

  type UserTable = seq<User>

  /** Row `i` carries primary key `i`. */
  predicate WellKeyed(t: UserTable) {
    forall i :: 0 <= i < |t| ==> t[i].pk == Some(i)
  }

  /** `email = EmailField(unique=True)`. */
  predicate EmailsUnique(t: UserTable) {
    forall i, j :: 0 <= i < |t| && 0 <= j < |t| && i != j ==> t[i].email != t[j].email
  }

  predicate EmailTakenByOther(t: UserTable, email: string, self: Option<nat>) {
    exists i :: 0 <= i < |t| && t[i].email == email && Some(i) != self
  }

  datatype UserError = EmailRequired | DoesNotExist | DuplicateEmail

  /** The first row from position `i` on holding e-mail `e`. */
  function FindFrom(t: UserTable, e: string, i: nat): (r: Option<nat>)
    requires i <= |t|
    ensures r.Some? ==> i <= r.value < |t| && t[r.value].email == e
                        && forall j :: i <= j < r.value ==> t[j].email != e
    ensures r.None? ==> forall j :: i <= j < |t| ==> t[j].email != e
    decreases |t| - i
  {
    if i == |t| then None
    else if t[i].email == e then Some(i)
    else FindFrom(t, e, i + 1)
  }

  /** `User.objects.filter(email=e).first()`: the first row holding exactly `e`. */
  function FindByEmail(t: UserTable, e: string): (r: Option<nat>)
    ensures r.Some? <==> EmailTakenByOther(t, e, None)
    ensures r.Some? ==> r.value < |t| && t[r.value].email == e
    ensures r.Some? ==> forall j :: 0 <= j < r.value ==> t[j].email != e
  {
    FindFrom(t, e, 0)
  }

  /** `str(email).split("@")[0]`. */
  function LocalPart(email: string): string {
    Text.BeforeFirst(email, '@')
  }

  /**
    `CustomUser.save()`: a stored user gets its stored role back, an empty username
    is filled from the e-mail's local part, then the row is written (inserted under
    the next key when new). A primary key without a row, or an e-mail another row
    holds, is an error.
   */
  function Save(t: UserTable, u: User): (r: Result<(UserTable, User), UserError>)
    requires WellKeyed(t)
    ensures r.Err? <==> (u.pk.Some? && u.pk.value >= |t|) || EmailTakenByOther(t, u.email, u.pk)
    ensures r.Err? && u.pk.Some? && u.pk.value >= |t| ==> r.error == DoesNotExist
    ensures r.Ok? ==> var (t', saved) := r.value;
              && WellKeyed(t')
              && saved.pk.Some? && saved.pk.value < |t'| && t'[saved.pk.value] == saved
              && saved.email == u.email
              && saved.username == (if u.username == "" then LocalPart(u.email) else u.username)
              && saved.role == (if u.pk.Some? then t[u.pk.value].role else u.role)
              && saved == u.(pk := saved.pk, username := saved.username, role := saved.role)
              && (u.pk.None? ==> |t'| == |t| + 1 && t'[..|t|] == t)
              && (u.pk.Some? ==> |t'| == |t| && forall i :: 0 <= i < |t| && i != u.pk.value ==> t'[i] == t[i])
  {
    if u.pk.Some? && u.pk.value >= |t| then Err(DoesNotExist)
    else if EmailTakenByOther(t, u.email, u.pk) then Err(DuplicateEmail)
    else
      var role := if u.pk.Some? then t[u.pk.value].role else u.role;
      var username := if u.username == "" then LocalPart(u.email) else u.username;
      match u.pk
      case Some(i) =>
        var saved := u.(role := role, username := username);
        Ok((t[i := saved], saved))
      case None =>
        var saved := u.(pk := Some(|t|), role := role, username := username);
        Ok((t + [saved], saved))
  }

  /** A successful save never gives two rows the same e-mail. */
  lemma SaveKeepsEmailsUnique(t: UserTable, u: User)
    requires WellKeyed(t) && EmailsUnique(t)
    requires Save(t, u).Ok?
    ensures EmailsUnique(Save(t, u).value.0)
  {
    var (t', saved) := Save(t, u).value;
    forall i, j | 0 <= i < |t'| && 0 <= j < |t'| && i != j
      ensures t'[i].email != t'[j].email
    {
      var k := saved.pk.value;
      if i == k {
        assert t'[j] == t[j];
        assert !(t[j].email == u.email && Some(j) != u.pk);
      } else if j == k {
        assert t'[i] == t[i];
        assert !(t[i].email == u.email && Some(i) != u.pk);
      } else {
        assert t'[i] == t[i] && t'[j] == t[j];
      }
    }
  }

  /** The keyword arguments a caller may pass to `create_user`. */
  datatype ExtraFields = ExtraFields(
    username: Option<string>,
    role: Option<string>,
    isStaff: Option<bool>,
    isSuperuser: Option<bool>,
    isActive: Option<bool>,
    isVerified: Option<bool>)

  const NoExtras := ExtraFields(None, None, None, None, None, None)

  /**
    `CustomUserManager.create_user`: an empty e-mail is refused; otherwise the
    address is normalised, a missing or empty username becomes the local part of
    the normalised address, unspecified fields take the model defaults (role
    "normal", not verified, active, not staff), and the password is usable iff one
    was given.
   */
  function CreateUser(t: UserTable, normalize: string -> string, email: string,
                      password: Option<string>, extra: ExtraFields): (r: Result<(UserTable, User), UserError>)
    requires WellKeyed(t)
    ensures email == "" ==> r == Err(EmailRequired)
    ensures r.Ok? ==> var (t', u) := r.value;
              && email != ""
              && u.email == normalize(email)
              && u.username == (if extra.username.Some? && extra.username.value != ""
                                then extra.username.value else LocalPart(normalize(email)))
              && u.role == extra.role.GetOr(NORMAL_USER)
              && u.isVerified == extra.isVerified.GetOr(false)
              && u.isStaff == extra.isStaff.GetOr(false)
              && u.isSuperuser == extra.isSuperuser.GetOr(false)
              && u.isActive == extra.isActive.GetOr(true)
              && u.usablePassword == password.Some?
              && u.pk == Some(|t|) && t' == t + [u]
    ensures r.Ok? <==> email != "" && !EmailTakenByOther(t, normalize(email), None)
    ensures email != "" && EmailTakenByOther(t, normalize(email), None) ==> r == Err(DuplicateEmail)
  {
    if email == "" then Err(EmailRequired)
    else
      var e := normalize(email);
      var username := if extra.username.Some? && extra.username.value != "" then extra.username.value
                      else LocalPart(e);
      var u := User(None, e, username, extra.role.GetOr(NORMAL_USER), extra.isStaff.GetOr(false),
                    extra.isSuperuser.GetOr(false), extra.isActive.GetOr(true),
                    extra.isVerified.GetOr(false), password.Some?);
      Save(t, u)
  }

  /** `dict.setdefault` on an optional field. */
  function SetDefault<T>(o: Option<T>, v: T): Option<T> {
    if o.Some? then o else Some(v)
  }

  /**
    `create_superuser`: staff, superuser and role "superuser" are the defaults, each
    applied only when the caller did not pass that field.
   */
  function CreateSuperuser(t: UserTable, normalize: string -> string, email: string,
                           password: Option<string>, extra: ExtraFields): (r: Result<(UserTable, User), UserError>)
    requires WellKeyed(t)
    ensures email == "" ==> r == Err(EmailRequired)
    ensures r.Ok? <==> email != "" && !EmailTakenByOther(t, normalize(email), None)
    ensures email != "" && EmailTakenByOther(t, normalize(email), None) ==> r == Err(DuplicateEmail)
    ensures r.Ok? ==> var (t', u) := r.value;
              && u.email == normalize(email)
              && u.isStaff == extra.isStaff.GetOr(true)
              && u.isSuperuser == extra.isSuperuser.GetOr(true)
              && u.role == extra.role.GetOr(SUPERUSER)
              && u.isVerified == extra.isVerified.GetOr(false)
              && u.isActive == extra.isActive.GetOr(true)
              && u.usablePassword == password.Some?
              && u.pk == Some(|t|) && t' == t + [u]
  {
    var extra' := extra.(isStaff := SetDefault(extra.isStaff, true),
                         isSuperuser := SetDefault(extra.isSuperuser, true),
                         role := SetDefault(extra.role, SUPERUSER));
    CreateUser(t, normalize, email, password, extra')
  }

  /** A new user created with no extra fields is a normal, unverified account. */
  lemma CreateUserDefaults(t: UserTable, normalize: string -> string, email: string, password: Option<string>)
    requires WellKeyed(t)
    requires email != "" && !EmailTakenByOther(t, normalize(email), None)
    ensures var r := CreateUser(t, normalize, email, password, NoExtras);
            && r.Ok?
            && IsNormalUser(r.value.1) && !r.value.1.isVerified && !r.value.1.isStaff
            && r.value.1.username == LocalPart(normalize(email))
            && '@' !in r.value.1.username
  {
  }

  /**
    A superuser created with no extra fields is stored as an active, unverified
    staff superuser with role "superuser", appended under the next key.
   */
  lemma CreateSuperuserDefaults(t: UserTable, normalize: string -> string, email: string, password: Option<string>)
    requires WellKeyed(t)
    requires email != "" && !EmailTakenByOther(t, normalize(email), None)
    ensures var r := CreateSuperuser(t, normalize, email, password, NoExtras);
            && r.Ok?
            && IsSuperuserRole(r.value.1) && r.value.1.isStaff && r.value.1.isSuperuser
            && r.value.1.isActive && !r.value.1.isVerified
            && r.value.1.username == LocalPart(normalize(email))
            && r.value.0 == t + [r.value.1]
  {
  }

  /**
    Applies a sequence of `save` calls; a call that raises leaves the table as it
    was.
   */
  function SaveEach(t: UserTable, us: seq<User>): (t': UserTable)
    requires WellKeyed(t)
    ensures WellKeyed(t') && |t'| >= |t|
    decreases |us|
  {
    if |us| == 0 then t
    else
      match Save(t, us[0])
      case Ok((t1, _)) => SaveEach(t1, us[1..])
      case Err(_) => SaveEach(t, us[1..])
  }

  /**
    Role immutability: whatever sequence of saves follows, a user that was already
    stored keeps the role it had.
   */
  lemma {:induction false} RoleNeverChanges(t: UserTable, us: seq<User>, i: nat)
    requires WellKeyed(t) && i < |t|
    ensures SaveEach(t, us)[i].role == t[i].role
    decreases |us|
  {
    if |us| > 0 {
      match Save(t, us[0])
      case Ok((t1, _)) =>
        assert t1[i].role == t[i].role;
        RoleNeverChanges(t1, us[1..], i);
      case Err(_) =>
        RoleNeverChanges(t, us[1..], i);
    }
  }
}
