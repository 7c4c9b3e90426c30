/**
  Google sign-in: the adapter's guard against signing in with Google on an
  address registered with a password, the verified flag and profile-picture name
  it sets on a new Google user, and the signal handler that marks Google users
  verified.

  The picture download and file write are left out; whether the Google profile
  carries a picture URL is an input.
 */
module Social {
  import opened Wrappers
  import opened Text
  import opened UserModels
  import Signup

  const GOOGLE: string := "google"
  const LOGIN_URL: string := "/login/"
  const PASSWORD_ACCOUNT_MESSAGE: string :=
    "This email is already registered with an email and password. Please log in using email."

  /** What `pre_social_login` does: return, or flash the message and redirect to the login page. */
  datatype Gate = Proceed | RejectToLogin

  /**
    `pre_social_login`: the social address, lower-cased, is looked up; the first
    account holding it stops the sign-in only when it has a usable password.
   */
  function PreSocialLogin(t: UserTable, email: string): (r: Gate)
    ensures r == RejectToLogin <==>
              var e := Lower(email);
              e != "" && FindByEmail(t, e).Some? && t[FindByEmail(t, e).value].usablePassword
  {
    var e := Lower(email);
    if e == "" then Proceed
    else match FindByEmail(t, e)
      case Some(i) => if t[i].usablePassword then RejectToLogin else Proceed
      case None => Proceed
  }

  /**
    For a non-empty address without surrounding whitespace, the Google guard and
    the signup form agree: Google sign-in is refused exactly when signup reports a
    password account, and an address signup reports as a Google account may sign
    in with Google.
   */
  lemma GateAgreesWithSignup(t: UserTable, email: string)
    requires email != "" && Trimmed(Python, email)
    ensures PreSocialLogin(t, email) == RejectToLogin <==> Signup.CleanEmail(t, email) == Err(Signup.AlreadyExists)
    ensures Signup.CleanEmail(t, email) == Err(Signup.RegisteredWithGoogle) ==> PreSocialLogin(t, email) == Proceed
  {
    StripTrimmed(Python, email);
    assert NormalizeEmail(email) == Lower(email);
    assert |Lower(email)| == |email|;
  }

  /** `f"{id}_profile.jpg"` under "profile_pictures". */
  function PictureName(id: nat): string {
    "profile_pictures/" + NatToString(id) + "_profile.jpg"
  }

  const PICTURE_PREFIX: string := "profile_pictures/"
  const PICTURE_SUFFIX: string := "_profile.jpg"

  /** Whose picture a stored name is, read back from the name alone. */
  function PictureOwner(name: string): Option<nat> {
    if |name| >= |PICTURE_PREFIX| + |PICTURE_SUFFIX|
       && name[..|PICTURE_PREFIX|] == PICTURE_PREFIX
       && name[|name| - |PICTURE_SUFFIX|..] == PICTURE_SUFFIX
    then
      var mid := name[|PICTURE_PREFIX|..|name| - |PICTURE_SUFFIX|];
      if |mid| > 0 && AllDigits(mid) then Some(DigitsValue(mid)) else None
    else None
  }

  /** Each user's picture name names that user and no other. */
  lemma PictureNameRoundTrip(id: nat)
    ensures PictureOwner(PictureName(id)) == Some(id)
  {
    var name := PictureName(id);
    var digits := NatToString(id);
    assert name[..|PICTURE_PREFIX|] == PICTURE_PREFIX;
    assert name[|name| - |PICTURE_SUFFIX|..] == PICTURE_SUFFIX;
    assert name[|PICTURE_PREFIX|..|name| - |PICTURE_SUFFIX|] == digits;
    NatToStringRoundTrip(id);
  }

  /**
    What `save_user` leaves behind: the user object it returns, the picture name
    when one was fetched, and the user's row in the table afterwards.
   */
  datatype SocialUser = SocialUser(user: User, profilePicture: Option<string>, row: User)

  /**
    `save_user` after the base adapter has stored `u`: a Google user is marked
    verified and, when the profile has a picture, given the picture name built
    from its key. The only `user.save()` sits inside the picture branch, so
    without a picture the verified flag stays on the object and never reaches
    the row.
   */
  function SaveUser(u: User, provider: string, hasPicture: bool): (r: SocialUser)
    requires u.pk.Some?
    ensures r.user == u.(isVerified := r.user.isVerified)
    ensures r.user.isVerified == (u.isVerified || provider == GOOGLE)
    ensures r.profilePicture.Some? <==> provider == GOOGLE && hasPicture
    ensures r.profilePicture.Some? ==> PictureOwner(r.profilePicture.value) == u.pk
    ensures r.row == u.(isVerified := r.row.isVerified)
    ensures r.row.isVerified <==> u.isVerified || (provider == GOOGLE && hasPicture)
  {
    if provider == GOOGLE then
      var user := u.(isVerified := true);
      if hasPicture then
        PictureNameRoundTrip(u.pk.value);
        SocialUser(user, Some(PictureName(u.pk.value)), user)
      else SocialUser(user, None, u)
    else SocialUser(u, None, u)
  }

  /**
    `save_user` as evidently intended: a Google user is saved once it is marked
    verified, whether or not the profile has a picture.
   */
  function SaveUserSaved(u: User, provider: string, hasPicture: bool): (r: SocialUser)
    requires u.pk.Some?
    ensures r.user == u.(isVerified := r.user.isVerified)
    ensures r.user.isVerified == (u.isVerified || provider == GOOGLE)
    ensures r.profilePicture.Some? <==> provider == GOOGLE && hasPicture
    ensures r.profilePicture.Some? ==> PictureOwner(r.profilePicture.value) == u.pk
    ensures r.row == r.user
  {
    var r := SaveUser(u, provider, hasPicture);
    r.(row := r.user)
  }

  /**
    `set_verified_for_google`: the user after the handler, and whether it was
    saved.
   */
  function SetVerifiedForGoogle(u: User, provider: string): (r: (User, bool))
    ensures r.1 <==> provider == GOOGLE
    ensures r.0 == u.(isVerified := r.0.isVerified)
    ensures r.0.isVerified == (u.isVerified || provider == GOOGLE)
  {
    if provider == GOOGLE then (u.(isVerified := true), true) else (u, false)
  }

  /** Running the handler twice leaves the user as running it once. */
  lemma SetVerifiedIdempotent(u: User, provider: string)
    ensures SetVerifiedForGoogle(SetVerifiedForGoogle(u, provider).0, provider).0 == SetVerifiedForGoogle(u, provider).0
  {
  }

  /**
    The adapter and the signal handler leave a Google user's object in the same
    state, but the adapter's row differs from the handler's exactly when the
    profile has no picture and the user was not verified before.
   */
  lemma SaveUserAgreesWithSignal(u: User, hasPicture: bool)
    requires u.pk.Some?
    ensures SaveUser(u, GOOGLE, hasPicture).user == SetVerifiedForGoogle(u, GOOGLE).0
    ensures SaveUser(u, GOOGLE, hasPicture).row != SetVerifiedForGoogle(u, GOOGLE).0 <==> !hasPicture && !u.isVerified
  {
  }

  /** A new Google user without a picture is stored unverified, although the returned object says verified. */
  lemma SaveUserLosesVerified(u: User)
    requires u.pk.Some? && !u.isVerified
    ensures SaveUser(u, GOOGLE, false).user.isVerified
    ensures !SaveUser(u, GOOGLE, false).row.isVerified
  {
  }

  /** Saving every Google user stores what the signal handler stores, picture or not. */
  lemma SaveUserSavedAgreesWithSignal(u: User, hasPicture: bool)
    requires u.pk.Some?
    ensures SaveUserSaved(u, GOOGLE, hasPicture).row == SetVerifiedForGoogle(u, GOOGLE).0
    ensures SaveUserSaved(u, GOOGLE, hasPicture).row.isVerified
  {
  }
}
