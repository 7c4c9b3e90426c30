/**
  The signup form: `clean_email` normalises the submitted address and refuses one
  that an account already holds, telling a Google account apart from a password
  account; `save` stores the address lower-cased. The signup view then saves the
  new user unverified.
 */
module Signup {
  import opened Wrappers
  import opened Text
  import opened UserModels

  const GOOGLE_ACCOUNT_MESSAGE: string := "This email is registered with Google. Please log in using Google."
  const ACCOUNT_EXISTS_MESSAGE: string := "An account with this email already exists."

  datatype SignupError = RegisteredWithGoogle | AlreadyExists

  function Message(e: SignupError): string {
    match e
    case RegisteredWithGoogle => GOOGLE_ACCOUNT_MESSAGE
    case AlreadyExists => ACCOUNT_EXISTS_MESSAGE
  }

  /**
    `clean_email`: the trimmed, lower-cased address when no account holds it;
    otherwise an error decided by the first account that does.
   */
  function CleanEmail(t: UserTable, raw: string): (r: Result<string, SignupError>)
    ensures r.Ok? <==> !EmailTakenByOther(t, NormalizeEmail(raw), None)
    ensures r.Ok? ==> r.value == NormalizeEmail(raw) && NoUpper(r.value) && Trimmed(Python, r.value)
    ensures r == Err(RegisteredWithGoogle) <==>
              var found := FindByEmail(t, NormalizeEmail(raw));
              found.Some? && !t[found.value].usablePassword
  {
    var email := NormalizeEmail(raw);
    match FindByEmail(t, email)
    case None => Ok(email)
    case Some(i) => if !t[i].usablePassword then Err(RegisteredWithGoogle) else Err(AlreadyExists)
  }

  /** An address already held is refused under any change of case or surrounding whitespace. */
  lemma CleanEmailRejectsVariants(t: UserTable, s: string, pre: string, post: string, i: nat)
    requires AllSpace(Python, pre) && AllSpace(Python, post)
    requires i < |t| && t[i].email == NormalizeEmail(s)
    ensures CleanEmail(t, pre + Lower(s) + post).Err?
    ensures CleanEmail(t, pre + Lower(s) + post) == CleanEmail(t, s)
  {
    NormalizeIgnoresCaseAndPadding(s, pre, post);
  }

  /** A cleaned address passes the same check again unchanged. */
  lemma CleanEmailIdempotent(t: UserTable, raw: string)
    requires CleanEmail(t, raw).Ok?
    ensures CleanEmail(t, CleanEmail(t, raw).value) == CleanEmail(t, raw)
  {
    NormalizeIdempotent(raw);
  }

  /**
    `CustomSignupForm.save` followed by the signup view's `is_verified = False;
    save()`: a new user with the given username and the lower-cased address.
   */
  function SignupSave(t: UserTable, username: string, email: string): (r: Result<(UserTable, User), UserError>)
    requires WellKeyed(t)
    ensures r.Ok? ==> var (t', u) := r.value;
              && u.email == Lower(email) && NoUpper(u.email)
              && u.role == NORMAL_USER && !u.isVerified && u.usablePassword
              && u.pk == Some(|t|) && t' == t + [u]
    ensures r.Err? <==> EmailTakenByOther(t, Lower(email), None)
  {
    LowerNormalises(email);
    var u := User(None, Lower(email), username, NORMAL_USER, false, false, true, false, true);
    Save(t, u)
  }

  /**
    A cleaned address always saves, stored exactly as cleaned, and the table keeps
    one account per address.
   */
  lemma CleanThenSave(t: UserTable, raw: string, username: string)
    requires WellKeyed(t) && EmailsUnique(t)
    requires CleanEmail(t, raw).Ok?
    ensures var e := CleanEmail(t, raw).value;
            && SignupSave(t, username, e).Ok?
            && SignupSave(t, username, e).value.1.email == e
            && EmailsUnique(SignupSave(t, username, e).value.0)
  {
    var e := CleanEmail(t, raw).value;
    LowerNormalises(e);
    var u := User(None, Lower(e), username, NORMAL_USER, false, false, true, false, true);
    SaveKeepsEmailsUnique(t, u);
  }
}
