/**
 * The handlers of the authentication routes: signup, the verification link,
 * login and logout. The route file owns its own email gateway.
 */
module AuthRoutes {
  import opened Base
  import opened UserSchema
  import opened Store
  import opened Validation
  import opened EmailGateway
  import opened Tokens
  import opened Guards

  const InvalidEmail: string := "Invalid email address"
  const ShortPassword: string := "Password must be at least 8 characters long"
  const PasswordMismatch: string := "Passwords do not match"
  const EmailTaken: string := "Email already registered"
  const SignupSendFailed: string := "Failed to send verification email. Please try again."
  const GenericError: string := "An error occurred. Please try again."
  const SignupDone: string := "Signup successful! Check your email to verify your account."

  const InvalidLink: string := "Invalid or expired verification link"

  const FieldsRequired: string := "Email and password are required"
  const InvalidCredentials: string := "Invalid email or password"
  const VerifyFirst: string := "Please verify your email before logging in"

  /** The position of each validation message in the fixed order of the checks. */
  function Rank(message: string): int
  {
    if message == InvalidEmail then 0
    else if message == ShortPassword then 1
    else if message == PasswordMismatch then 2
    else 3
  }

  /** The signup checks pass for the email field. */
  predicate EmailAccepted(email: Option<string>)
  {
    Present(email) && ValidateEmail(email.value)
  }

  /** The signup checks pass for the password field. */
  predicate PasswordAccepted(password: Option<string>)
  {
    Present(password) && ValidatePassword(password.value)
  }

  /**
   * The `errors` array of signup: one message per failed check, in the order
   * email, password, confirmation, and nothing else.
   */
  function SignupErrors(email: Option<string>, password: Option<string>, confirmPassword: Option<string>): (errors: seq<string>)
    ensures InvalidEmail in errors <==> !EmailAccepted(email)
    ensures ShortPassword in errors <==> !PasswordAccepted(password)
    ensures PasswordMismatch in errors <==> password != confirmPassword
    ensures forall e :: e in errors ==> Rank(e) < 3
    ensures forall i, j :: 0 <= i < j < |errors| ==> Rank(errors[i]) < Rank(errors[j])
  {
    (if EmailAccepted(email) then [] else [InvalidEmail])
    + (if PasswordAccepted(password) then [] else [ShortPassword])
    + (if password != confirmPassword then [PasswordMismatch] else [])
  }

  /** `res.render('signup', { errors, email, success })`. */
  datatype SignupPage = SignupPage(errors: seq<string>, email: Option<string>, success: Option<string>)

  /** `res.render('verify-success')` or `res.render('verify-error', { message })`. */
  datatype VerifyPage = VerifySuccess | VerifyError(message: string)

  /** `res.render('login', { errors })` or `res.redirect(location)`. */
  datatype LoginPage = LoginForm(errors: seq<string>) | LoginRedirect(location: string)

  /** The login precondition chain; the first failed check decides. */
  datatype LoginDecision = LoginRejected(message: string) | LoginAccepted

  /**
   * The checks of login on the record found for the email: both fields present,
   * a user found, the password matching its hash, the user verified. A missing
   * user and a wrong password read the same.
   */
  function CheckLogin(email: Option<string>, password: Option<string>, found: Option<User>,
                      passwordMatches: (string, string) -> bool): (r: LoginDecision)
    ensures r == LoginRejected(FieldsRequired) <==> !Present(email) || !Present(password)
    ensures r == LoginRejected(InvalidCredentials) <==>
      Present(email) && Present(password) && (found.None? || !passwordMatches(password.value, found.value.password))
    ensures r == LoginRejected(VerifyFirst) <==>
      Present(email) && Present(password) && found.Some? && passwordMatches(password.value, found.value.password)
      && !found.value.isVerified
    ensures r == LoginAccepted <==>
      Present(email) && Present(password) && found.Some? && passwordMatches(password.value, found.value.password)
      && found.value.isVerified
  {
    if !Present(email) || !Present(password) then LoginRejected(FieldsRequired)
    else if found.None? then LoginRejected(InvalidCredentials)
    else if !passwordMatches(password.value, found.value.password) then LoginRejected(InvalidCredentials)
    else if !found.value.isVerified then LoginRejected(VerifyFirst)
    else LoginAccepted
  }

  /** An unknown email and a wrong password cannot be told apart by the answer. */
  lemma LoginDoesNotRevealAccounts(email: Option<string>, password: Option<string>, u: User,
                                   passwordMatches: (string, string) -> bool)
    requires Present(password) && !passwordMatches(password.value, u.password)
    ensures CheckLogin(email, password, None, passwordMatches) == CheckLogin(email, password, Some(u), passwordMatches)
  {
  }

  class AuthRouter {
    /** This file's own `emailsSentToday` / `emailResetTime`. */
    const gateway: Gateway

    constructor (loadDay: Day)
      ensures fresh(gateway) && gateway.Counter() == Quota(0, loadDay)
    {
      gateway := new Gateway(loadDay);
    }

    /**
     * POST /signup. `hashedPassword` is bcrypt's hash of the password and
     * `token` the fresh random token; both are computed outside the model.
     */
    method Signup(db: UserStore, email: Option<string>, password: Option<string>, confirmPassword: Option<string>,
                  hashedPassword: string, token: string, now: Ms, today: Day, sendGridOk: bool, resendOk: bool)
      returns (page: SignupPage, calls: seq<Provider>)
      requires db.Valid()
      modifies db, gateway
      ensures db.Valid()
      ensures AllTokensConsistent(old(db.users)) ==> AllTokensConsistent(db.users)
      // a failed check: no lookup, no write, no email
      ensures SignupErrors(email, password, confirmPassword) != [] ==>
        && page == SignupPage(SignupErrors(email, password, confirmPassword), email, None)
        && db.users == old(db.users) && calls == [] && gateway.Counter() == old(gateway.Counter())
      // an email already registered: rejected, nothing written, no email
      ensures SignupErrors(email, password, confirmPassword) == [] && Present(email)
              && old(db.FindOne(ByEmail(email.value))).Some? ==>
        && page == SignupPage([EmailTaken], email, None)
        && db.users == old(db.users) && calls == [] && gateway.Counter() == old(gateway.Counter())
      // a new email: the record is stored first, then the email is attempted
      ensures SignupErrors(email, password, confirmPassword) == [] && Present(email)
              && old(db.FindOne(ByEmail(email.value))).None? ==>
        var record := Issue(email.value, hashedPassword, token, now);
        if Conforms(record) then
          var d := Send(old(gateway.Counter()), today, sendGridOk, resendOk);
          && db.users == old(db.users)[old(db.nextId) := record]
          && calls == d.calls && gateway.Counter() == d.after
          && page == (if d.sent then SignupPage([], None, Some(SignupDone)) else SignupPage([SignupSendFailed], email, None))
        else
          && page == SignupPage([GenericError], None, None)
          && db.users == old(db.users) && calls == [] && gateway.Counter() == old(gateway.Counter())
    {
      var errors := SignupErrors(email, password, confirmPassword);
      calls := [];
      if errors != [] {
        page := SignupPage(errors, email, None);
        return;
      }
      var existing := db.FindOne(ByEmail(email.value));
      if existing.Some? {
        page := SignupPage([EmailTaken], email, None);
        return;
      }
      var record := Issue(email.value, hashedPassword, token, now);
      var id := db.Insert(record);
      if id.None? {
        page := SignupPage([GenericError], None, None);
        return;
      }
      var sent;
      sent, calls := gateway.SendVerificationEmail(today, sendGridOk, resendOk);
      if !sent {
        page := SignupPage([SignupSendFailed], email, None);
      } else {
        page := SignupPage([], None, Some(SignupDone));
      }
    }

    /**
     * GET /verify-email/:token. The first record in natural order holding the
     * token with an expiry after `now` is verified and its token cleared.
     */
    method VerifyEmail(db: UserStore, token: string, now: Ms) returns (page: VerifyPage, verified: Option<Id>)
      requires db.Valid()
      modifies db
      ensures db.Valid()
      ensures AllTokensConsistent(old(db.users)) ==> AllTokensConsistent(db.users)
      ensures verified == old(db.FindOne(ByLiveToken(token, now)))
      ensures verified.None? <==> (forall j :: j in old(db.users) ==> !TokenAccepts(old(db.users)[j], token, now))
      ensures verified.None? ==> page == VerifyError(InvalidLink) && db.users == old(db.users)
      ensures verified.Some? ==>
        && page == VerifySuccess
        && db.users == old(db.users)[verified.value := Consume(old(db.users)[verified.value])]
    {
      verified := db.FindOne(ByLiveToken(token, now));
      if verified.None? {
        page := VerifyError(InvalidLink);
        return;
      }
      var user := db.users[verified.value];
      db.Save(verified.value, Consume(user));
      page := VerifySuccess;
    }

    /**
     * POST /login. `passwordMatches(plain, hash)` stands for `bcrypt.compare`.
     * The session gets the user's id and email only when every check passes.
     */
    method Login(db: UserStore, session: Session, email: Option<string>, password: Option<string>,
                 passwordMatches: (string, string) -> bool) returns (page: LoginPage)
      requires db.Valid()
      modifies session
      ensures var found := if Present(email) && Present(password) then db.FindOne(ByEmail(email.value)) else None;
        var decision := CheckLogin(email, password, if found.Some? then Some(db.users[found.value]) else None, passwordMatches);
        && (decision.LoginRejected? ==>
              page == LoginForm([decision.message])
              && session.userId == old(session.userId) && session.userEmail == old(session.userEmail))
        && (decision == LoginAccepted ==>
              page == LoginRedirect("/dashboard")
              && session.userId == Some(found.value) && session.userEmail == Some(db.users[found.value].email))
    {
      if !Present(email) || !Present(password) {
        page := LoginForm([FieldsRequired]);
        return;
      }
      var found := db.FindOne(ByEmail(email.value));
      if found.None? {
        assert CheckLogin(email, password, None, passwordMatches) == LoginRejected(InvalidCredentials);
        page := LoginForm([InvalidCredentials]);
        return;
      }
      var user := db.users[found.value];
      ghost var decision := CheckLogin(email, password, Some(user), passwordMatches);
      if !passwordMatches(password.value, user.password) {
        assert decision == LoginRejected(InvalidCredentials);
        page := LoginForm([InvalidCredentials]);
        return;
      }
      if !user.isVerified {
        assert decision == LoginRejected(VerifyFirst);
        page := LoginForm([VerifyFirst]);
        return;
      }
      assert decision == LoginAccepted;
      session.userId := Some(found.value);
      session.userEmail := Some(user.email);
      page := LoginRedirect("/dashboard");
    }

    /** GET /logout: `req.session.destroy`; `destroyed` is whether it succeeded. */
    method Logout(session: Session, destroyed: bool) returns (location: string)
      modifies session
      ensures destroyed ==> location == "/" && session.userId == None && session.userEmail == None
      ensures !destroyed ==>
        && location == "/dashboard"
        && session.userId == old(session.userId) && session.userEmail == old(session.userEmail)
    {
      if !destroyed {
        return "/dashboard";
      }
      session.userId := None;
      session.userEmail := None;
      location := "/";
    }
  }
}
