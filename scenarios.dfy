/**
 * Client code: what a caller can conclude about a whole sequence of requests
 * from the handlers' contracts alone.
 */
module Scenarios {
  import opened Base
  import opened Text
  import opened UserSchema
  import opened Store
  import opened Validation
  import opened EmailGateway
  import opened Tokens
  import opened Guards
  import opened AuthRoutes
  import opened VerificationRoutes

  const SampleEmail: string := "a@b.com"
  const SamplePassword: string := "12345678"

  lemma SamplePasswordIsValid()
    ensures ValidatePassword(SamplePassword)
  {
    assert Utf16Length(SamplePassword) == 8;
  }

  lemma SampleEmailIsValid()
    ensures ValidateEmail(SampleEmail)
  {
    var s := SampleEmail;
    assert s[..1] == "a" && s[2..] == "b.com";
    assert AllAtoms("a");
    assert AllAtoms("b.com");
    assert HasInnerDot("b.com") by {
      assert "b.com"[1] == '.';
    }
    assert IsAddress(s);
    ValidateEmailIsAddress(s);
  }

  lemma SampleEmailIsNormal()
    ensures SampleEmail != "" && IsNormalEmail(SampleEmail)
  {
    assert NoEdgeSpace(SampleEmail) by {
      assert SampleEmail[0] == 'a' && SampleEmail[|SampleEmail| - 1] == 'm';
    }
    assert NoUpper(SampleEmail) by {
      forall i | 0 <= i < |SampleEmail| ensures !('A' <= SampleEmail[i] <= 'Z') {
        assert SampleEmail[i] in "a@b.com";
      }
    }
  }

  /** A present, valid email and a present, valid password typed twice pass every check. */
  lemma CleanForm(email: string, password: string)
    requires email != "" && ValidateEmail(email)
    requires password != "" && ValidatePassword(password)
    ensures SignupErrors(Some(email), Some(password), Some(password)) == []
  {
  }

  /** The sample form passes every check and its address is stored as typed. */
  lemma SampleSignupIsClean()
    ensures SignupErrors(Some(SampleEmail), Some(SamplePassword), Some(SamplePassword)) == []
    ensures SampleEmail != "" && IsNormalEmail(SampleEmail)
  {
    SamplePasswordIsValid();
    SampleEmailIsValid();
    SampleEmailIsNormal();
    CleanForm(SampleEmail, SamplePassword);
  }

  /**
   * A clean signup form (any spelling of the address) on an empty store, with the
   * primary provider up: the record is stored under id 0, one email is counted.
   */
  method SignupStep(db: UserStore, auth: AuthRouter, day: Day, now: Ms,
                    email: string, password: string, hash: string, token: string)
    returns (page: SignupPage)
    requires SignupErrors(Some(email), Some(password), Some(password)) == []
    requires hash != ""
    requires db.Valid() && db.users == map[] && db.nextId == 0
    requires auth.gateway.Counter() == Quota(0, day)
    modifies db, auth.gateway
    ensures db.Valid() && db.users == map[0 := Issue(email, hash, token, now)]
    ensures auth.gateway.Counter() == Quota(1, day)
    ensures page == SignupPage([], None, Some(SignupDone))
  {
    ValidEmailStoresNonEmpty(email);
    NormalizeEmailIsNormal(email);
    ghost var record := Issue(email, hash, token, now);
    assert Conforms(record);
    assert Present(Some(email)) && db.FindOne(ByEmail(email)) == None;
    ghost var d := Send(Quota(0, day), day, true, false);
    assert d.sent && d.after == Quota(1, day);
    var calls;
    page, calls := auth.Signup(db, Some(email), Some(password), Some(password), hash, token, now, day, true, false);
    assert auth.gateway.Counter() == d.after;
    assert db.users == map[][0 := record];
  }

  /** A request for a new link at the moment of signup: refused, the link has its whole day left. */
  method ResendStep(db: UserStore, ver: VerificationRouter, day: Day, now: Ms,
                    email: string, hash: string, token: string, otherToken: string)
    returns (outcome: ResendOutcome)
    requires db.Valid() && db.users == map[0 := Issue(email, hash, token, now)]
    modifies db, ver.gateway
    ensures db.Valid() && db.users == old(db.users)
    ensures ver.gateway.Counter() == old(ver.gateway.Counter())
    ensures outcome == StillPendingNotice(email, 24 * 60)
  {
    db.FindByEmailIsUnique(email, 0);
    FreshTokenMinutes();
    var calls;
    outcome, calls := ver.RequestVerification(db, Some(email), otherToken, now, day, true, true);
  }

  /** A valid address has no `\s`, so the setters keep its length: it is stored non-empty. */
  lemma ValidEmailStoresNonEmpty(email: string)
    requires email != "" && ValidateEmail(email)
    ensures NormalizeEmail(email) != ""
  {
    ValidEmailHasNoSpace(email);
    TrimFixed(email);
  }

  /** A token issued just now has its whole day, 1440 minutes, left. */
  lemma FreshTokenMinutes()
    ensures CeilDiv(TokenLifetimeMs, MsPerMinute) == 24 * 60
  {
    var q := CeilDiv(TokenLifetimeMs, MsPerMinute);
    assert (q - 1) * 60000 < 86400000 <= q * 60000;
  }

  /** A store holding exactly one record, at id 0. */
  lemma SingleRecord(users: map<Id, User>, u: User)
    requires users.Keys == {0} && users[0] == u
    ensures users == map[0 := u]
  {
  }

  /**
   * A clean signup form (such as the sample one, see SampleSignupIsClean) on an
   * empty store with a working primary provider, then, at the same moment, a
   * request for a new link: it is refused because the first link is still live
   * for 1440 minutes. Only the signup route's counter moved; the resend route's
   * own counter did not.
   */
  method SignupThenResend(day: Day, now: Ms, email: string, password: string,
                          hash: string, token: string, otherToken: string)
    returns (signedUp: SignupPage, resend: ResendOutcome, authCount: int, verificationCount: int)
    requires SignupErrors(Some(email), Some(password), Some(password)) == []
    requires hash != ""
    ensures signedUp == SignupPage([], None, Some(SignupDone))
    ensures resend == StillPendingNotice(email, 24 * 60)
    ensures authCount == 1 && verificationCount == 0
  {
    var db := new UserStore();
    var auth := new AuthRouter(day);
    var ver := new VerificationRouter(day);
    signedUp := SignupStep(db, auth, day, now, email, password, hash, token);
    resend := ResendStep(db, ver, day, now, email, hash, token, otherToken);
    authCount := auth.gateway.emailsSentToday;
    verificationCount := ver.gateway.emailsSentToday;
  }
}
