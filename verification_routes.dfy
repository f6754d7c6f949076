/**
 * The resend handler, POST /request-verification. The route file owns a second,
 * independent email gateway.
 */
module VerificationRoutes {
  import opened Base
  import opened UserSchema
  import opened Store
  import opened EmailGateway
  import opened Tokens

  const EnterEmail: string := "Please enter your email address"
  const EmailUnknown: string := "Email not found in our system"
  const ResendFailed: string := "Failed to send verification email. Please try again later."

  /** What `res.render('verify-account', …)` shows. */
  datatype ResendOutcome =
    | ResendError(error: string)
    | AlreadyVerifiedNotice                          // "Your account is already verified! …"
    | StillPendingNotice(email: string, minutes: int) // "… It will expire in <minutes> minutes. …"
    | EmailSentNotice(email: string)                 // "Verification email sent to <email>. …"

  class VerificationRouter {
    /** This file's own `emailsSentToday` / `emailResetTime`. */
    const gateway: Gateway

    constructor (loadDay: Day)
      ensures fresh(gateway) && gateway.Counter() == Quota(0, loadDay)
    {
      gateway := new Gateway(loadDay);
    }

    /**
     * POST /request-verification. `token` is the fresh random token. The new
     * token is saved before the email is attempted, so it stays stored when both
     * providers fail.
     */
    method RequestVerification(db: UserStore, email: Option<string>, token: string, now: Ms, today: Day,
                               sendGridOk: bool, resendOk: bool)
      returns (outcome: ResendOutcome, calls: seq<Provider>)
      requires db.Valid()
      modifies db, gateway
      ensures db.Valid()
      ensures AllTokensConsistent(old(db.users)) ==> AllTokensConsistent(db.users)
      ensures !Present(email) ==>
        && outcome == ResendError(EnterEmail)
        && db.users == old(db.users) && calls == [] && gateway.Counter() == old(gateway.Counter())
      ensures Present(email) && old(db.FindOne(ByEmail(email.value))).None? ==>
        && outcome == ResendError(EmailUnknown)
        && db.users == old(db.users) && calls == [] && gateway.Counter() == old(gateway.Counter())
      ensures Present(email) && old(db.FindOne(ByEmail(email.value))).Some? ==>
        var id := old(db.FindOne(ByEmail(email.value))).value;
        var user := old(db.users)[id];
        match DecideResend(user, now)
        case AlreadyVerified =>
          && outcome == AlreadyVerifiedNotice
          && db.users == old(db.users) && calls == [] && gateway.Counter() == old(gateway.Counter())
        case StillPending(minutes) =>
          && outcome == StillPendingNotice(email.value, minutes)
          && db.users == old(db.users) && calls == [] && gateway.Counter() == old(gateway.Counter())
        case Reissue =>
          var d := Send(old(gateway.Counter()), today, sendGridOk, resendOk);
          && db.users == old(db.users)[id := Reissued(user, token, now)]
          && calls == d.calls && gateway.Counter() == d.after
          && outcome == (if d.sent then EmailSentNotice(email.value) else ResendError(ResendFailed))
    {
      calls := [];
      if !Present(email) {
        outcome := ResendError(EnterEmail);
        return;
      }
      var found := db.FindOne(ByEmail(email.value));
      if found.None? {
        outcome := ResendError(EmailUnknown);
        return;
      }
      var id := found.value;
      var user := db.users[id];
      assert found == old(db.FindOne(ByEmail(email.value))) && user == old(db.users)[id];
      if user.isVerified {
        assert DecideResend(user, now) == AlreadyVerified;
        outcome := AlreadyVerifiedNotice;
        return;
      }
      if user.verificationTokenExpiry.Some? && user.verificationTokenExpiry.value > now {
        var minutes := CeilDiv(user.verificationTokenExpiry.value - now, MsPerMinute);
        assert DecideResend(user, now) == StillPending(minutes);
        outcome := StillPendingNotice(email.value, minutes);
        return;
      }
      assert DecideResend(user, now) == Reissue;
      outcome, calls := ReissueAndSend(db, id, email.value, token, now, today, sendGridOk, resendOk);
    }

    /** The last step of the resend: store the reissued token, then attempt the email. */
    method ReissueAndSend(db: UserStore, id: Id, email: string, token: string, now: Ms, today: Day,
                          sendGridOk: bool, resendOk: bool)
      returns (outcome: ResendOutcome, calls: seq<Provider>)
      requires db.Valid() && id in db.users && !db.users[id].isVerified
      modifies db, gateway
      ensures db.Valid()
      ensures AllTokensConsistent(old(db.users)) ==> AllTokensConsistent(db.users)
      ensures var d := Send(old(gateway.Counter()), today, sendGridOk, resendOk);
        && db.users == old(db.users)[id := Reissued(old(db.users)[id], token, now)]
        && calls == d.calls && gateway.Counter() == d.after
        && outcome == (if d.sent then EmailSentNotice(email) else ResendError(ResendFailed))
    {
      db.Save(id, Reissued(db.users[id], token, now));
      var sent;
      sent, calls := gateway.SendVerificationEmail(today, sendGridOk, resendOk);
      if !sent {
        outcome := ResendError(ResendFailed);
      } else {
        outcome := EmailSentNotice(email);
      }
    }
  }
}
