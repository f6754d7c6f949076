/**
 * The daily-quota email gateway each route file keeps for itself: a counter
 * of emails sent through the primary provider (SendGrid) today and the day that
 * counter belongs to. At 95 primary sends a day the gateway goes straight to the
 * fallback provider (Resend); a primary failure falls back once.
 */
module EmailGateway {
  import opened Base

  /** The primary sends allowed per day before the gateway stops asking the primary. */
  const PrimaryDailyLimit: int := 95

  datatype Provider = SendGrid | Resend

  /** `emailsSentToday` and `emailResetTime`. */
  datatype Quota = Quota(sentToday: int, resetDay: Day)

  /** `resetEmailCount`: a new day starts the counter again from 0. */
  function Reset(q: Quota, today: Day): (r: Quota)
    ensures r.resetDay == today
    ensures today != q.resetDay ==> r.sentToday == 0
    ensures today == q.resetDay ==> r == q
  {
    if today != q.resetDay then Quota(0, today) else q
  }

  /** What one send did: whether the mail went out, the providers asked in order, the quota after. */
  datatype Delivery = Delivery(sent: bool, calls: seq<Provider>, after: Quota)

  /**
   * `sendVerificationEmail` with the providers' answers as inputs: reset, then
   * at the limit only the fallback; otherwise the primary, counted when it
   * succeeds, and on its failure exactly one fallback attempt whose answer is returned.
   */
  function Send(q: Quota, today: Day, sendGridOk: bool, resendOk: bool): (d: Delivery)
    ensures var q0 := Reset(q, today);
      && d.after.resetDay == today
      && 1 <= |d.calls| <= 2 && d.calls[|d.calls| - 1] in {SendGrid, Resend}
      && (d.calls[0] == SendGrid <==> q0.sentToday < PrimaryDailyLimit)
      && (Resend in d.calls <==> !(q0.sentToday < PrimaryDailyLimit && sendGridOk))
      && multiset(d.calls)[Resend] <= 1 && multiset(d.calls)[SendGrid] <= 1
      && (Resend in d.calls ==> d.calls[|d.calls| - 1] == Resend && d.sent == resendOk)
      && (Resend !in d.calls ==> d.sent)
      && d.after.sentToday == q0.sentToday + (if Resend in d.calls then 0 else 1)
  {
    var q0 := Reset(q, today);
    if q0.sentToday >= PrimaryDailyLimit then
      Delivery(resendOk, [Resend], q0)
    else if sendGridOk then
      Delivery(true, [SendGrid], q0.(sentToday := q0.sentToday + 1))
    else
      Delivery(resendOk, [SendGrid, Resend], q0)
  }

  /** The counter after a run of sends, each given by the two providers' answers. */
  function SendAll(q: Quota, today: Day, answers: seq<(bool, bool)>): Quota
    decreases |answers|
  {
    if answers == [] then Reset(q, today)
    else SendAll(Send(q, today, answers[0].0, answers[0].1).after, today, answers[1..])
  }

  /** How many of those sends went out through the primary provider. */
  function PrimaryDeliveries(q: Quota, today: Day, answers: seq<(bool, bool)>): nat
    decreases |answers|
  {
    if answers == [] then 0
    else
      var d := Send(q, today, answers[0].0, answers[0].1);
      (if d.calls == [SendGrid] then 1 else 0) + PrimaryDeliveries(d.after, today, answers[1..])
  }

  /**
   * Over any run of sends on one day, the counter grows by exactly the number of
   * primary deliveries, and it never passes the limit: the primary provider is
   * used successfully at most 95 times a day.
   */
  lemma {:induction false} CounterCountsPrimaryDeliveries(q: Quota, today: Day, answers: seq<(bool, bool)>)
    requires Reset(q, today).sentToday <= PrimaryDailyLimit
    decreases |answers|
    ensures SendAll(q, today, answers).resetDay == today
    ensures SendAll(q, today, answers).sentToday == Reset(q, today).sentToday + PrimaryDeliveries(q, today, answers)
    ensures SendAll(q, today, answers).sentToday <= PrimaryDailyLimit
  {
    if answers != [] {
      var d := Send(q, today, answers[0].0, answers[0].1);
      assert Reset(d.after, today) == d.after;
      CounterCountsPrimaryDeliveries(d.after, today, answers[1..]);
    }
  }

  /** At 94 a primary success brings the counter to 95; the next send that day skips the primary. */
  lemma LimitBoundary(today: Day, a: bool, b: bool)
    ensures Send(Quota(94, today), today, true, a).after == Quota(95, today)
    ensures Send(Quota(95, today), today, true, b).calls == [Resend]
  {
  }

  /** Only a day change resets the counter, and resetting twice on one day changes nothing. */
  lemma ResetIdempotent(q: Quota, today: Day)
    ensures Reset(Reset(q, today), today) == Reset(q, today)
  {
  }

  /** A route file's module-level `emailsSentToday` / `emailResetTime` pair and its two senders. */
  class Gateway {
    var emailsSentToday: int
    var emailResetTime: Day

    function Counter(): Quota
      reads this
    {
      Quota(emailsSentToday, emailResetTime)
    }

    /** The module is loaded on `loadDay` with no emails sent. */
    constructor (loadDay: Day)
      ensures Counter() == Quota(0, loadDay)
    {
      emailsSentToday := 0;
      emailResetTime := loadDay;
    }

    method ResetEmailCount(today: Day)
      modifies this
      ensures Counter() == Reset(old(Counter()), today)
    {
      if today != emailResetTime {
        emailsSentToday := 0;
        emailResetTime := today;
      }
    }

    /** `sendViaResend`: one request to the fallback; its failure is reported as `false`. */
    method SendViaResend(resendOk: bool) returns (sent: bool, calls: seq<Provider>)
      ensures sent == resendOk && calls == [Resend]
    {
      calls := [Resend];
      sent := resendOk;
    }

    /** `sendVerificationEmail(email, token)`, with the providers' answers as inputs. */
    method SendVerificationEmail(today: Day, sendGridOk: bool, resendOk: bool) returns (sent: bool, calls: seq<Provider>)
      modifies this
      ensures Delivery(sent, calls, Counter()) == Send(old(Counter()), today, sendGridOk, resendOk)
    {
      ResetEmailCount(today);
      if emailsSentToday >= PrimaryDailyLimit {
        sent, calls := SendViaResend(resendOk);
        return;
      }
      if sendGridOk {
        emailsSentToday := emailsSentToday + 1;
        sent, calls := true, [SendGrid];
      } else {
        var fallbackCalls;
        sent, fallbackCalls := SendViaResend(resendOk);
        calls := [SendGrid] + fallbackCalls;
      }
    }
  }
}
