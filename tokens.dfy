/**
 * The verification-token lifecycle: a token is issued at signup with a 24-hour
 * lifetime, accepted while its expiry lies strictly in the future, consumed by
 * verification, and reissued by the resend policy once the old one has expired.
 */
module Tokens {
  import opened Base
  import opened UserSchema
  import opened Store

  /** `24 * 60 * 60 * 1000`. */
  const TokenLifetimeMs: int := 24 * 60 * 60 * 1000

  /** `1000 * 60`. */
  const MsPerMinute: int := 1000 * 60

  /** A token and its expiry are set and cleared together; a verified user holds no token. */
  predicate TokenInvariant(u: User)
  {
    && (u.verificationToken.Some? <==> u.verificationTokenExpiry.Some?)
    && (u.isVerified ==> u.verificationToken.None?)
  }

  ghost predicate AllTokensConsistent(users: map<Id, User>)
  {
    forall id :: id in users ==> TokenInvariant(users[id])
  }

  /** Storing a record that keeps the token invariant keeps it for the whole store. */
  lemma UpdateKeepsTokensConsistent(users: map<Id, User>, id: Id, v: User)
    requires AllTokensConsistent(users) && TokenInvariant(v)
    ensures AllTokensConsistent(users[id := v])
  {
  }

  /** Removing a record keeps the token invariant for the rest. */
  lemma RemoveKeepsTokensConsistent(users: map<Id, User>, id: Id)
    requires AllTokensConsistent(users)
    ensures AllTokensConsistent(users - {id})
  {
  }

  /** The record signup creates: unverified, holding `token` until `now` plus 24 hours. */
  function Issue(email: string, passwordHash: string, token: string, now: Ms): (u: User)
    ensures TokenInvariant(u) && !u.isVerified
    ensures forall t, later :: TokenAccepts(u, t, later) <==> t == token && later < now + TokenLifetimeMs
  {
    NewUser(email, passwordHash, token, now + TokenLifetimeMs, now)
  }

  /** Verification: set `isVerified`, clear the token and its expiry, keep every other field. */
  function Consume(u: User): (v: User)
    ensures v.isVerified && TokenInvariant(v)
    ensures forall t, later :: !TokenAccepts(v, t, later)
    ensures v.(isVerified := u.isVerified, verificationToken := u.verificationToken,
               verificationTokenExpiry := u.verificationTokenExpiry) == u
  {
    u.(isVerified := true, verificationToken := None, verificationTokenExpiry := None)
  }

  /** `Math.ceil(n / d)` for a positive divisor. */
  function CeilDiv(n: int, d: int): (q: int)
    requires d > 0
    ensures (q - 1) * d < n <= q * d
  {
    var f := (-n) / d;
    assert f * d <= -n < (f + 1) * d;
    -f
  }

  /** `verificationEmailCount || 0`. */
  function CountOrZero(u: User): int
  {
    match u.verificationEmailCount
    case Some(c) => c
    case None => 0
  }

  /** The three answers of the resend policy. */
  datatype ResendDecision = AlreadyVerified | StillPending(minutes: int) | Reissue

  /**
   * A verified user needs nothing; an unexpired token is left alone and its
   * remaining lifetime is reported in whole minutes, rounded up; otherwise a
   * new token is issued.
   */
  function DecideResend(u: User, now: Ms): (r: ResendDecision)
    ensures r == AlreadyVerified <==> u.isVerified
    ensures r.StillPending? <==> !u.isVerified && u.verificationTokenExpiry.Some? && u.verificationTokenExpiry.value > now
    ensures r.StillPending? ==> r.minutes >= 1
    ensures r.StillPending? ==> var left := u.verificationTokenExpiry.value - now;
      (r.minutes - 1) * MsPerMinute < left <= r.minutes * MsPerMinute
  {
    if u.isVerified then AlreadyVerified
    else if u.verificationTokenExpiry.Some? && u.verificationTokenExpiry.value > now then
      StillPending(CeilDiv(u.verificationTokenExpiry.value - now, MsPerMinute))
    else Reissue
  }

  /** The four assignments of a resend: new token, new expiry, time of sending, one more email counted. */
  function Reissued(u: User, token: string, now: Ms): (v: User)
    ensures v.verificationToken == Some(token) && v.verificationTokenExpiry == Some(now + TokenLifetimeMs)
    ensures v.lastVerificationEmailSent == Some(now)
    ensures v.verificationEmailCount == Some(CountOrZero(u) + 1)
    ensures v.(verificationToken := u.verificationToken, verificationTokenExpiry := u.verificationTokenExpiry,
               lastVerificationEmailSent := u.lastVerificationEmailSent,
               verificationEmailCount := u.verificationEmailCount) == u
    ensures !u.isVerified ==> TokenInvariant(v)
  {
    u.(verificationToken := Some(token), verificationTokenExpiry := Some(now + TokenLifetimeMs),
       lastVerificationEmailSent := Some(now), verificationEmailCount := Some(CountOrZero(u) + 1))
  }

  /**
   * Right after a resend, and for the whole 24 hours after it, a further
   * request is answered "still pending" with at most 1440 minutes left: a
   * live link is never replaced.
   */
  lemma ReissuedIsPending(u: User, token: string, now: Ms, later: Ms)
    requires !u.isVerified && now <= later < now + TokenLifetimeMs
    ensures DecideResend(Reissued(u, token, now), later).StillPending?
    ensures 1 <= DecideResend(Reissued(u, token, now), later).minutes <= 24 * 60
  {
    var m := DecideResend(Reissued(u, token, now), later).minutes;
    assert (m - 1) * MsPerMinute < now + TokenLifetimeMs - later;
    assert (m - 1) * MsPerMinute < 24 * 60 * MsPerMinute;
  }

  /** Once the reissued token's expiry has passed, the policy reissues again. */
  lemma ReissuedExpires(u: User, token: string, now: Ms, later: Ms)
    requires !u.isVerified && later >= now + TokenLifetimeMs
    ensures DecideResend(Reissued(u, token, now), later) == Reissue
  {
  }

  /**
   * Tokens are single-use: once the only record holding `token` is consumed,
   * a lookup of that token finds nothing, at any later time.
   */
  lemma SecondUseFails(users: map<Id, User>, id: Id, token: string, now: Ms, later: Ms, bound: nat)
    requires id in users && TokenAccepts(users[id], token, now)
    requires forall j :: j in users && j != id ==> users[j].verificationToken != Some(token)
    ensures FindFirst(users[id := Consume(users[id])], ByLiveToken(token, later), 0, bound) == None
  {
    var after := users[id := Consume(users[id])];
    forall j | j in after ensures !Holds(ByLiveToken(token, later), after[j]) {
    }
  }
}
