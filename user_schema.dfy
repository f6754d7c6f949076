/**
 * The user record of the `tblUsers` collection: its fields, the defaults a new
 * document receives, and the constraints Mongoose's validation enforces on save.
 */
module UserSchema {
  import opened Base
  import Text

  const RoleUser: string := "user"
  const RoleAdmin: string := "admin"

  /** The `enum` of the `role` path. */
  predicate IsRole(role: string)
  {
    role == RoleUser || role == RoleAdmin
  }

  /**
   * One stored document. `password` holds the bcrypt hash. `verificationEmailCount`
   * is optional because the resend handler reads it with a `|| 0` fallback.
   * The schema declares no `isAdmin` path: admin status is `role` alone.
   */
  datatype User = User(
    email: string,
    password: string,
    isVerified: bool,
    role: string,
    verificationToken: Option<string>,
    verificationTokenExpiry: Option<Ms>,
    lastVerificationEmailSent: Option<Ms>,
    verificationEmailCount: Option<int>,
    createdAt: Ms)

  /** The `lowercase` and `trim` setters of the `email` path, applied on save and to query filters. */
  function NormalizeEmail(email: string): string
  {
    Text.Lower(Text.Trim(email))
  }

  lemma NormalizeEmailIdempotent(email: string)
    ensures NormalizeEmail(NormalizeEmail(email)) == NormalizeEmail(email)
  {
    Text.LowerTrimIdempotent(email);
  }

  /** What the setters leave behind: no `\s` at either end and no capital letter. */
  predicate IsNormalEmail(email: string)
  {
    Text.NoEdgeSpace(email) && Text.NoUpper(email)
  }

  /** The setters' output is normal. */
  lemma NormalizeEmailIsNormal(email: string)
    ensures IsNormalEmail(NormalizeEmail(email))
  {
    Text.LowerKeepsEdges(Text.Trim(email));
    Text.LowerNoUpper(Text.Trim(email));
  }

  /** The normal emails are exactly the fixed points of the setters. */
  lemma NormalEmailIsFixed(email: string)
    ensures IsNormalEmail(email) <==> NormalizeEmail(email) == email
  {
    if IsNormalEmail(email) {
      Text.TrimFixed(email);
      Text.LowerFixed(email);
    }
    NormalizeEmailIsNormal(email);
  }

  /** What a stored document satisfies: `email` and `password` are required, `role` is in its enum. */
  predicate Conforms(u: User)
  {
    && u.email != "" && IsNormalEmail(u.email)
    && u.password != ""
    && IsRole(u.role)
  }

  /**
   * `new User({ email, password, verificationToken, verificationTokenExpiry, isVerified: false })`:
   * the given paths, the schema's defaults for the others.
   */
  function NewUser(email: string, passwordHash: string, token: string, expiry: Ms, now: Ms): (u: User)
    ensures u.email == NormalizeEmail(email) && u.password == passwordHash
    ensures !u.isVerified && u.role == RoleUser
    ensures u.verificationToken == Some(token) && u.verificationTokenExpiry == Some(expiry)
    ensures u.lastVerificationEmailSent == None && u.verificationEmailCount == Some(0)
    ensures u.createdAt == now
  {
    User(NormalizeEmail(email), passwordHash, false, RoleUser, Some(token), Some(expiry), None, Some(0), now)
  }

  /** A new document passes validation exactly when its normalised email and its hash are non-empty. */
  lemma NewUserConforms(email: string, passwordHash: string, token: string, expiry: Ms, now: Ms)
    ensures Conforms(NewUser(email, passwordHash, token, expiry, now))
        <==> NormalizeEmail(email) != "" && passwordHash != ""
  {
    NormalizeEmailIsNormal(email);
  }
}
