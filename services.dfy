/** AuthenticationService and EmailVerificationService of
    authentication/services.py. Register, authenticate and verify return a
    pair (result, error), resend a pair (success, message), send a boolean
    and the presence update nothing; each catches what the store raises. The
    mail transport's success, the password check and the clock are inputs. */
module Services {
  import opened Common
  import opened Users
  import Ledger
  import Consultants
  import Patients
  import Store

  const MSG_DUPLICATE := "User with this email already exists"
  const MSG_INVALID_CREDENTIALS := "Invalid Credentials"
  const MSG_DEACTIVATED := "User accont is deactivated"
  const MSG_EXPIRED := "Verification link has expired"
  const MSG_USED := "Verification link has already been used"
  const MSG_INVALID_TOKEN := "Invalid verification token"
  const MSG_ALREADY_VERIFIED := "Email is already verified"
  /** The throttle message: the backslash ends the first line of the
      triple-quoted literal, so the next line's sixteen spaces of indentation
      follow the first sentence. */
  const MSG_THROTTLED := "Too many verification emails sent.                 Please wait before requesting other"
  const MSG_SENT := "Verification sent successfully to email"
  const MSG_SEND_FAILED := "Failed to send verification email"

  /** Window and limit of the resend throttle. */
  const THROTTLE_WINDOW: int := 5 * MINUTE
  const THROTTLE_LIMIT: nat := 3

  // ---------------------------------------------------------------------------
  // Registration.

  /** The extra fields register_user hands to create_user. */
  function RegistrationFields(firstName: string, lastName: string, role: Role): (extra: ExtraFields)
    ensures extra.role == Some(role) && extra.isStaff.None? && extra.isSuperuser.None?
    ensures OrElse(extra.firstName, "") == firstName && OrElse(extra.lastName, "") == lastName
  {
    ExtraFields(Some(firstName), Some(lastName), Some(role), None, None)
  }

  /** register_user without the second consultant-profile create: the raw
      address is looked up first, then create_user runs (and with it the
      profile provisioning); whatever it raises comes back as the error
      text. A refused registration changes nothing. */
  method RegisterUser(repo: Store.Repository, email: string, password: string, hasher: string -> string,
                      firstName: string, lastName: string, role: Role, now: Time)
    returns (user: Option<UserId>, error: Option<string>)
    requires repo.Valid()
    modifies repo`users, repo`nextUser, repo`patients, repo`consultants
    ensures repo.Valid()
    ensures user.Some? <==> error.None?
    ensures user.Some? <==> email != "" && !Store.EmailTaken(old(repo.users), email)
                            && !Store.EmailTaken(old(repo.users), NormalizeEmail(email))
    ensures repo.nextUser == old(repo.nextUser) + (if user.Some? then 1 else 0)
    ensures Store.EmailTaken(old(repo.users), email) ==> error == Some(MSG_DUPLICATE)
    ensures email == "" ==> error == Some(Store.EMAIL_EMPTY)
    ensures !Store.EmailTaken(old(repo.users), email) && email != "" && Store.EmailTaken(old(repo.users), NormalizeEmail(email))
            ==> error == Some(Store.DUPLICATE_EMAIL)
    ensures user.None? ==> repo.users == old(repo.users) && repo.patients == old(repo.patients)
                           && repo.consultants == old(repo.consultants)
    ensures user.Some? ==>
      && user.value == old(repo.nextUser) && user.value !in old(repo.users)
      && repo.users == old(repo.users)[user.value := NewUser(NormalizeEmail(email), Hashed(hasher(password)),
                                                             RegistrationFields(firstName, lastName, role), now)]
      && repo.patients == (if role == Patient then old(repo.patients)[user.value := Patients.Blank(user.value)]
                           else old(repo.patients))
      && repo.consultants == old(repo.consultants)
  {
    if Store.EmailTaken(repo.users, email) {
      return None, Some(MSG_DUPLICATE);
    }
    if email == "" {
      assert !Store.EmailTaken(repo.users, NormalizeEmail(email));
    }
    var result, _ := repo.CreateUser(email, Some(password), hasher, RegistrationFields(firstName, lastName, role), now);
    if result.Err? {
      return None, Some(result.error.Text());
    }
    return Some(result.value), None;
  }

  /** register_user as written: for a consultant it creates the profile a
      second time, without a speciality. That insert always fails, so a fresh
      consultant registration answers (None, error) although the user row
      has been stored; every other registration goes as in RegisterUser. */
  method RegisterUserAsWritten(repo: Store.Repository, email: string, password: string, hasher: string -> string,
                               firstName: string, lastName: string, role: Role, now: Time)
    returns (user: Option<UserId>, error: Option<string>)
    requires repo.Valid()
    modifies repo`users, repo`nextUser, repo`patients, repo`consultants
    ensures repo.Valid()
    ensures user.Some? <==> error.None?
    ensures role == Consultant ==> user.None?
    ensures user.Some? <==> role != Consultant && email != "" && !Store.EmailTaken(old(repo.users), email)
                            && !Store.EmailTaken(old(repo.users), NormalizeEmail(email))
    ensures Store.EmailTaken(old(repo.users), email) ==> error == Some(MSG_DUPLICATE)
    ensures email == "" ==> error == Some(Store.EMAIL_EMPTY)
    ensures !Store.EmailTaken(old(repo.users), email) && email != "" && Store.EmailTaken(old(repo.users), NormalizeEmail(email))
            ==> error == Some(Store.DUPLICATE_EMAIL)
    ensures email == "" || Store.EmailTaken(old(repo.users), email) || Store.EmailTaken(old(repo.users), NormalizeEmail(email)) ==>
      && repo.users == old(repo.users) && repo.nextUser == old(repo.nextUser)
      && repo.patients == old(repo.patients) && repo.consultants == old(repo.consultants)
    ensures email != "" && !Store.EmailTaken(old(repo.users), email) && !Store.EmailTaken(old(repo.users), NormalizeEmail(email)) ==>
      && old(repo.nextUser) !in old(repo.users)
      && repo.users == old(repo.users)[old(repo.nextUser) := NewUser(NormalizeEmail(email), Hashed(hasher(password)),
                                                                      RegistrationFields(firstName, lastName, role), now)]
      && repo.nextUser == old(repo.nextUser) + 1
      && repo.patients == (if role == Patient then old(repo.patients)[old(repo.nextUser) := Patients.Blank(old(repo.nextUser))]
                           else old(repo.patients))
      && repo.consultants == old(repo.consultants)
      && (role == Consultant ==> error == Some(Store.MISSING_SPECIALITY))
      && (role != Consultant ==> user == Some(old(repo.nextUser)))
  {
    if Store.EmailTaken(repo.users, email) {
      return None, Some(MSG_DUPLICATE);
    }
    var result, _ := repo.CreateUser(email, Some(password), hasher, RegistrationFields(firstName, lastName, role), now);
    if result.Err? {
      return None, Some(result.error.Text());
    }
    if RoleName(role) == "consultant" {
      var failure := repo.CreateConsultantProfile(Consultants.Blank(result.value));
      if failure.Some? {
        return None, Some(failure.value.Text());
      }
    }
    return Some(result.value), None;
  }

  // ---------------------------------------------------------------------------
  // Authentication.

  /** A JSON web token, opaque but for its kind and the user it names. */
  datatype Jwt = Jwt(kind: string, subject: UserId)

  /** The dictionary authenticate_user returns on success. */
  datatype Session = Session(user: User, accessToken: Jwt, refreshToken: Jwt)

  /** What Django's default ModelBackend answers for an address: the user
      with that address when the password matches and the account is
      active, nobody otherwise. */
  ghost function ModelBackend(users: map<UserId, User>, email: string, matches: UserId -> bool): (found: Option<UserId>)
    ensures found.Some? ==> && found.value in users && users[found.value].email == email
                            && matches(found.value) && users[found.value].isActive
    ensures found.None? ==> forall id :: id in users && users[id].email == email ==> !matches(id) || !users[id].isActive
  {
    if exists id :: id in users && users[id].email == email && matches(id) && users[id].isActive then
      var id :| id in users && users[id].email == email && matches(id) && users[id].isActive;
      Some(id)
    else None
  }

  /** authenticate_user, given what `authenticate` found: nobody gives
      invalid credentials, an inactive user the deactivation message, and an
      active one a session with tokens for that user, whose last_seen is
      stamped in memory and not saved. */
  function Authenticate(users: map<UserId, User>, found: Option<UserId>, now: Time): (r: (Option<Session>, Option<string>))
    requires found.Some? ==> found.value in users
    ensures r.0.Some? <==> r.1.None?
    ensures found.None? ==> r.1 == Some(MSG_INVALID_CREDENTIALS)
    ensures found.Some? && !users[found.value].isActive ==> r.1 == Some(MSG_DEACTIVATED)
    ensures found.Some? && users[found.value].isActive ==> r.0.Some? && r.1.None?
    ensures r.0.Some? ==> && found.Some? && users[found.value].isActive
                          && r.0.value.user == users[found.value].(lastSeen := now)
                          && r.0.value.accessToken == Jwt("access", found.value)
                          && r.0.value.refreshToken == Jwt("refresh", found.value)
  {
    if found.Some? then
      var u := users[found.value];
      if !u.isActive then (None, Some(MSG_DEACTIVATED))
      else (Some(Session(u.(lastSeen := now), Jwt("access", found.value), Jwt("refresh", found.value))), None)
    else (None, Some(MSG_INVALID_CREDENTIALS))
  }

  /** With the default backend an inactive account is never returned by
      `authenticate`, so the deactivation branch is never taken: a
      deactivated user, like a wrong password, gets "Invalid Credentials". */
  lemma DeactivatedBranchUnreachable(users: map<UserId, User>, email: string, matches: UserId -> bool, now: Time)
    ensures var found := ModelBackend(users, email, matches);
      && Authenticate(users, found, now).1 != Some(MSG_DEACTIVATED)
      && (Authenticate(users, found, now).0.None? ==> Authenticate(users, found, now).1 == Some(MSG_INVALID_CREDENTIALS))
  {
    var found := ModelBackend(users, email, matches);
    assert MSG_DEACTIVATED != MSG_INVALID_CREDENTIALS by {
      assert MSG_DEACTIVATED[0] != MSG_INVALID_CREDENTIALS[0];
    }
  }

  /** update_user_status: is_online and last_seen are written, nothing else
      (the cache entry is not modelled). */
  method UpdateUserStatus(repo: Store.Repository, u: UserId, isOnline: bool, now: Time)
    requires repo.Valid() && u in repo.users
    modifies repo`users
    ensures repo.Valid()
    ensures repo.users == old(repo.users)[u := old(repo.users)[u].(isOnline := isOnline, lastSeen := now)]
  {
    repo.UpdateOnlineStatus(u, isOnline, now);
  }

  // ---------------------------------------------------------------------------
  // Email verification.

  /** send_verification_email: the token table is updated whatever happens
      to the mail, and the answer is whether the mail went out. */
  method SendVerificationEmail(repo: Store.Repository, u: UserId, mailOk: bool, now: Time) returns (sent: bool)
    requires repo.Valid() && u in repo.users
    modifies repo`tokens, repo`nextToken
    ensures repo.Valid()
    ensures sent == mailOk
    ensures repo.tokens == Ledger.Issue(old(repo.tokens), u, old(repo.nextToken), now)
    ensures repo.nextToken == old(repo.nextToken) + 1
  {
    var _ := repo.IssueToken(u, now);
    sent := mailOk;
  }

  /** The answer of verify_email_token: a pair, or an exception that escapes
      it. */
  datatype VerifyReply = Answer(user: Option<UserId>, error: Option<string>) | Raised(ex: Exception)

  /** The answer for what the lookup found, with the not-found handler
      returning its message. */
  function VerifyReplyFor(c: Ledger.Redemption, ts: seq<Token>): (r: VerifyReply)
    requires !c.NotFound? ==> c.index < |ts|
    ensures r.Answer? && (r.user.Some? <==> r.error.None?)
    ensures r.user.Some? <==> c.Redeemable?
    ensures c.Redeemable? ==> r.user == Some(ts[c.index].user)
    ensures c.Expired? ==> r.error == Some(MSG_EXPIRED)
    ensures c.AlreadyUsed? ==> r.error == Some(MSG_USED)
    ensures c.NotFound? ==> r.error == Some(MSG_INVALID_TOKEN)
  {
    match c
    case NotFound => Answer(None, Some(MSG_INVALID_TOKEN))
    case Expired(_) => Answer(None, Some(MSG_EXPIRED))
    case AlreadyUsed(_) => Answer(None, Some(MSG_USED))
    case Redeemable(k) => Answer(Some(ts[k].user), None)
  }

  /** The answer as written: the not-found handler logs `user.email`, and
      `user` is not bound on that path, so the handler raises. */
  function VerifyReplyAsWritten(c: Ledger.Redemption, ts: seq<Token>): VerifyReply
    requires !c.NotFound? ==> c.index < |ts|
  {
    if c.NotFound? then Raised(UnboundLocalError("user")) else VerifyReplyFor(c, ts)
  }

  /** The two agree except on an unknown token, where the code as written
      raises instead of answering "Invalid verification token". */
  lemma UnknownTokenRaises(ts: seq<Token>, id: TokenId, now: Time)
    ensures var c := Ledger.Classify(ts, id, now);
      && (c.NotFound? <==> VerifyReplyAsWritten(c, ts) != VerifyReplyFor(c, ts))
      && (c.NotFound? ==> VerifyReplyAsWritten(c, ts) == Raised(UnboundLocalError("user"))
                          && VerifyReplyFor(c, ts) == Answer(None, Some(MSG_INVALID_TOKEN)))
  {
  }

  /** verify_email_token: an expired token is refused as expired even when
      it was used, a used one as used; a valid one is marked used and its
      user verified. Nothing changes on a refusal. */
  method VerifyEmailToken(repo: Store.Repository, id: TokenId, now: Time) returns (reply: VerifyReply)
    requires repo.Valid()
    modifies repo`tokens, repo`users
    ensures repo.Valid()
    ensures reply == VerifyReplyFor(Ledger.Classify(old(repo.tokens), id, now), old(repo.tokens))
    ensures var c := Ledger.Classify(old(repo.tokens), id, now);
      && (c.Redeemable? ==>
            && repo.tokens == Ledger.Redeem(old(repo.tokens), c.index, now)
            && var u := old(repo.tokens)[c.index].user;
               u in old(repo.users)
               && repo.users == old(repo.users)[u := old(repo.users)[u].(isVerified := true, emailVerifiedAt := Some(now))])
      && (!c.Redeemable? ==> repo.tokens == old(repo.tokens) && repo.users == old(repo.users))
  {
    var c := Ledger.Classify(repo.tokens, id, now);
    if !c.Redeemable? {
      return VerifyReplyFor(c, repo.tokens);
    }
    var u := repo.tokens[c.index].user;
    reply := VerifyReplyFor(c, repo.tokens);
    repo.MarkTokenUsed(c.index, now);
    repo.MarkEmailVerified(u, now);
  }

  /** The outcome of resend_verification_email: the answer pair and the
      token table it leaves. */
  datatype ResendOutcome = ResendOutcome(ok: bool, message: string, tokens: seq<Token>)

  /** resend_verification_email on the token table: a verified user is
      refused, so is one with three or more tokens created in the last five
      minutes (used or not); otherwise a token is issued with value `id` and
      the answer follows the mail's fate. */
  function Resend(ts: seq<Token>, verified: bool, u: UserId, id: TokenId, now: Time, mailOk: bool): (r: ResendOutcome)
    ensures verified ==> r == ResendOutcome(false, MSG_ALREADY_VERIFIED, ts)
    ensures !verified && Ledger.RecentCount(ts, u, now - THROTTLE_WINDOW) >= THROTTLE_LIMIT
            ==> r == ResendOutcome(false, MSG_THROTTLED, ts)
    ensures !verified && Ledger.RecentCount(ts, u, now - THROTTLE_WINDOW) < THROTTLE_LIMIT ==>
      && r.tokens == Ledger.Issue(ts, u, id, now)
      && r.ok == mailOk
      && r.message == (if mailOk then MSG_SENT else MSG_SEND_FAILED)
  {
    if verified then ResendOutcome(false, MSG_ALREADY_VERIFIED, ts)
    else if Ledger.RecentCount(ts, u, now - THROTTLE_WINDOW) >= THROTTLE_LIMIT then ResendOutcome(false, MSG_THROTTLED, ts)
    else ResendOutcome(mailOk, if mailOk then MSG_SENT else MSG_SEND_FAILED, Ledger.Issue(ts, u, id, now))
  }

  method ResendVerificationEmail(repo: Store.Repository, u: UserId, mailOk: bool, now: Time)
    returns (ok: bool, message: string)
    requires repo.Valid() && u in repo.users
    modifies repo`tokens, repo`nextToken
    ensures repo.Valid()
    ensures var r := Resend(old(repo.tokens), old(repo.users)[u].isVerified, u, old(repo.nextToken), now, mailOk);
      ok == r.ok && message == r.message && repo.tokens == r.tokens
    ensures repo.nextToken == old(repo.nextToken) + |repo.tokens| - |old(repo.tokens)|
  {
    if repo.users[u].isVerified {
      return false, MSG_ALREADY_VERIFIED;
    }
    var recent := Ledger.RecentCount(repo.tokens, u, now - THROTTLE_WINDOW);
    if recent >= THROTTLE_LIMIT {
      return false, MSG_THROTTLED;
    }
    var success := SendVerificationEmail(repo, u, mailOk, now);
    if success {
      return success, MSG_SENT;
    }
    return false, MSG_SEND_FAILED;
  }

  /** The throttle's counts along three issues at t1 <= t2 <= t3, each
      within five minutes of t4: at most one and two tokens in the windows of
      the second and third call, exactly three in the window of t4. */
  lemma ThreeIssuesCount(ts: seq<Token>, u: UserId, id1: TokenId, id2: TokenId, id3: TokenId,
                         t1: Time, t2: Time, t3: Time, t4: Time)
    requires t1 <= t2 <= t3 <= t4 <= t1 + THROTTLE_WINDOW
    requires Ledger.RecentCount(ts, u, t1 - THROTTLE_WINDOW) == 0
    ensures var s1 := Ledger.Issue(ts, u, id1, t1);
      var s2 := Ledger.Issue(s1, u, id2, t2);
      var s3 := Ledger.Issue(s2, u, id3, t3);
      && Ledger.RecentCount(s1, u, t2 - THROTTLE_WINDOW) == 1
      && Ledger.RecentCount(s2, u, t3 - THROTTLE_WINDOW) == 2
      && Ledger.RecentCount(s3, u, t4 - THROTTLE_WINDOW) == 3
      && |s3| == |ts| + 3
  {
    var w1, w2, w3, w4 := t1 - THROTTLE_WINDOW, t2 - THROTTLE_WINDOW, t3 - THROTTLE_WINDOW, t4 - THROTTLE_WINDOW;
    Ledger.RecentCountAntitone(ts, u, w1, w2);
    Ledger.RecentCountAntitone(ts, u, w1, w3);
    Ledger.RecentCountAntitone(ts, u, w1, w4);
    var s1 := Ledger.Issue(ts, u, id1, t1);
    Ledger.IssueCount(ts, u, u, id1, t1, w2);
    Ledger.IssueCount(ts, u, u, id1, t1, w3);
    Ledger.IssueCount(ts, u, u, id1, t1, w4);
    var s2 := Ledger.Issue(s1, u, id2, t2);
    Ledger.IssueCount(s1, u, u, id2, t2, w3);
    Ledger.IssueCount(s1, u, u, id2, t2, w4);
    Ledger.IssueCount(s2, u, u, id3, t3, w4);
  }

  /** Three resends within five minutes, starting from a quiet window,
      each issue a token whether or not the mail goes out; a fourth inside
      the same five minutes is refused and issues nothing. */
  lemma FourthResendThrottled(ts: seq<Token>, u: UserId, id1: TokenId, id2: TokenId, id3: TokenId, id4: TokenId,
                              t1: Time, t2: Time, t3: Time, t4: Time,
                              m1: bool, m2: bool, m3: bool, m4: bool)
    requires t1 <= t2 <= t3 <= t4 <= t1 + THROTTLE_WINDOW
    requires Ledger.RecentCount(ts, u, t1 - THROTTLE_WINDOW) == 0
    ensures var r1 := Resend(ts, false, u, id1, t1, m1);
      var r2 := Resend(r1.tokens, false, u, id2, t2, m2);
      var r3 := Resend(r2.tokens, false, u, id3, t3, m3);
      var r4 := Resend(r3.tokens, false, u, id4, t4, m4);
      && r1.ok == m1 && r2.ok == m2 && r3.ok == m3
      && |r3.tokens| == |ts| + 3
      && r4 == ResendOutcome(false, MSG_THROTTLED, r3.tokens)
  {
    ThreeIssuesCount(ts, u, id1, id2, id3, t1, t2, t3, t4);
    var r1 := Resend(ts, false, u, id1, t1, m1);
    assert r1.tokens == Ledger.Issue(ts, u, id1, t1);
    var r2 := Resend(r1.tokens, false, u, id2, t2, m2);
    assert r2.tokens == Ledger.Issue(r1.tokens, u, id2, t2);
    var r3 := Resend(r2.tokens, false, u, id3, t3, m3);
    assert r3.tokens == Ledger.Issue(r2.tokens, u, id3, t3);
  }

  /** Once every token of the user is more than five minutes old, an
      unverified user is not throttled: a token is issued and the answer is
      the mail's fate. */
  lemma WindowElapsedAllowsResend(ts: seq<Token>, u: UserId, id: TokenId, now: Time, mailOk: bool)
    requires forall i :: 0 <= i < |ts| && ts[i].user == u ==> ts[i].createdAt < now - THROTTLE_WINDOW
    ensures Resend(ts, false, u, id, now, mailOk).tokens == Ledger.Issue(ts, u, id, now)
    ensures Resend(ts, false, u, id, now, mailOk).ok == mailOk
  {
    Ledger.RecentCountZero(ts, u, now - THROTTLE_WINDOW);
  }
}
