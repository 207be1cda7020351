/**
 What happens to accounts over whole runs of atomic requests: who can change or
 remove one, what is final, and what an e-mailed verification token is good for.
 */
module AuthAccounts {
  import opened Wrappers
  import opened TokenConfig
  import opened RefreshTokenTable
  import opened AuthDb
  import opened AuthInvariant
  import opened AuthSessions
  import opened AuthDecisions

  // A privileged request made with a token of `u`: signed by the service, in time, and in
  // agreement with the active account of `u`.
  predicate ActsAs(db: Db, q: Request, u: UserId) {
    IsPrivileged(q) && Identifies(db, q.access, u)
  }

  ghost predicate Kept(db: Db, db': Db, id: UserId)
    requires id in db.users
  {
    id in db'.users && db'.users[id] == db.users[id]
  }

  // The token is stored, in time, and minted for this account.
  predicate Vouches(db: Db, token: VerificationToken, id: UserId) {
    token in db.verification && db.now <= db.verification[token].deadline && db.verification[token].userId == id
  }

  // Someone acts on the account of `id`: themselves, or someone who outranks them.
  predicate Outranked(db: Db, q: Request, id: UserId)
    requires id in db.users
  {
    && IsPrivileged(q) && q.access.Access? && ActsAs(db, q, q.access.id)
    && (q.access.id == id || Outranks(q.access.role, db.users[id].role))
  }

  // Everything that can happen to an existing account in one request.
  ghost predicate AccountStep(db: Db, q: Request, db': Db, id: UserId)
    requires id in db.users
  {
    var user := db.users[id];
    || Kept(db, db', id)
    || ((q.Register? || q.CleanupUnverifiedUsers?) && MakesWay(user, db.now) && id !in db'.users)
    || (q.VerifyEmail? && Vouches(db, q.token, id) && !user.emailVerified && id in db'.users
        && db'.users[id] == user.(emailVerified := true, emailVerifiedAt := Some(db.now)))
    || (q.UpdateUser? && q.target == id && Outranked(db, q, id) && id in db'.users
        && UpdatedAccount(user, q.data, db'.users[id])
        && (q.data.emailVerified.Some? ==> q.access.role == ADMIN))
    || (q.SoftDelete? && q.target == id && Outranked(db, q, id) && id in db'.users
        && db'.users[id] == user.(isActive := false))
    || (q.HardDelete? && q.target == id && Outranked(db, q, id) && id !in db'.users)
  }

  lemma RegisterStep(db: Db, q: Request, id: UserId)
    requires AccountsSound(db) && q.Register? && id in db.users
    ensures AccountStep(db, q, Serve(db, q).db, id)
    ensures id !in Serve(db, q).db.users <==> db.users[id].email == Lower(q.email) && MakesWay(db.users[id], db.now)
  {
    FoundByEmail(db, Lower(q.email));
  }

  lemma PrivilegedStep(db: Db, q: Request, id: UserId)
    requires id in db.users && (q.UpdateUser? || q.SoftDelete? || q.HardDelete?)
    ensures AccountStep(db, q, Serve(db, q).db, id)
  {
  }

  lemma AccountStepOf(db: Db, q: Request, id: UserId)
    requires AccountsSound(db) && id in db.users
    ensures AccountStep(db, q, Serve(db, q).db, id)
  {
    match q
    case Register(_, _, _, _) => RegisterStep(db, q, id);
    case SignIn(email, password, device, cleaned, random, _, answer) => SignInKeepsAccounts(db, email, password, device, cleaned, random, answer);
    case RefreshToken(presented, device, random) => RefreshKeepsAccounts(db, presented, device, random);
    case VerifyEmail(token) =>
    case CleanupUnverifiedUsers =>
    case UpdateUser(_, _, _) => PrivilegedStep(db, q, id);
    case SoftDelete(_, _) => PrivilegedStep(db, q, id);
    case HardDelete(_, _) => PrivilegedStep(db, q, id);
    case _ => SparingRequest(db, q);
  }

  // A new account has the next id and is an active, unverified CLIENT.
  lemma NewAccount(db: Db, q: Request, id: UserId)
    requires AccountsSound(db) && id !in db.users && id in Serve(db, q).db.users
    ensures q.Register? && Serve(db, q).outcome == Registered(id) && id == db.nextUserId
    ensures Serve(db, q).db.users[id] == User(Lower(q.email), Bcrypt(q.password), q.name, CLIENT, true, false, None, db.now)
  {
    match q
    case Register(_, _, _, _) => FoundByEmail(db, Lower(q.email));
    case SignIn(email, password, device, cleaned, random, _, answer) => SignInKeepsAccounts(db, email, password, device, cleaned, random, answer);
    case RefreshToken(presented, device, random) => RefreshKeepsAccounts(db, presented, device, random);
    case VerifyEmail(token) =>
    case CleanupUnverifiedUsers =>
    case UpdateUser(_, _, _) =>
    case SoftDelete(_, _) =>
    case HardDelete(_, _) =>
    case _ => SparingRequest(db, q);
  }

  lemma IdsAreNotReused(db: Db, q: Request)
    ensures db.nextUserId <= Serve(db, q).db.nextUserId
  {
    match q
    case SignIn(email, password, device, cleaned, random, _, answer) => SignInKeepsAccounts(db, email, password, device, cleaned, random, answer);
    case RefreshToken(presented, device, random) => RefreshKeepsAccounts(db, presented, device, random);
    case Register(_, _, _, _) =>
    case VerifyEmail(token) =>
    case CleanupUnverifiedUsers =>
    case UpdateUser(_, _, _) =>
    case SoftDelete(_, _) =>
    case HardDelete(_, _) =>
    case _ => SparingRequest(db, q);
  }

  // ---- identity --------------------------------------------------------------------------------

  // Ids are never reused, and an account keeps its role, password and date of registration.
  ghost predicate SameIdentities(db: Db, db': Db) {
    && db.nextUserId <= db'.nextUserId && db.now <= db'.now
    && forall id :: id in db'.users && id < db.nextUserId ==>
         && id in db.users
         && db'.users[id].role == db.users[id].role
         && db'.users[id].password == db.users[id].password
         && db'.users[id].createdAt == db.users[id].createdAt
         && (!db.users[id].isActive ==> !db'.users[id].isActive)
  }

  lemma RequestKeepsIdentities(db: Db, q: Request)
    requires Inv(db) && Enabled(db, q)
    ensures SameIdentities(db, Serve(db, q).db)
  {
    var db' := Serve(db, q).db;
    forall id | id in db'.users && id < db.nextUserId
      ensures id in db.users
    {
      if id !in db.users {
        NewAccount(db, q, id);
      }
    }
    forall id | id in db.users
      ensures AccountStep(db, q, db', id)
    {
      AccountStepOf(db, q, id);
    }
    if StoresRow(q) {
      StoringKeepsAccounts(db, q);
    } else {
      RequestKeepsAccounts(db, q);
    }
    IdsAreNotReused(db, q);
  }

  // In particular roles never change and a deactivated account stays so.
  lemma {:induction false} RunKeepsIdentities(db: Db, qs: seq<Request>)
    requires Inv(db) && Run(db, qs)
    ensures SameIdentities(db, After(db, qs))
    decreases |qs|
  {
    if qs != [] {
      RequestKeepsIdentities(db, qs[0]);
      RequestKeepsInv(db, qs[0]);
      RunKeepsIdentities(Serve(db, qs[0]).db, qs[1..]);
    }
  }

  // ---- access tokens -----------------------------------------------------------------------------

  // An issued access token names an account that was registered, with the role it still has.
  ghost predicate AccessSound(db: Db) {
    forall j :: j in db.signed && j.Access? ==>
      j.id < db.nextUserId && (j.id in db.users ==> db.users[j.id].role == j.role)
  }

  lemma SigningStep(db: Db, q: Request)
    requires Inv(db) && Enabled(db, q)
    ensures forall j :: j in Serve(db, q).db.signed && j.Access? && j !in db.signed ==>
              j.id in db.users && db.users[j.id].role == j.role && Serve(db, q).db.users == db.users
  {
    if q.SignIn? {
      SignInDecides(db, q, 0);
      SignInKeepsAccounts(db, q.email, q.password, q.device, q.cleaned, q.random, q.answer);
    } else if q.RefreshToken? {
      RefreshDecides(db, q.presented, q.device, q.random);
    } else {
      RequestKeepsAccounts(db, q);
    }
  }

  lemma {:induction false} RunKeepsAccessSound(db: Db, qs: seq<Request>)
    requires Inv(db) && AccessSound(db) && Run(db, qs)
    ensures AccessSound(After(db, qs))
    decreases |qs|
  {
    if qs != [] {
      SigningStep(db, qs[0]);
      RequestKeepsIdentities(db, qs[0]);
      RequestKeepsInv(db, qs[0]);
      RunKeepsAccessSound(Serve(db, qs[0]).db, qs[1..]);
    }
  }

  // An issued access token identifies its account exactly while it is unexpired and the
  // account is active and has the address it had at issue; a change of role never matters.
  lemma AccessTokenIdentifiesIff(db: Db, jwt: Jwt)
    requires Reachable(db) && jwt in db.signed && jwt.Access?
    ensures Extract(db, jwt) == Known(jwt.id) <==>
            db.now / 1000 < jwt.exp && jwt.id in db.users && db.users[jwt.id].isActive && db.users[jwt.id].email == jwt.email
    ensures Extract(db, jwt) == Rejected(TOKEN_PAYLOAD_MISMATCH) <==>
            db.now / 1000 < jwt.exp && jwt.id in db.users && db.users[jwt.id].isActive && db.users[jwt.id].email != jwt.email
  {
    var start, qs :| Seeded(start) && Leads(start, qs, db);
    SeededInv(start);
    RunKeepsAccessSound(start, qs);
  }

  // ---- deletion is final -----------------------------------------------------------------------

  ghost predicate Gone(db: Db, u: UserId) {
    u < db.nextUserId && (u in db.users ==> !db.users[u].isActive)
  }

  // No request gets tokens for the user, none runs on the user's behalf, none stores
  // a row of the user.
  ghost predicate ShutOut(db: Db, q: Request, u: UserId) {
    var answer := Serve(db, q);
    && (answer.outcome.Tokens? ==> answer.outcome.refresh.userId != u && answer.outcome.access.id != u)
    && !ActsAs(db, q, u)
    && forall r :: r in answer.db.tokens ==> answer.db.tokens[r].userId != u
  }

  lemma GoneIsShutOut(db: Db, q: Request, u: UserId)
    requires Inv(db) && Enabled(db, q) && Gone(db, u)
    ensures ShutOut(db, q, u)
  {
    RequestKeepsInv(db, q);
    RequestKeepsIdentities(db, q);
    GoneHasNoRows(Serve(db, q).db, u);
    if Serve(db, q).outcome.Tokens? {
      TokensAreForActiveUser(db, q);
    }
  }

  lemma GoneHasNoRows(db: Db, u: UserId)
    requires RowsSound(db) && Gone(db, u)
    ensures forall r :: r in db.tokens ==> db.tokens[r].userId != u
  {
    assert forall r :: r in db.tokens ==> RowSound(db, r);
  }

  lemma TokensAreForActiveUser(db: Db, q: Request)
    requires Inv(db) && Serve(db, q).outcome.Tokens?
    ensures var outcome := Serve(db, q).outcome;
            outcome.access.id == outcome.refresh.userId && outcome.refresh.userId in db.users && db.users[outcome.refresh.userId].isActive
  {
    match q
    case SignIn(_, _, _, _, _, _, _) => SignInDecides(db, q, Serve(db, q).outcome.refresh.userId);
    case RefreshToken(presented, device, random) => RefreshDecides(db, presented, device, random);
  }

  // After a successful soft or hard deletion, in every continuation.
  lemma DeletionIsFinal(db: Db, q: Request, after: seq<Request>, later: Db, next: Request)
    requires Reachable(db) && (q.SoftDelete? || q.HardDelete?) && Serve(db, q).outcome.Done?
    requires Leads(Serve(db, q).db, after, later) && Enabled(later, next)
    ensures ShutOut(later, next, q.target)
  {
    ReachableInv(db);
    RequestKeepsInv(db, q);
    DeletedIsGone(db, q);
    LeadsKeepsInv(Serve(db, q).db, after, later);
    RunKeepsIdentities(Serve(db, q).db, after);
    GoneIsShutOut(later, next, q.target);
  }

  lemma DeletedIsGone(db: Db, q: Request)
    requires AccountsSound(db) && (q.SoftDelete? || q.HardDelete?) && Serve(db, q).outcome.Done?
    ensures Gone(Serve(db, q).db, q.target)
  {
  }

  // ---- registration ------------------------------------------------------------------------------

  lemma OneAccountPerAddress(db: Db, a: UserId, b: UserId)
    requires Reachable(db) && a in db.users && b in db.users
    requires Lower(db.users[a].email) == Lower(db.users[b].email)
    ensures a == b
  {
    ReachableInv(db);
  }

  // Registration and the monthly clean-up remove exactly the lapsed accounts they are
  // after: never a verified one, never one younger than half an hour.
  lemma CleanupRemovesExactlyLapsed(db: Db, q: Request, id: UserId)
    requires Inv(db) && id in db.users && (q.Register? || q.CleanupUnverifiedUsers?)
    ensures id !in Serve(db, q).db.users <==>
            && MakesWay(db.users[id], db.now)
            && (q.Register? ==> db.users[id].email == Lower(q.email))
    ensures id in Serve(db, q).db.users ==> Kept(db, Serve(db, q).db, id)
  {
    AccountStepOf(db, q, id);
    if q.Register? {
      RegisterStep(db, q, id);
    }
  }

  // Registration succeeds exactly when no account with the address is verified or recent.
  lemma RegisterDecides(db: Db, q: Request)
    requires Inv(db) && q.Register?
    ensures Serve(db, q).outcome.Registered? <==>
            forall id :: id in db.users && db.users[id].email == Lower(q.email) ==> MakesWay(db.users[id], db.now)
    ensures !Serve(db, q).outcome.Registered? ==> Serve(db, q).outcome.Failed? && Serve(db, q).db == db
  {
    FoundByEmail(db, Lower(q.email));
  }

  // Minted entries never change, and an entry that left Redis does not come back.
  ghost predicate MailsOnlyExpire(db: Db, db': Db) {
    forall v :: v in db.minted ==>
      && v in db'.minted && db'.minted[v] == db.minted[v]
      && (v in db'.verification ==> v in db.verification)
  }

  lemma RequestKeepsMails(db: Db, q: Request)
    requires Enabled(db, q)
    ensures MailsOnlyExpire(db, Serve(db, q).db)
  {
    match q
    case SignIn(email, password, device, cleaned, random, _, answer) => SignInKeepsAccounts(db, email, password, device, cleaned, random, answer);
    case RefreshToken(presented, device, random) => RefreshKeepsAccounts(db, presented, device, random);
    case Register(_, _, _, _) =>
    case VerifyEmail(token) =>
    case CleanupUnverifiedUsers =>
    case UpdateUser(_, _, _) =>
    case SoftDelete(_, _) =>
    case HardDelete(_, _) =>
    case _ => SparingRequest(db, q);
  }

  lemma {:induction false} RunKeepsMails(db: Db, qs: seq<Request>)
    requires Run(db, qs)
    ensures MailsOnlyExpire(db, After(db, qs))
    decreases |qs|
  {
    if qs != [] {
      RequestKeepsMails(db, qs[0]);
      RunKeepsMails(Serve(db, qs[0]).db, qs[1..]);
    }
  }

  // Verification succeeds exactly with a stored token, in time, for an active unverified account.
  lemma VerifyEmailDecides(db: Db, token: VerificationToken)
    requires Inv(db)
    ensures DoVerifyEmail(db, token).outcome.Done? <==>
            exists id :: Vouches(db, token, id) && id in db.users && db.users[id].isActive && !db.users[id].emailVerified
    ensures !DoVerifyEmail(db, token).outcome.Done? ==> DoVerifyEmail(db, token).db == db
  {
    if DoVerifyEmail(db, token).outcome.Done? {
      assert Vouches(db, token, db.verification[token].userId);
    }
  }

  // A verification token succeeds at most once.
  lemma VerificationTokenSpentOnce(db: Db, token: VerificationToken, after: seq<Request>, later: Db)
    requires Reachable(db) && DoVerifyEmail(db, token).outcome.Done? && Leads(DoVerifyEmail(db, token).db, after, later)
    ensures DoVerifyEmail(later, token) == Answer(later, Failed(VERIFICATION_TOKEN_INVALID))
  {
    ReachableInv(db);
    RunKeepsMails(DoVerifyEmail(db, token).db, after);
  }

  // It succeeds only within half an hour of the registration that mailed it, and then
  // verifies the account of that registration and no other, whatever happened between.
  lemma VerificationTokenIsForItsRegistration(db: Db, q: Request, between: seq<Request>, later: Db)
    requires Reachable(db) && q.Register? && Enabled(db, q) && Serve(db, q).outcome.Registered?
    requires Leads(Serve(db, q).db, between, later) && DoVerifyEmail(later, q.mailed).outcome.Done?
    ensures var id := Serve(db, q).outcome.id;
            && later.now <= db.now + 1_800_000
            && id in later.users && !later.users[id].emailVerified
            && later.users[id].createdAt == db.now && later.users[id].password == Bcrypt(q.password)
            && DoVerifyEmail(later, q.mailed).db.users ==
               later.users[id := later.users[id].(emailVerified := true, emailVerifiedAt := Some(later.now))]
  {
    ReachableInv(db);
    RegistrationMails(db, q);
    RequestKeepsInv(db, q);
    LeadsKeepsInv(Serve(db, q).db, between, later);
    RunKeepsMails(Serve(db, q).db, between);
    RunKeepsIdentities(Serve(db, q).db, between);
  }

  lemma RegistrationMails(db: Db, q: Request)
    requires Inv(db) && q.Register? && Serve(db, q).outcome.Registered?
    ensures var db', id := Serve(db, q).db, Serve(db, q).outcome.id;
            && q.mailed in db'.minted
            && db'.minted[q.mailed] == Verification(id, db.now + EMAIL_VERIFICATION_TOKEN_MILLISECONDS)
            && id in db'.users && id < db'.nextUserId
            && db'.users[id].createdAt == db.now && db'.users[id].password == Bcrypt(q.password)
  {
  }

  // ---- administrators ------------------------------------------------------------------------------

  ghost predicate VerifiedAdmin(db: Db, a: UserId) {
    a in db.users && db.users[a].role == ADMIN && db.users[a].emailVerified
  }

  lemma OthersLeaveAdmin(db: Db, q: Request, a: UserId)
    requires Inv(db) && VerifiedAdmin(db, a) && !ActsAs(db, q, a)
    ensures Kept(db, Serve(db, q).db, a)
  {
    AccountStepOf(db, q, a);
  }

  // Over every run, a verified administrator's account is changed or deleted only by
  // requests made with that administrator's own access token.
  lemma {:induction false} AdminIsStable(db: Db, qs: seq<Request>, a: UserId)
    requires Inv(db) && Run(db, qs) && VerifiedAdmin(db, a) && Never(db, qs, (s: Db, q: Request) => ActsAs(s, q, a))
    ensures Kept(db, After(db, qs), a)
    decreases |qs|
  {
    if qs != [] {
      OthersLeaveAdmin(db, qs[0], a);
      RequestKeepsInv(db, qs[0]);
      AdminIsStable(Serve(db, qs[0]).db, qs[1..], a);
    }
  }

  // The ways a session can end.
  ghost predicate SessionEnds(db: Db, q: Request, id: TokenId)
    requires id in db.tokens
  {
    var row := db.tokens[id];
    || (q.SignIn? && Credentials(db, q.email, q.password, row.userId))
    || ((q.RefreshToken? || q.Logout?) && q.presented == row.token.of)
    || ((q.LogoutAll? || q.SoftDelete? || q.HardDelete?) && q.target == row.userId
        && row.userId in db.users && Outranked(db, q, row.userId))
    || (q.CleanupExpiredTokens? && row.expiresAt < db.now)
    || ((q.Register? || q.CleanupUnverifiedUsers?) && row.userId in db.users && MakesWay(db.users[row.userId], db.now))
  }

  // Nothing else ends one.
  lemma SessionEndsOnly(db: Db, q: Request, id: TokenId)
    requires Inv(db) && Enabled(db, q) && id in db.tokens && id !in Serve(db, q).db.tokens
    ensures SessionEnds(db, q, id)
  {
    if q.SignIn? {
      SignInEndsOwn(db, q, id);
    } else if q.RefreshToken? || q.Logout? {
      TokenEndsOwn(db, q, id);
    } else if q.LogoutAll? || q.SoftDelete? || q.HardDelete? {
      PrivilegedEnds(db, q, id);
    } else if q.Register? || q.CleanupUnverifiedUsers? {
      LapseEnds(db, q, id);
    } else {
      SweepEnds(db, q, id);
    }
  }

  lemma SweepEnds(db: Db, q: Request, id: TokenId)
    requires RowsSound(db) && id in db.tokens && id !in Serve(db, q).db.tokens
    requires q.VerifyEmail? || q.UpdateUser? || q.CleanupExpiredTokens? || q.CleanupUnusedTokens? || q.Tick?
    ensures SessionEnds(db, q, id)
  {
    match q
    case CleanupUnusedTokens => UnusedSweepSpares(db, id);
    case VerifyEmail(token) => VerifyEmailKeepsRows(db, token);
    case UpdateUser(access, target, data) => UpdateUserKeepsRows(db, access, target, data);
    case CleanupExpiredTokens =>
    case Tick(_) =>
  }

  lemma VerifyEmailKeepsRows(db: Db, token: VerificationToken)
    ensures DoVerifyEmail(db, token).db.tokens == db.tokens
  {
  }

  lemma UpdateUserKeepsRows(db: Db, access: Jwt, target: UserId, data: UserUpdate)
    ensures DoUpdateUser(db, access, target, data).db.tokens == db.tokens
  {
  }

  lemma TokenEndsOwn(db: Db, q: Request, id: TokenId)
    requires Inv(db) && (q.RefreshToken? || q.Logout?) && id in db.tokens && id !in Serve(db, q).db.tokens
    ensures SessionEnds(db, q, id)
  {
    PresentedRow(db, q.presented, id);
    if q.RefreshToken? {
      RefreshDecides(db, q.presented, q.device, q.random);
    }
  }

  lemma PrivilegedEnds(db: Db, q: Request, id: TokenId)
    requires RowsSound(db) && (q.LogoutAll? || q.SoftDelete? || q.HardDelete?)
    requires id in db.tokens && id !in Serve(db, q).db.tokens
    ensures SessionEnds(db, q, id)
  {
    assert RowSound(db, id);
    PrivilegedDecides(db, q.access, q.target, q.HardDelete?);
  }

  lemma LapseEnds(db: Db, q: Request, id: TokenId)
    requires Inv(db) && (q.Register? || q.CleanupUnverifiedUsers?)
    requires id in db.tokens && id !in Serve(db, q).db.tokens
    ensures SessionEnds(db, q, id)
  {
    assert RowSound(db, id);
    if q.Register? {
      FoundByEmail(db, Lower(q.email));
    }
  }

  lemma SignInEndsOwn(db: Db, q: Request, id: TokenId)
    requires Inv(db) && Enabled(db, q) && q.SignIn? && id in db.tokens && id !in Serve(db, q).db.tokens
    ensures SessionEnds(db, q, id)
  {
    SignInDecides(db, q, db.tokens[id].userId);
    SignInReplacesSessions(db, q);
    SignInDecides(db, q, Serve(db, q).outcome.refresh.userId);
    assert RightlyRemoved(db, Serve(db, q).db, Serve(db, q).outcome.refresh.userId, q.device, q.cleaned, q.nulls, id);
  }

  lemma PresentedRow(db: Db, presented: Jwt, id: TokenId)
    requires RowsSound(db) && SignedOnce(db) && id in db.tokens
    ensures CheckRefresh(db, presented).Verified? && presented.tokenId == id ==> presented == db.tokens[id].token.of
  {
    assert RowSound(db, id);
  }

  lemma UnusedSweepSpares(db: Db, id: TokenId)
    requires RowsSound(db) && id in db.tokens
    ensures id in DeleteUnused(db.tokens, db.now, REFRESH_TOKEN_DAYS)
  {
    assert RowSound(db, id);
  }

  // By whom, or why, an administrator's session may end.
  ghost predicate OwnDoing(db: Db, q: Request, id: TokenId)
    requires id in db.tokens
  {
    || ActsAs(db, q, db.tokens[id].userId)
    || (q.SignIn? && Credentials(db, q.email, q.password, db.tokens[id].userId))
    || ((q.RefreshToken? || q.Logout?) && q.presented == db.tokens[id].token.of)
    || (q.CleanupExpiredTokens? && db.tokens[id].expiresAt < db.now)
  }

  lemma NobodyOutranksAdmin(db: Db, q: Request, id: TokenId)
    requires id in db.tokens && VerifiedAdmin(db, db.tokens[id].userId) && SessionEnds(db, q, id)
    ensures OwnDoing(db, q, id)
  {
  }

  // A verified administrator's session ends only by that administrator's own sign-in,
  // token or access token, or by expiring.
  lemma AdminSessionsAreStable(db: Db, q: Request, id: TokenId)
    requires Inv(db) && Enabled(db, q) && id in db.tokens && id !in Serve(db, q).db.tokens
    requires VerifiedAdmin(db, db.tokens[id].userId)
    ensures OwnDoing(db, q, id)
  {
    SessionEndsOnly(db, q, id);
    NobodyOutranksAdmin(db, q, id);
  }

  // ---- verified addresses -----------------------------------------------------------------------------

  // A step that may change `email_verified`: following an e-mailed link, or an
  // update requested by an administrator.
  ghost predicate MayVerify(db: Db, q: Request, id: UserId) {
    || (q.VerifyEmail? && Vouches(db, q.token, id))
    || (q.UpdateUser? && q.target == id && q.access.Access? && q.access.role == ADMIN && ActsAs(db, q, q.access.id))
  }

  lemma VerifiedFlagStep(db: Db, q: Request, id: UserId)
    requires AccountsSound(db) && id in db.users && id in Serve(db, q).db.users && !MayVerify(db, q, id)
    ensures Serve(db, q).db.users[id].emailVerified == db.users[id].emailVerified
  {
    AccountStepOf(db, q, id);
  }

  lemma {:induction false} VerifiedFlagIsStable(db: Db, qs: seq<Request>, id: UserId)
    requires Inv(db) && Run(db, qs) && Never(db, qs, (s: Db, q: Request) => MayVerify(s, q, id))
    requires id in db.users && id in After(db, qs).users
    ensures After(db, qs).users[id].emailVerified == db.users[id].emailVerified
    decreases |qs|
  {
    if qs != [] {
      RequestKeepsInv(db, qs[0]);
      RequestKeepsIdentities(db, qs[0]);
      RunKeepsIdentities(Serve(db, qs[0]).db, qs[1..]);
      VerifiedFlagStep(db, qs[0], id);
      VerifiedFlagIsStable(Serve(db, qs[0]).db, qs[1..], id);
    }
  }
}
