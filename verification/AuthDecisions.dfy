/**
 What every request decides and does, said without the functions that compute it: in
 terms of the stored accounts and rows, the signed tokens, the clock, and the lifetimes
 in plain numbers (15 minutes, 7 days, half an hour).
 */
module AuthDecisions {
  import opened Wrappers
  import opened TokenConfig
  import opened RefreshTokenTable
  import opened AuthDb
  import opened AuthInvariant
  import opened AuthSessions

  // ---- who is asking, and may they -------------------------------------------------------

  // The token is one the service signed, is in time, and agrees with an active account.
  predicate Identifies(db: Db, access: Jwt, u: UserId) {
    && access in db.signed && access.Access? && access.id == u && db.now / 1000 < access.exp
    && u in db.users && db.users[u].isActive
    && db.users[u].email == access.email && db.users[u].role == access.role
  }

  predicate Outranks(a: Role, b: Role) {
    (a == ADMIN && b != ADMIN) || (a == MANAGER && b == CLIENT)
  }

  // The bearer of the token may act on the target: themselves or someone they outrank.
  predicate MayAct(db: Db, access: Jwt, target: UserId, inactiveToo: bool) {
    && access.Access? && Identifies(db, access, access.id)
    && target in db.users && (inactiveToo || db.users[target].isActive)
    && (access.id == target || Outranks(access.role, db.users[target].role))
  }

  lemma ExtractDecides(db: Db, access: Jwt)
    ensures forall u :: Extract(db, access) == Known(u) <==> Identifies(db, access, u)
    ensures access !in db.signed || db.now / 1000 >= access.exp ==> Extract(db, access) == Rejected(INVALID_TOKEN)
    ensures access in db.signed && db.now / 1000 < access.exp && access.Refresh? ==>
              Extract(db, access) == Rejected(if db.sharedSecret then INVALID_QUERY else INVALID_TOKEN)
    ensures access in db.signed && db.now / 1000 < access.exp && access.Access? ==>
              && (access.id !in db.users <==> Extract(db, access) == Rejected(USER_NO_LONGER_EXISTS))
              && (access.id in db.users && !db.users[access.id].isActive <==> Extract(db, access) == Rejected(USER_NOT_ACTIVE))
  {
  }

  lemma PrivilegedDecides(db: Db, access: Jwt, target: UserId, inactiveToo: bool)
    ensures Privileged(db, access, target, inactiveToo) ==
            if MayAct(db, access, target, inactiveToo) then Known(access.id)
            else if Extract(db, access).Rejected? then Extract(db, access)
            else if target !in db.users || !(inactiveToo || db.users[target].isActive) then Rejected(USER_NOT_FOUND)
            else if db.users[target].role == ADMIN && access.Access? && access.role == ADMIN then Rejected(ADMIN_ON_ADMIN)
            else Rejected(INSUFFICIENT_PERMISSIONS)
  {
    ExtractDecides(db, access);
  }

  predicate IsPrivileged(q: Request) {
    q.UpdateUser? || q.LogoutAll? || q.SoftDelete? || q.HardDelete?
  }

  // A privileged request with a value the service never signed, or one past its time, is
  // refused and changes nothing.
  lemma UnsignedIsRefused(db: Db, q: Request)
    requires IsPrivileged(q) && (q.access !in db.signed || db.now / 1000 >= q.access.exp)
    ensures Serve(db, q) == Answer(db, Failed(INVALID_TOKEN))
  {
    ExtractDecides(db, q.access);
  }

  // ---- privileged requests -------------------------------------------------------------------

  lemma LogoutAllDecides(db: Db, access: Jwt, target: UserId)
    ensures var answer := Serve(db, LogoutAll(access, target));
            var theirs := set id | id in db.tokens && db.tokens[id].userId == target;
            if MayAct(db, access, target, false)
            then answer == Answer(db.(tokens := db.tokens - theirs), Count(|theirs|))
            else answer.outcome.Failed? && answer.db == db
  {
    PrivilegedDecides(db, access, target, false);
    AllRowsGo(db, target);
  }

  lemma AllRowsGo(db: Db, target: UserId)
    ensures var theirs := set id | id in db.tokens && db.tokens[id].userId == target;
            DeleteRows(db, DeleteOfUser(db.tokens, target)) == Answer(db.(tokens := db.tokens - theirs), Count(|theirs|))
  {
    var theirs := set id | id in db.tokens && db.tokens[id].userId == target;
    assert DeleteOfUser(db.tokens, target) == db.tokens - theirs;
    SweepCounts(db, theirs);
  }

  lemma SweepCounts(db: Db, gone: set<TokenId>)
    requires gone <= db.tokens.Keys
    ensures DeleteRows(db, db.tokens - gone) == Answer(db.(tokens := db.tokens - gone), Count(|gone|))
  {
    RowsRemoved(db.tokens, gone);
  }

  lemma RowsRemoved(t: Table, gone: set<TokenId>)
    requires gone <= t.Keys
    ensures |t - gone| == |t| - |gone|
  {
    assert (t - gone).Keys == t.Keys - gone;
    assert |t - gone| == |(t - gone).Keys| && |t| == |t.Keys|;
    assert t.Keys == (t.Keys - gone) + gone;
  }

  lemma SoftDeleteDecides(db: Db, access: Jwt, target: UserId)
    ensures var answer := Serve(db, SoftDelete(access, target));
            var theirs := set id | id in db.tokens && db.tokens[id].userId == target;
            if MayAct(db, access, target, false)
            then answer == Answer(db.(tokens := db.tokens - theirs,
                                      users := db.users[target := db.users[target].(isActive := false)]), Done)
            else answer.outcome.Failed? && answer.db == db
  {
    PrivilegedDecides(db, access, target, false);
    var theirs := set id | id in db.tokens && db.tokens[id].userId == target;
    assert DeleteOfUser(db.tokens, target) == db.tokens - theirs;
  }

  lemma HardDeleteDecides(db: Db, access: Jwt, target: UserId)
    ensures var answer := Serve(db, HardDelete(access, target));
            var theirs := set id | id in db.tokens && db.tokens[id].userId == target;
            if MayAct(db, access, target, true)
            then answer == Answer(db.(tokens := db.tokens - theirs, users := db.users - {target}), Done)
            else answer.outcome.Failed? && answer.db == db
  {
    PrivilegedDecides(db, access, target, true);
    var theirs := set id | id in db.tokens && db.tokens[id].userId == target;
    assert DeleteUsers(db, {target}).tokens == db.tokens - theirs;
  }

  // The account after an update, field by field; all others stay.
  ghost predicate UpdatedAccount(before: User, data: UserUpdate, after: User) {
    && after.email == (if data.email.Some? then Lower(data.email.value) else before.email)
    && (data.name.Some? ==> after.name == data.name) && (data.name.None? ==> after.name == before.name)
    && (data.emailVerified.Some? ==> after.emailVerified == data.emailVerified.value)
    && (data.emailVerified.None? ==> after.emailVerified == before.emailVerified)
    && after.password == before.password && after.role == before.role && after.isActive == before.isActive
    && after.emailVerifiedAt == before.emailVerifiedAt && after.createdAt == before.createdAt
  }

  ghost predicate AddressTaken(db: Db, email: string, target: UserId) {
    exists id :: id in db.users && id != target && db.users[id].email == email
  }

  // An update is done iff the bearer may act, is an ADMIN when the verified flag is
  // touched, and the new address is free; then exactly the given fields change.
  lemma UpdateUserDecides(db: Db, access: Jwt, target: UserId, data: UserUpdate)
    requires AccountsSound(db)
    ensures var answer := Serve(db, UpdateUser(access, target, data));
            && (answer.outcome.Done? <==>
                && MayAct(db, access, target, false)
                && (data.emailVerified.Some? ==> access.role == ADMIN)
                && (data.email.Some? ==> !AddressTaken(db, Lower(data.email.value), target)))
            && (answer.outcome.Done? ==>
                && target in answer.db.users && UpdatedAccount(db.users[target], data, answer.db.users[target])
                && answer.db == db.(users := db.users[target := answer.db.users[target]]))
            && (!answer.outcome.Done? ==> answer.outcome.Failed? && answer.db == db)
  {
    PrivilegedDecides(db, access, target, false);
  }

  // ---- sign-in ----------------------------------------------------------------------------------

  // What a sign-in or a refresh signs for the account: 15 minutes and 7 days.
  ghost predicate IssuedPair(db: Db, u: UserId, random: TokenId, access: Jwt, refresh: RefreshJwt)
    requires u in db.users
  {
    && access == Access(u, db.users[u].email, db.users[u].role, db.now / 1000 + 900)
    && refresh == Refresh(u, random, db.now / 1000 + 604_800)
  }

  // The row of a new session, for 7 days.
  function NewSession(u: UserId, refresh: RefreshJwt, device: Device, now: nat): Row {
    Row(u, Bcrypt(refresh), device, now + 604_800_000, now, None)
  }

  // The refusals of a sign-in, and all that a successful one changes besides removing
  // rows (of which SignInReplacesSessions speaks).
  lemma SignInEffect(db: Db, q: Request, id: UserId)
    requires AccountsSound(db) && q.SignIn? && id in db.users && db.users[id].email == Lower(q.email)
    ensures var answer, user := Serve(db, q), db.users[id];
            if !user.isActive then answer == Answer(db, Failed(USER_NOT_FOUND))
            else if !user.emailVerified then answer == Answer(db, Failed(EMAIL_NOT_VERIFIED))
            else if user.password != Bcrypt(q.password) then answer == Answer(db, Failed(INVALID_CREDENTIALS))
            else
              && answer.outcome.Tokens?
              && IssuedPair(db, id, q.random, answer.outcome.access, answer.outcome.refresh)
              && q.random in answer.db.tokens
              && answer.db.tokens[q.random] == NewSession(id, answer.outcome.refresh, q.device, db.now)
              && answer.db == db.(tokens := answer.db.tokens,
                                  signed := db.signed + {answer.outcome.access, answer.outcome.refresh})
  {
    FoundByEmail(db, Lower(q.email));
  }

  lemma SignInUnknownAddress(db: Db, q: Request)
    requires AccountsSound(db) && q.SignIn? && forall id :: id in db.users ==> db.users[id].email != Lower(q.email)
    ensures Serve(db, q) == Answer(db, Failed(USER_NOT_FOUND))
  {
    FoundByEmail(db, Lower(q.email));
  }

  // ---- refresh and logout --------------------------------------------------------------------------

  // A signed refresh token in time.
  predicate Presentable(db: Db, jwt: Jwt) {
    jwt in db.signed && jwt.Refresh? && db.now / 1000 < jwt.exp
  }

  lemma CheckRefreshDecides(db: Db, jwt: Jwt)
    ensures CheckRefresh(db, jwt) ==
            if Presentable(db, jwt) then Verified(jwt)
            else if jwt in db.signed && db.now / 1000 < jwt.exp && db.sharedSecret then NotVerified(INVALID_TOKEN)
            else NotVerified(REFRESH_TOKEN_INVALID)
  {
  }

  // A refresh succeeds iff the presented value is a signed refresh token in time whose
  // row is stored; then that row, and no other, moves to the new token and is renewed for 7 days.
  lemma RefreshEffect(db: Db, q: Request)
    requires Inv(db) && q.RefreshToken?
    ensures var answer := Serve(db, q);
            if Presentable(db, q.presented) && q.presented.tokenId in db.tokens then
              var u, stored := q.presented.userId, db.tokens[q.presented.tokenId];
              && u in db.users && answer.outcome.Tokens?
              && IssuedPair(db, u, q.random, answer.outcome.access, answer.outcome.refresh)
              && answer.db == db.(
                   signed := db.signed + {answer.outcome.access, answer.outcome.refresh},
                   tokens := (db.tokens - {q.presented.tokenId})[q.random :=
                     Row(u, Bcrypt(answer.outcome.refresh), q.device, db.now + 604_800_000, stored.createdAt, Some(db.now))])
            else if Presentable(db, q.presented) then answer == Answer(db, Failed(REFRESH_TOKEN_NOT_FOUND))
            else answer.db == db && answer.outcome in {Failed(REFRESH_TOKEN_INVALID), Failed(INVALID_TOKEN)}
  {
    CheckRefreshDecides(db, q.presented);
    RefreshDecides(db, q.presented, q.device, q.random);
  }

  // The branches that issued tokens never take, for a row that agrees with no such token:
  // an expired row is deleted, a foreign hash revokes every session of the row's user.
  lemma RefreshOnForeignRow(db: Db, q: Request)
    requires q.RefreshToken? && Presentable(db, q.presented) && q.presented.tokenId in db.tokens
    ensures var answer, row := Serve(db, q), db.tokens[q.presented.tokenId];
            var theirs := set id | id in db.tokens && db.tokens[id].userId == row.userId;
            && (row.expiresAt < db.now ==>
                  answer == Answer(db.(tokens := db.tokens - {q.presented.tokenId}), Failed(TOKEN_EXPIRED)))
            && (row.expiresAt >= db.now && row.token.of != q.presented ==>
                  answer == Answer(db.(tokens := db.tokens - theirs), Failed(REFRESH_TOKEN_INVALID)))
            && (row.expiresAt >= db.now && row.token.of == q.presented && row.userId !in db.users ==>
                  answer == Answer(db, Failed(USER_NO_LONGER_EXISTS)))
  {
    CheckRefreshDecides(db, q.presented);
    var row := db.tokens[q.presented.tokenId];
    assert DeleteOfUser(db.tokens, row.userId) ==
           db.tokens - (set id | id in db.tokens && db.tokens[id].userId == row.userId);
  }

  // A logout is done iff the presented value is a signed refresh token in time whose row
  // is stored; then exactly that row goes.
  lemma LogoutDecides(db: Db, presented: Jwt)
    ensures var answer := Serve(db, Logout(presented));
            if Presentable(db, presented) && presented.tokenId in db.tokens
            then answer == Answer(db.(tokens := db.tokens - {presented.tokenId}), Done)
            else if Presentable(db, presented) then answer == Answer(db, Failed(RECORD_NOT_FOUND))
            else answer == Answer(db, Failed(REFRESH_TOKEN_INVALID))
  {
    CheckRefreshDecides(db, presented);
  }

  // And after it the token refreshes in no continuation.
  lemma LoggedOutNeverRefreshes(db: Db, presented: Jwt, after: seq<Request>, later: Db, device: Device, random: TokenId)
    requires Reachable(db) && Serve(db, Logout(presented)).outcome.Done?
    requires Leads(Serve(db, Logout(presented)).db, after, later)
    ensures !Serve(later, RefreshToken(presented, device, random)).outcome.Tokens?
    ensures Serve(later, RefreshToken(presented, device, random)).db == later
  {
    LogoutDecides(db, presented);
    ReachableInv(db);
    assert RowSound(db, presented.tokenId) && db.tokens[presented.tokenId].token.of == presented;
    RemovedTokenIsRefused(db, Logout(presented), presented.tokenId, after, later, device, random);
  }

  // Fresh tokens work at once: the access token identifies the user, and the refresh
  // token can be presented and has its row.
  lemma FreshTokensWork(db: Db, q: Request)
    requires Inv(db) && Enabled(db, q) && Serve(db, q).outcome.Tokens?
    ensures var db', outcome := Serve(db, q).db, Serve(db, q).outcome;
            && Identifies(db', outcome.access, outcome.refresh.userId)
            && Presentable(db', outcome.refresh) && outcome.refresh.tokenId in db'.tokens
  {
    match q
    case SignIn(_, _, _, _, _, _, _) =>
      var u := Serve(db, q).outcome.refresh.userId;
      SignInDecides(db, q, u);
      SignInEffect(db, q, u);
    case RefreshToken(_, _, _) => RefreshEffect(db, q);
  }

  // ---- registration ---------------------------------------------------------------------------------

  predicate OlderThanHalfAnHour(user: User, now: nat) {
    user.createdAt + 1_800_000 < now
  }

  // An unverified account older than half an hour makes way.
  predicate MakesWay(user: User, now: nat) {
    !user.emailVerified && OlderThanHalfAnHour(user, now)
  }

  // Exactly the accounts with the address, of which there is at most one, must make way.
  lemma RegisterEffect(db: Db, q: Request, namesakes: set<UserId>)
    requires AccountsSound(db) && q.Register?
    requires forall id :: id in namesakes <==> id in db.users && db.users[id].email == Lower(q.email)
    ensures var answer := Serve(db, q);
            if forall id :: id in namesakes ==> MakesWay(db.users[id], db.now) then
              var id := db.nextUserId;
              var entry := Verification(id, db.now + 1_800_000);
              && answer.outcome == Registered(id)
              && answer.db == db.(
                   users := (db.users - namesakes)[id :=
                     User(Lower(q.email), Bcrypt(q.password), q.name, CLIENT, true, false, None, db.now)],
                   nextUserId := id + 1,
                   tokens := answer.db.tokens,
                   verification := db.verification[q.mailed := entry], minted := db.minted[q.mailed := entry])
              && RowsGoWith(db.tokens, answer.db.tokens, namesakes)
            else
              && answer.db == db
              && answer.outcome == Failed(if exists id :: id in namesakes && db.users[id].emailVerified
                                          then EMAIL_ALREADY_EXISTS else UNVERIFIED_ACCOUNT_EXISTS)
  {
    FoundByEmail(db, Lower(q.email));
    match UserByEmail(db.users, Lower(q.email))
    case None =>
      assert namesakes == {};
      assert db.users - {} == db.users;
    case Some(id) =>
      assert namesakes == {id};
  }

  lemma VerifyEmailEffect(db: Db, token: VerificationToken)
    ensures var answer := Serve(db, VerifyEmail(token));
            if token !in db.verification || db.now > db.verification[token].deadline
            then answer == Answer(db, Failed(VERIFICATION_TOKEN_INVALID))
            else
              var id := db.verification[token].userId;
              if id !in db.users then answer == Answer(db, Failed(USER_NOT_FOUND))
              else if !db.users[id].isActive then answer == Answer(db, Failed(USER_NOT_ACTIVE))
              else if db.users[id].emailVerified then answer == Answer(db, Failed(EMAIL_ALREADY_VERIFIED))
              else answer == Answer(
                db.(users := db.users[id := db.users[id].(emailVerified := true, emailVerifiedAt := Some(db.now))],
                    verification := db.verification - {token}), Done)
  {
  }

  // ---- sweeps -------------------------------------------------------------------------------------------

  lemma ExpiredRowsGo(t: Table, now: nat)
    ensures DeleteExpired(t, now) == t - (set id | id in t && t[id].expiresAt < now)
  {
  }

  lemma ExpiredSweepDecides(db: Db)
    ensures var gone := set id | id in db.tokens && db.tokens[id].expiresAt < db.now;
            Serve(db, CleanupExpiredTokens) == Answer(db.(tokens := db.tokens - gone), Count(|gone|))
  {
    ExpiredRowsGo(db.tokens, db.now);
    SweepCounts(db, set id | id in db.tokens && db.tokens[id].expiresAt < db.now);
  }

  // Unexpired rows last used, or never used and created, more than `days` days ago.
  lemma UnusedSweepDecides(t: Table, now: nat, days: nat)
    ensures var gone := set id | id in t && t[id].expiresAt > now && LastUse(t[id]) + days * 86_400_000 < now;
            DeleteUnused(t, now, days) == t - gone
    ensures forall id :: id in t ==>
              LastUse(t[id]) == if t[id].lastUsedAt.Some? then t[id].lastUsedAt.value else t[id].createdAt
  {
  }

  // The rows of deleted accounts go with them, and no others.
  ghost predicate RowsGoWith(before: Table, after: Table, gone: set<UserId>) {
    && (forall r :: r in after <==> r in before && before[r].userId !in gone)
    && (forall r :: r in after ==> after[r] == before[r])
  }

  lemma LapsedMakeWay(db: Db)
    ensures forall id :: id in Lapsed(db) <==> id in db.users && MakesWay(db.users[id], db.now)
  {
  }

  lemma UnverifiedSweepDecides(db: Db, gone: set<UserId>)
    requires forall id :: id in gone <==> id in db.users && MakesWay(db.users[id], db.now)
    ensures var answer := Serve(db, CleanupUnverifiedUsers);
            && answer.outcome == Count(|gone|)
            && answer.db == db.(users := db.users - gone, tokens := answer.db.tokens)
            && RowsGoWith(db.tokens, answer.db.tokens, gone)
  {
    LapsedMakeWay(db);
    assert Lapsed(db) == gone;
  }

  lemma TimePasses(db: Db, ms: nat)
    ensures Serve(db, Tick(ms)) == Answer(db.(now := db.now + ms), Done)
  {
  }

  // ---- addresses ------------------------------------------------------------------------------------------

  predicate UpperCase(c: char) {
    'A' <= c <= 'Z'
  }

  // The same letter, in whatever case.
  predicate SameLetter(a: char, b: char) {
    || a == b
    || (UpperCase(a) && b as int == a as int + 32)
    || (UpperCase(b) && a as int == b as int + 32)
  }

  // Two addresses count as the same iff they differ in the case of letters only.
  lemma SameAddressIff(a: string, b: string)
    ensures Lower(a) == Lower(b) <==> |a| == |b| && forall i :: 0 <= i < |a| ==> SameLetter(a[i], b[i])
    ensures forall i :: 0 <= i < |Lower(a)| ==> !UpperCase(Lower(a)[i])
  {
    if Lower(a) == Lower(b) {
      forall i | 0 <= i < |a|
        ensures |a| == |b| && SameLetter(a[i], b[i])
      {
        assert Lower(a)[i] == Lower(b)[i];
      }
    }
  }
}
