/**
 What every request keeps: accounts have distinct lower-case addresses, every
 refresh-token row belongs to an active account and agrees with the one token
 carrying its id, and no user has more unexpired rows than the limit.
 */
module AuthInvariant {
  import opened Wrappers
  import opened TokenConfig
  import opened RefreshTokenTable
  import opened AuthDb

  ghost predicate AccountsSound(db: Db) {
    && (forall id :: id in db.users ==> id < db.nextUserId && Lower(db.users[id].email) == db.users[id].email)
    && (forall a, b :: a in db.users && b in db.users && db.users[a].email == db.users[b].email ==> a == b)
  }

  ghost predicate RowSound(db: Db, id: TokenId)
    requires id in db.tokens
  {
    var row := db.tokens[id];
    && row.userId in db.users && db.users[row.userId].isActive
    && row.token.of == Refresh(row.userId, id, row.token.of.exp)
    && row.token.of in db.signed
    && row.token.of.exp * 1000 <= row.expiresAt <= LastUse(row) + REFRESH_TOKEN_MILLISECONDS
    && LastUse(row) <= db.now
  }

  ghost predicate RowsSound(db: Db) {
    forall id :: id in db.tokens ==> RowSound(db, id)
  }

  ghost predicate SignedOnce(db: Db) {
    forall j, k :: j in db.signed && k in db.signed && j.Refresh? && k.Refresh? && j.tokenId == k.tokenId ==> j == k
  }

  ghost predicate WithinLimit(db: Db) {
    forall u :: |Live(db.tokens, u, db.now)| <= MAX_REFRESH_TOKENS_PER_USER
  }

  ghost predicate MailsSound(db: Db) {
    && (forall v :: v in db.verification ==> v in db.minted && db.verification[v] == db.minted[v])
    && (forall v :: v in db.minted ==> db.minted[v].userId < db.nextUserId)
  }

  ghost predicate Inv(db: Db) {
    AccountsSound(db) && RowsSound(db) && SignedOnce(db) && WithinLimit(db) && MailsSound(db)
  }

  // A database as the seed script leaves it: accounts with lower-case addresses, nothing else.
  ghost predicate Seeded(db: Db) {
    AccountsSound(db) && db.tokens == map[] && db.verification == map[] && db.signed == {} && db.minted == map[]
  }

  lemma SeededInv(db: Db)
    requires Seeded(db)
    ensures Inv(db)
  {
    forall u
      ensures |Live(db.tokens, u, db.now)| <= MAX_REFRESH_TOKENS_PER_USER
    {
      assert Live(db.tokens, u, db.now) == {};
    }
  }

  // ---- requests that at most remove rows --------------------------------------------------

  // Rows go, time passes; a row that stays still has an active owner.
  ghost predicate RowsShrink(db: Db, db': Db) {
    && db.now <= db'.now && db'.signed == db.signed
    && (forall id :: id in db'.tokens ==>
          && id in db.tokens && db'.tokens[id] == db.tokens[id]
          && (db.tokens[id].userId in db.users && db.users[db.tokens[id].userId].isActive ==>
                db.tokens[id].userId in db'.users && db'.users[db.tokens[id].userId].isActive))
  }

  lemma ShrinkKeepsSessions(db: Db, db': Db)
    requires RowsSound(db) && SignedOnce(db) && WithinLimit(db) && RowsShrink(db, db')
    ensures RowsSound(db') && SignedOnce(db') && WithinLimit(db')
  {
    forall id | id in db'.tokens
      ensures RowSound(db', id)
    {
      assert RowSound(db, id);
    }
    forall u
      ensures |Live(db'.tokens, u, db'.now)| <= MAX_REFRESH_TOKENS_PER_USER
    {
      SubsetSize(Live(db'.tokens, u, db'.now), Live(db.tokens, u, db.now));
    }
  }

  predicate StoresRow(q: Request) {
    q.SignIn? || q.RefreshToken?
  }

  lemma LowerTwice(s: string)
    ensures Lower(Lower(s)) == Lower(s)
  {
  }

  ghost predicate Accounts(db: Db) {
    AccountsSound(db) && MailsSound(db)
  }

  lemma CreateUserKeepsAccounts(db: Db, email: string, password: string, name: Option<string>, mailed: VerificationToken)
    requires Accounts(db) && mailed !in db.minted && Lower(email) == email
    requires forall id :: id in db.users ==> db.users[id].email != email
    ensures Accounts(CreateUser(db, email, password, name, mailed).db)
    ensures RowsShrink(db, CreateUser(db, email, password, name, mailed).db)
  {
  }

  lemma DeleteUsersKeepsAccounts(db: Db, gone: set<UserId>)
    requires Accounts(db)
    ensures Accounts(DeleteUsers(db, gone)) && RowsShrink(db, DeleteUsers(db, gone))
  {
  }

  // The account found by an address is the only one with it.
  lemma FoundByEmail(db: Db, email: string)
    requires AccountsSound(db)
    ensures match UserByEmail(db.users, email)
            case Some(id) => id in db.users && db.users[id].email == email
                             && forall other :: other in db.users && db.users[other].email == email ==> other == id
            case None => forall other :: other in db.users ==> db.users[other].email != email
  {
  }

  lemma RegisterKeepsAccounts(db: Db, email: string, password: string, name: Option<string>, mailed: VerificationToken)
    requires Accounts(db) && mailed !in db.minted
    ensures Accounts(DoRegister(db, email, password, name, mailed).db)
    ensures RowsShrink(db, DoRegister(db, email, password, name, mailed).db)
  {
    LowerTwice(email);
    FoundByEmail(db, Lower(email));
    match UserByEmail(db.users, Lower(email))
    case None => CreateUserKeepsAccounts(db, Lower(email), password, name, mailed);
    case Some(id) =>
      if RegistrationLapsed(db.users[id], db.now) {
        DeleteUsersKeepsAccounts(db, {id});
        CreateUserKeepsAccounts(DeleteUsers(db, {id}), Lower(email), password, name, mailed);
      }
  }

  // One account changes, without a clash of addresses and without being switched off.
  lemma ChangeKeepsAccounts(db: Db, db': Db, id: UserId)
    requires Accounts(db) && id in db.users && db'.users.Keys == db.users.Keys
    requires forall other :: other in db.users && other != id ==> db'.users[other] == db.users[other]
    requires Lower(db'.users[id].email) == db'.users[id].email
    requires forall other :: other in db.users && other != id ==> db.users[other].email != db'.users[id].email
    requires db'.users[id].isActive == db.users[id].isActive
    requires db'.now == db.now && db'.signed == db.signed && db'.tokens == db.tokens
    requires db'.minted == db.minted && db'.nextUserId == db.nextUserId
    requires forall v :: v in db'.verification ==> v in db.verification && db'.verification[v] == db.verification[v]
    ensures Accounts(db') && RowsShrink(db, db')
  {
  }

  lemma VerifyEmailKeepsAccounts(db: Db, token: VerificationToken)
    requires Accounts(db)
    ensures Accounts(DoVerifyEmail(db, token).db) && RowsShrink(db, DoVerifyEmail(db, token).db)
  {
    if DoVerifyEmail(db, token).outcome.Done? {
      ChangeKeepsAccounts(db, DoVerifyEmail(db, token).db, db.verification[token].userId);
    }
  }

  lemma UpdateUserKeepsAccounts(db: Db, access: Jwt, target: UserId, data: UserUpdate)
    requires Accounts(db)
    ensures Accounts(DoUpdateUser(db, access, target, data).db) && RowsShrink(db, DoUpdateUser(db, access, target, data).db)
  {
    var answer := DoUpdateUser(db, access, target, data);
    if answer.outcome.Done? {
      if data.email.Some? {
        LowerTwice(data.email.value);
      }
      ChangeKeepsAccounts(db, answer.db, target);
    }
  }

  lemma SoftDeleteKeepsAccounts(db: Db, access: Jwt, target: UserId)
    requires Accounts(db)
    ensures Accounts(DoSoftDelete(db, access, target).db) && RowsShrink(db, DoSoftDelete(db, access, target).db)
  {
  }

  lemma HardDeleteKeepsAccounts(db: Db, access: Jwt, target: UserId)
    requires Accounts(db)
    ensures Accounts(DoHardDelete(db, access, target).db) && RowsShrink(db, DoHardDelete(db, access, target).db)
  {
    DeleteUsersKeepsAccounts(db, {target});
  }

  // Requests that touch no account: rows go or time passes.
  predicate SparesAccounts(q: Request) {
    q.Logout? || q.LogoutAll? || q.CleanupExpiredTokens? || q.CleanupUnusedTokens? || q.Tick?
  }

  ghost predicate OnlyRowsGo(db: Db, db': Db) {
    && db'.users == db.users && db'.nextUserId == db.nextUserId && db'.verification == db.verification
    && db'.minted == db.minted && db'.signed == db.signed && db.now <= db'.now
    && forall id :: id in db'.tokens ==> id in db.tokens && db'.tokens[id] == db.tokens[id]
  }

  lemma OnlyRowsGoKeepsAccounts(db: Db, db': Db)
    requires Accounts(db) && OnlyRowsGo(db, db')
    ensures Accounts(db') && RowsShrink(db, db')
  {
  }

  lemma LogoutSparesAccounts(db: Db, presented: Jwt)
    ensures OnlyRowsGo(db, DoLogout(db, presented).db)
  {
  }

  lemma LogoutAllSparesAccounts(db: Db, access: Jwt, target: UserId)
    ensures OnlyRowsGo(db, DoLogoutAll(db, access, target).db)
  {
  }

  lemma SweepSparesAccounts(db: Db, left: Table)
    requires forall id :: id in left ==> id in db.tokens && left[id] == db.tokens[id]
    ensures OnlyRowsGo(db, DeleteRows(db, left).db)
  {
  }

  lemma SparingRequest(db: Db, q: Request)
    requires SparesAccounts(q)
    ensures OnlyRowsGo(db, Serve(db, q).db)
  {
    match q
    case Logout(presented) => LogoutSparesAccounts(db, presented);
    case LogoutAll(access, target) => LogoutAllSparesAccounts(db, access, target);
    case CleanupExpiredTokens => SweepSparesAccounts(db, DeleteExpired(db.tokens, db.now));
    case CleanupUnusedTokens => SweepSparesAccounts(db, DeleteUnused(db.tokens, db.now, REFRESH_TOKEN_DAYS));
    case Tick(_) =>
  }

  lemma RequestKeepsAccounts(db: Db, q: Request)
    requires Accounts(db) && Enabled(db, q) && !StoresRow(q)
    ensures Accounts(Serve(db, q).db) && RowsShrink(db, Serve(db, q).db)
  {
    if SparesAccounts(q) {
      SparingRequest(db, q);
      OnlyRowsGoKeepsAccounts(db, Serve(db, q).db);
    } else {
      match q
      case Register(email, password, name, mailed) => RegisterKeepsAccounts(db, email, password, name, mailed);
      case VerifyEmail(token) => VerifyEmailKeepsAccounts(db, token);
      case UpdateUser(access, target, data) => UpdateUserKeepsAccounts(db, access, target, data);
      case SoftDelete(access, target) => SoftDeleteKeepsAccounts(db, access, target);
      case HardDelete(access, target) => HardDeleteKeepsAccounts(db, access, target);
      case CleanupUnverifiedUsers => DeleteUsersKeepsAccounts(db, Lapsed(db));
    }
  }

  // ---- requests that store a row -------------------------------------------------------------

  // A row whose token was just signed.
  lemma CreatedRowSound(db: Db, db': Db, id: UserId, device: Device, random: TokenId, left: Table)
    requires RowsSound(db) && id in db.users && db.users[id].isActive
    requires forall r :: r in left ==> r in db.tokens && left[r] == db.tokens[r]
    requires db'.users == db.users && db'.now == db.now && db.signed <= db'.signed
    requires db'.tokens == Create(left, RefreshFor(id, random, db.now), device, db.now)
    requires RefreshFor(id, random, db.now) in db'.signed
    ensures RowsSound(db')
  {
    forall r | r in db'.tokens
      ensures RowSound(db', r)
    {
      if r != random {
        assert RowSound(db, r);
      }
    }
  }

  lemma SigningKeepsSignedOnce(db: Db, db': Db, access: Jwt, refresh: RefreshJwt)
    requires SignedOnce(db) && Fresh(db, refresh.tokenId) && access.Access?
    requires db'.signed == db.signed + {access, refresh}
    ensures SignedOnce(db')
  {
  }

  // With at most MAX - 1 other live rows of the user, one more fits.
  lemma OneMoreFits(db: Db, db': Db, u: UserId, random: TokenId, left: Table)
    requires WithinLimit(db) && db'.now == db.now
    requires forall r :: r in left ==> r in db.tokens && left[r] == db.tokens[r]
    requires db'.tokens.Keys <= left.Keys + {random}
    requires forall r :: r in db'.tokens && r != random ==> db'.tokens[r] == left[r]
    requires random in db'.tokens && db'.tokens[random].userId == u
    requires |Live(left, u, db.now)| <= MAX_REFRESH_TOKENS_PER_USER - 1
    ensures WithinLimit(db')
  {
    forall v
      ensures |Live(db'.tokens, v, db'.now)| <= MAX_REFRESH_TOKENS_PER_USER
    {
      if v == u {
        OneMore(Live(db'.tokens, v, db.now), Live(left, v, db.now), random);
      } else {
        SubsetSize(Live(db'.tokens, v, db'.now), Live(db.tokens, v, db.now));
      }
    }
  }

  lemma OneMore(after: set<TokenId>, before: set<TokenId>, id: TokenId)
    requires after <= before + {id}
    ensures |after| <= |before| + 1
  {
    SubsetSize(after, before + {id});
  }

  lemma SignInKeepsSessions(db: Db, id: UserId, device: Device, cleaned: bool, random: TokenId, nulls: NullPlacement, answer: seq<TokenId>)
    requires RowsSound(db) && SignedOnce(db) && WithinLimit(db)
    requires id in db.users && db.users[id].isActive && Fresh(db, random)
    requires AnswersActiveQuery(AfterDeviceCleanup(db.tokens, id, device, cleaned), id, db.now, nulls, answer)
    ensures var db' := GenerateTokenPair(db, id, device, cleaned, random, answer).db;
            RowsSound(db') && SignedOnce(db') && WithinLimit(db')
  {
    var db' := GenerateTokenPair(db, id, device, cleaned, random, answer).db;
    var left := AfterDeviceCleanup(db.tokens, id, device, cleaned) - Elements(TokensToRemove(answer));
    LimitedTableHasRoom(AfterDeviceCleanup(db.tokens, id, device, cleaned), id, db.now, nulls, answer);
    StoringKeepsSound(db, db', id, device, random, left);
  }

  lemma StoringKeepsSound(db: Db, db': Db, id: UserId, device: Device, random: TokenId, left: Table)
    requires RowsSound(db) && SignedOnce(db) && WithinLimit(db)
    requires id in db.users && db.users[id].isActive && Fresh(db, random)
    requires db'.users == db.users && db'.now == db.now
    requires db'.signed == db.signed + {AccessFor(id, db.users[id], db.now), RefreshFor(id, random, db.now)}
    requires forall r :: r in left ==> r in db.tokens && left[r] == db.tokens[r]
    requires |Live(left, id, db.now)| <= MAX_REFRESH_TOKENS_PER_USER - 1
    requires db'.tokens == Create(left, RefreshFor(id, random, db.now), device, db.now)
    ensures RowsSound(db') && SignedOnce(db') && WithinLimit(db')
  {
    CreatedRowSound(db, db', id, device, random, left);
    SigningKeepsSignedOnce(db, db', AccessFor(id, db.users[id], db.now), RefreshFor(id, random, db.now));
    OneMoreFits(db, db', id, random, left);
  }

  // A verified token whose row exists is unexpired and matches: the expiry and theft
  // branches are not taken.
  lemma VerifiedRowMatches(db: Db, jwt: RefreshJwt)
    requires RowsSound(db) && SignedOnce(db) && CheckRefresh(db, jwt).Verified? && jwt.tokenId in db.tokens
    ensures var row := db.tokens[jwt.tokenId];
            && row.expiresAt > db.now && row.token == Bcrypt(jwt)
            && row.userId == jwt.userId && row.userId in db.users && db.users[row.userId].isActive
  {
    assert RowSound(db, jwt.tokenId);
  }

  // Rotation is: remove the old row, store a new one.
  lemma RotationKeepsSessions(db: Db, jwt: RefreshJwt, device: Device, random: TokenId)
    requires RowsSound(db) && SignedOnce(db) && WithinLimit(db)
    requires CheckRefresh(db, jwt).Verified? && jwt.tokenId in db.tokens && Fresh(db, random)
    ensures var db' := DoRefresh(db, jwt, device, random).db;
            RowsSound(db') && SignedOnce(db') && WithinLimit(db')
  {
    VerifiedRowMatches(db, jwt);
    var row := db.tokens[jwt.tokenId];
    var db' := DoRefresh(db, jwt, device, random).db;
    var left := db.tokens - {jwt.tokenId};
    SigningKeepsSignedOnce(db, db', AccessFor(row.userId, db.users[row.userId], db.now), RefreshFor(row.userId, random, db.now));
    assert db'.tokens.Keys == left.Keys + {random};
    assert RowSound(db', random);
    forall r | r in db'.tokens
      ensures RowSound(db', r)
    {
      if r != random {
        assert RowSound(db, r);
      }
    }
    var u := row.userId;
    assert Live(left, u, db.now) == Live(db.tokens, u, db.now) - {jwt.tokenId};
    assert jwt.tokenId in Live(db.tokens, u, db.now);
    OneMoreFits(db, db', u, random, left);
  }

  // ---- every reachable database ---------------------------------------------------------------

  // What a request that stores a row leaves alone.
  ghost predicate SameAccounts(db: Db, db': Db) {
    && db'.users == db.users && db'.nextUserId == db.nextUserId
    && db'.verification == db.verification && db'.minted == db.minted && db'.now == db.now
  }

  lemma SameAccountsSound(db: Db, db': Db)
    requires Accounts(db) && SameAccounts(db, db')
    ensures Accounts(db')
  {
  }

  lemma SignInKeepsAccounts(db: Db, email: string, password: string, device: Device, cleaned: bool, random: TokenId, answer: seq<TokenId>)
    ensures SameAccounts(db, DoSignIn(db, email, password, device, cleaned, random, answer).db)
  {
  }

  lemma RefreshKeepsAccounts(db: Db, presented: Jwt, device: Device, random: TokenId)
    ensures SameAccounts(db, DoRefresh(db, presented, device, random).db)
  {
  }

  lemma StoringKeepsAccounts(db: Db, q: Request)
    requires Accounts(db) && StoresRow(q)
    ensures Accounts(Serve(db, q).db) && SameAccounts(db, Serve(db, q).db)
  {
    match q
    case SignIn(email, password, device, cleaned, random, _, answer) =>
      SignInKeepsAccounts(db, email, password, device, cleaned, random, answer);
      SameAccountsSound(db, DoSignIn(db, email, password, device, cleaned, random, answer).db);
    case RefreshToken(presented, device, random) =>
      RefreshKeepsAccounts(db, presented, device, random);
      SameAccountsSound(db, DoRefresh(db, presented, device, random).db);
  }

  lemma StoringKeepsSessions(db: Db, q: Request)
    requires Inv(db) && Enabled(db, q) && StoresRow(q)
    ensures var db' := Serve(db, q).db; RowsSound(db') && SignedOnce(db') && WithinLimit(db')
  {
    match q
    case SignIn(email, password, device, cleaned, random, nulls, answer) =>
      FoundByEmail(db, Lower(email));
      if Serve(db, q).outcome.Tokens? {
        SignInKeepsSessions(db, UserByEmail(db.users, Lower(email)).value, device, cleaned, random, nulls, answer);
      }
    case RefreshToken(presented, device, random) =>
      if CheckRefresh(db, presented).Verified? && presented.tokenId in db.tokens {
        RotationKeepsSessions(db, presented, device, random);
      }
  }

  lemma RequestKeepsInv(db: Db, q: Request)
    requires Inv(db) && Enabled(db, q)
    ensures Inv(Serve(db, q).db)
  {
    if StoresRow(q) {
      StoringKeepsAccounts(db, q);
      StoringKeepsSessions(db, q);
    } else {
      RequestKeepsAccounts(db, q);
      ShrinkKeepsSessions(db, Serve(db, q).db);
    }
  }

  lemma {:induction false} RunKeepsInv(db: Db, qs: seq<Request>)
    requires Inv(db) && Run(db, qs)
    ensures Inv(After(db, qs))
    decreases |qs|
  {
    if qs != [] {
      RequestKeepsInv(db, qs[0]);
      RunKeepsInv(Serve(db, qs[0]).db, qs[1..]);
    }
  }

  // Some run leads from one database to the other.
  ghost predicate Leads(db: Db, qs: seq<Request>, db': Db) {
    Run(db, qs) && After(db, qs) == db'
  }

  // What the service can find itself in.
  ghost predicate Reachable(db: Db) {
    exists start, qs :: Seeded(start) && Leads(start, qs, db)
  }

  lemma ReachableInv(db: Db)
    requires Reachable(db)
    ensures Inv(db)
  {
    var start, qs :| Seeded(start) && Leads(start, qs, db);
    SeededInv(start);
    RunKeepsInv(start, qs);
  }

  lemma LeadsKeepsInv(db: Db, qs: seq<Request>, db': Db)
    requires Inv(db) && Leads(db, qs, db')
    ensures Inv(db')
  {
    RunKeepsInv(db, qs);
  }
}
