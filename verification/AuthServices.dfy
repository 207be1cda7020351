/**
 The auth service's classes in the source's own form: each method is a sequence of
 database, Redis and signing calls that update the shared backend in place, and is
 proved to do exactly what AuthDb says the request does.
 */
module AuthServices {
  import opened Wrappers
  import opened TokenConfig
  import opened RefreshTokenTable
  import opened AuthDb
  import opened AuthInvariant
  import opened AuthDecisions

  // PostgreSQL, Redis, the signing keys and the clock; one method per call on them.
  class Backend {
    var users: map<UserId, User>
    var nextUserId: UserId
    var tokens: Table
    var verification: map<VerificationToken, Verification>
    var now: nat
    const sharedSecret: bool
    var signed: set<Jwt>
    ghost var minted: map<VerificationToken, Verification>

    ghost function State(): Db
      reads this
    {
      Db(users, nextUserId, tokens, verification, now, sharedSecret, signed, minted)
    }

    // @unique on the address; without it findUnique would not be determined.
    ghost predicate Constraints()
      reads this
    {
      forall a, b :: a in users && b in users && users[a].email == users[b].email ==> a == b
    }

    constructor (sharedSecret: bool, now: nat)
      ensures State() == Db(map[], 1, map[], map[], now, sharedSecret, {}, map[])
      ensures Seeded(State())
    {
      users, nextUserId, tokens, verification, signed, minted := map[], 1, map[], map[], {}, map[];
      this.sharedSecret, this.now := sharedSecret, now;
    }

    // ---- users ----

    method FindUserByEmail(email: string) returns (r: Option<UserId>)
      requires Constraints()
      ensures r == UserByEmail(users, email)
    {
      if exists id :: id in users && users[id].email == email {
        var id :| id in users && users[id].email == email;
        return Some(id);
      }
      return None;
    }

    method CreateUser(email: string, password: Hash<string>, name: Option<string>) returns (id: UserId)
      modifies `users, `nextUserId
      ensures id == old(nextUserId) && nextUserId == id + 1
      ensures users == old(users)[id := User(email, password, name, CLIENT, true, false, None, now)]
    {
      id := nextUserId;
      nextUserId := nextUserId + 1;
      users := users[id := User(email, password, name, CLIENT, true, false, None, now)];
    }

    // Fails, changing nothing, when the address is another account's.
    method UpdateUser(id: UserId, updated: User) returns (ok: bool)
      requires id in users
      modifies `users
      ensures ok <==> !exists other :: other in old(users) && other != id && old(users)[other].email == updated.email
      ensures users == if ok then old(users)[id := updated] else old(users)
    {
      ok := !exists other :: other in users && other != id && users[other].email == updated.email;
      if ok {
        users := users[id := updated];
      }
    }

    // The rows of refresh_tokens go with their user.
    method DeleteManyUsers(gone: set<UserId>)
      modifies `users, `tokens
      ensures State() == DeleteUsers(old(State()), gone)
    {
      users := users - gone;
      tokens := map id | id in tokens && tokens[id].userId !in gone :: tokens[id];
    }

    // ---- refresh_tokens ----

    method DeleteTokens(ids: set<TokenId>)
      modifies `tokens
      ensures tokens == old(tokens) - ids
    {
      tokens := tokens - ids;
    }

    method DeleteManyTokens(left: Table) returns (count: nat)
      requires forall id :: id in left ==> id in tokens && left[id] == tokens[id]
      modifies `tokens
      ensures tokens == left
      ensures count == |old(tokens)| - |left|
      ensures Answer(State(), Count(count)) == DeleteRows(old(State()), left)
    {
      SubsetSize(left.Keys, tokens.Keys);
      assert |left| == |left.Keys| && |tokens| == |tokens.Keys|;
      count := |tokens| - |left|;
      tokens := left;
    }

    // The answer is one the database may give.
    method FindActiveTokens(userId: UserId, ghost nulls: NullPlacement, answer: seq<TokenId>) returns (r: seq<TokenId>)
      requires AnswersActiveQuery(tokens, userId, now, nulls, answer)
      ensures r == answer && Elements(r) == Live(tokens, userId, now)
    {
      r := answer;
    }

    // ---- signing ----

    method Sign(jwt: Jwt)
      modifies `signed
      ensures signed == old(signed) + {jwt}
    {
      signed := signed + {jwt};
    }

    // ---- Redis ----

    method SetEx(key: VerificationToken, seconds: nat, userId: UserId)
      modifies `verification, `minted
      ensures verification == old(verification)[key := Verification(userId, now + seconds * 1000)]
      ensures minted == old(minted)[key := Verification(userId, now + seconds * 1000)]
    {
      verification := verification[key := Verification(userId, now + seconds * 1000)];
      minted := minted[key := Verification(userId, now + seconds * 1000)];
    }

    method Get(key: VerificationToken) returns (r: Option<UserId>)
      ensures r == if key in verification && now <= verification[key].deadline then Some(verification[key].userId) else None
    {
      if key in verification && now <= verification[key].deadline {
        return Some(verification[key].userId);
      }
      return None;
    }

    method Del(key: VerificationToken)
      modifies `verification
      ensures verification == old(verification) - {key}
    {
      verification := verification - {key};
    }

    // setTimeout: at least this long, and as long as it takes.
    method Sleep(ms: nat)
      modifies `now
      ensures now >= old(now) + ms
    {
      var later: nat :| later >= now + ms;
      now := later;
    }
  }

  class EmailVerificationTokenService {
    const redis: Backend

    constructor (redis: Backend)
      ensures this.redis == redis
    {
      this.redis := redis;
    }

    method GenerateVerificationToken(userId: UserId, random: VerificationToken) returns (token: VerificationToken)
      modifies redis
      ensures token == random
      ensures var entry := Verification(userId, old(redis.now) + EMAIL_VERIFICATION_TOKEN_MILLISECONDS);
              redis.State() == old(redis.State()).(verification := old(redis.verification)[token := entry],
                                                   minted := old(redis.minted)[token := entry])
    {
      token := random;
      redis.SetEx(token, EMAIL_VERIFICATION_TOKEN_SECONDS, userId);
    }

    method VerifyToken(token: VerificationToken) returns (r: Option<UserId>)
      ensures r.Some? ==> token in redis.verification && r.value == redis.verification[token].userId
      ensures r.Some? <==> token in redis.verification && redis.now <= redis.verification[token].deadline
    {
      r := redis.Get(token);
    }

    method InvalidateToken(token: VerificationToken)
      modifies redis
      ensures redis.State() == old(redis.State()).(verification := old(redis.verification) - {token})
    {
      redis.Del(token);
    }
  }

  class TokenCleanupService {
    const prisma: Backend

    constructor (prisma: Backend)
      ensures this.prisma == prisma
    {
      this.prisma := prisma;
    }

    // Batch after batch, pausing between them, until a batch is not full.  The rows left
    // are those unexpired at the last reading of the clock, and the total counts exactly
    // the rows that went.
    method CleanupExpiredTokens() returns (totalDeleted: nat)
      modifies prisma
      ensures prisma.State() == old(prisma.State()).(tokens := DeleteExpired(old(prisma.tokens), prisma.now), now := prisma.now)
      ensures totalDeleted == |old(prisma.tokens)| - |prisma.tokens|
      ensures old(prisma.now) <= prisma.now
      ensures totalDeleted < 1000 ==> prisma.now == old(prisma.now)
    {
      var batchSize := 1000;
      var hasMore := true;
      totalDeleted := 0;
      ghost var read: nat := 0;               // the last reading of the clock
      assert DeleteExpired(prisma.tokens, read) == prisma.tokens;
      while hasMore
        invariant totalDeleted == |old(prisma.tokens)| - |prisma.tokens|
        invariant old(prisma.now) <= prisma.now && read <= prisma.now
        invariant prisma.State() == old(prisma.State()).(tokens := DeleteExpired(old(prisma.tokens), read), now := prisma.now)
        invariant !hasMore ==> read == prisma.now
        invariant totalDeleted < 1000 ==> prisma.now == old(prisma.now)
        decreases hasMore, |prisma.tokens|
      {
        DeleteExpiredTwice(old(prisma.tokens), read, prisma.now);
        read := prisma.now;
        var count := prisma.DeleteManyTokens(DeleteExpired(prisma.tokens, prisma.now));
        totalDeleted := totalDeleted + count;
        hasMore := count == batchSize;
        if hasMore {
          prisma.Sleep(100);
        }
      }
    }

    method CleanupUnusedTokens(daysOld: nat) returns (count: nat)
      modifies prisma
      ensures Answer(prisma.State(), Count(count)) ==
              DeleteRows(old(prisma.State()), DeleteUnused(old(prisma.tokens), old(prisma.now), daysOld))
    {
      count := prisma.DeleteManyTokens(DeleteUnused(prisma.tokens, prisma.now, daysOld));
    }
  }

  class JwtUserUtil {
    const prisma: Backend

    constructor (prisma: Backend)
      ensures this.prisma == prisma
    {
      this.prisma := prisma;
    }

    method ExtractUserFromAccessToken(accessToken: Jwt) returns (r: Requester)
      ensures r == Extract(prisma.State(), accessToken)
      ensures forall u :: r == Known(u) <==>
                && accessToken in prisma.signed && accessToken.Access? && accessToken.id == u
                && prisma.now / 1000 < accessToken.exp
                && u in prisma.users && prisma.users[u].isActive
                && prisma.users[u].email == accessToken.email && prisma.users[u].role == accessToken.role
      ensures accessToken !in prisma.signed || prisma.now / 1000 >= accessToken.exp ==> r == Rejected(INVALID_TOKEN)
    {
      if accessToken !in prisma.signed || !Unexpired(accessToken, prisma.now) {
        return Rejected(INVALID_TOKEN);
      }
      if accessToken.Refresh? {
        return Rejected(if prisma.sharedSecret then INVALID_QUERY else INVALID_TOKEN);
      }
      var id := accessToken.id;
      if id !in prisma.users {
        return Rejected(USER_NO_LONGER_EXISTS);
      }
      if !prisma.users[id].isActive {
        return Rejected(USER_NOT_ACTIVE);
      }
      if prisma.users[id].email != accessToken.email || prisma.users[id].role != accessToken.role {
        return Rejected(TOKEN_PAYLOAD_MISMATCH);
      }
      return Known(id);
    }
  }

  class UserDeletionService {
    const prisma: Backend
    const jwtUserUtil: JwtUserUtil

    constructor (prisma: Backend, jwtUserUtil: JwtUserUtil)
      ensures this.prisma == prisma && this.jwtUserUtil == jwtUserUtil
    {
      this.prisma, this.jwtUserUtil := prisma, jwtUserUtil;
    }

    method SoftDeleteUser(accessToken: Jwt, targetUserId: UserId) returns (r: Outcome)
      requires jwtUserUtil.prisma == prisma
      modifies prisma
      ensures Answer(prisma.State(), r) == DoSoftDelete(old(prisma.State()), accessToken, targetUserId)
    {
      var currentUser := jwtUserUtil.ExtractUserFromAccessToken(accessToken);
      if currentUser.Rejected? {
        return Failed(currentUser.error);
      }
      if targetUserId !in prisma.users {
        return Failed(USER_NOT_FOUND);
      }
      if !prisma.users[targetUserId].isActive {
        return Failed(USER_NOT_FOUND);
      }
      var objection := Objection(currentUser.id, prisma.users[currentUser.id].role, targetUserId, prisma.users[targetUserId].role);
      if objection.Some? {
        return Failed(objection.value);
      }
      // one transaction
      var _ := prisma.DeleteManyTokens(DeleteOfUser(prisma.tokens, targetUserId));
      prisma.users := prisma.users[targetUserId := prisma.users[targetUserId].(isActive := false)];
      return Done;
    }

    method HardDeleteUser(accessToken: Jwt, targetUserId: UserId) returns (r: Outcome)
      requires jwtUserUtil.prisma == prisma
      modifies prisma
      ensures Answer(prisma.State(), r) == DoHardDelete(old(prisma.State()), accessToken, targetUserId)
    {
      var currentUser := jwtUserUtil.ExtractUserFromAccessToken(accessToken);
      if currentUser.Rejected? {
        return Failed(currentUser.error);
      }
      if targetUserId !in prisma.users {
        return Failed(USER_NOT_FOUND);
      }
      var objection := Objection(currentUser.id, prisma.users[currentUser.id].role, targetUserId, prisma.users[targetUserId].role);
      if objection.Some? {
        return Failed(objection.value);
      }
      prisma.DeleteManyUsers({targetUserId});
      return Done;
    }
  }

  class AuthService {
    const prisma: Backend
    const jwtUserUtil: JwtUserUtil
    const emailVerificationTokenService: EmailVerificationTokenService

    constructor (prisma: Backend, jwtUserUtil: JwtUserUtil, emailVerificationTokenService: EmailVerificationTokenService)
      requires jwtUserUtil.prisma == prisma && emailVerificationTokenService.redis == prisma
      ensures this.prisma == prisma && Wired()
    {
      this.prisma, this.jwtUserUtil, this.emailVerificationTokenService := prisma, jwtUserUtil, emailVerificationTokenService;
    }

    predicate Wired() {
      jwtUserUtil.prisma == prisma && emailVerificationTokenService.redis == prisma
    }

    // ---- accounts ----

    // createUser, and the token the controller then has mailed.
    method Register(email: string, password: string, name: Option<string>, random: VerificationToken) returns (r: Outcome)
      requires Wired() && AccountsSound(prisma.State())
      modifies prisma
      ensures Answer(prisma.State(), r) == DoRegister(old(prisma.State()), email, password, name, random)
    {
      r := CreateUser(email, password, name);
      if r.Registered? {
        var _ := emailVerificationTokenService.GenerateVerificationToken(r.id, random);
      }
    }

    // What creating the account leaves before the token is mailed.
    method CreateUser(email: string, password: string, name: Option<string>) returns (r: Outcome)
      requires Wired() && AccountsSound(prisma.State())
      modifies prisma
      ensures r.Registered? || r.Failed?
      ensures forall random ::
                var entry := Verification(old(prisma.nextUserId), prisma.now + EMAIL_VERIFICATION_TOKEN_MILLISECONDS);
                DoRegister(old(prisma.State()), email, password, name, random) ==
                (if r.Registered?
                 then Answer(prisma.State().(verification := prisma.verification[random := entry],
                                             minted := prisma.minted[random := entry]), r)
                 else Answer(prisma.State(), r))
      ensures r.Registered? ==> r.id == old(prisma.nextUserId)
    {
      var normalizedEmail := Lower(email);
      FoundByEmail(prisma.State(), normalizedEmail);
      var refused := CheckIfUserUnverifiedAndDelete(normalizedEmail);
      if refused.Some? {
        return Failed(refused.value);
      }
      var id := prisma.CreateUser(normalizedEmail, Bcrypt(password), name);
      return Registered(id);
    }

    method CheckIfUserUnverifiedAndDelete(email: string) returns (refused: Option<Error>)
      requires prisma.Constraints()
      modifies prisma
      ensures var found := UserByEmail(old(prisma.users), email);
              match found
              case None => refused == None && prisma.State() == old(prisma.State())
              case Some(id) =>
                if old(prisma.users)[id].emailVerified then refused == Some(EMAIL_ALREADY_EXISTS) && prisma.State() == old(prisma.State())
                else if RegistrationLapsed(old(prisma.users)[id], prisma.now)
                then refused == None && prisma.State() == DeleteUsers(old(prisma.State()), {id})
                else refused == Some(UNVERIFIED_ACCOUNT_EXISTS) && prisma.State() == old(prisma.State())
    {
      var found := prisma.FindUserByEmail(email);
      if found.None? {
        return None;
      }
      var user := prisma.users[found.value];
      if user.emailVerified {
        return Some(EMAIL_ALREADY_EXISTS);
      }
      var expirationTime := prisma.now - EMAIL_VERIFICATION_TOKEN_MILLISECONDS;
      if user.createdAt < expirationTime {
        prisma.DeleteManyUsers({found.value});
        return None;
      }
      return Some(UNVERIFIED_ACCOUNT_EXISTS);
    }

    method UpdateUser(accessToken: Jwt, targetUserId: UserId, data: UserUpdate) returns (r: Outcome)
      requires Wired()
      modifies prisma
      ensures Answer(prisma.State(), r) == DoUpdateUser(old(prisma.State()), accessToken, targetUserId, data)
    {
      var currentUser := jwtUserUtil.ExtractUserFromAccessToken(accessToken);
      if currentUser.Rejected? {
        return Failed(currentUser.error);
      }
      if targetUserId !in prisma.users || !prisma.users[targetUserId].isActive {
        return Failed(USER_NOT_FOUND);
      }
      var targetUser := prisma.users[targetUserId];
      var objection := Objection(currentUser.id, prisma.users[currentUser.id].role, targetUserId, targetUser.role);
      if objection.Some? {
        return Failed(objection.value);
      }
      if data.emailVerified.Some? && prisma.users[currentUser.id].role != ADMIN {
        return Failed(PERMISSION_DENIED);
      }
      var updated := targetUser;
      if data.email.Some? {
        updated := updated.(email := Lower(data.email.value));
      }
      if data.name.Some? {
        updated := updated.(name := data.name);
      }
      if data.emailVerified.Some? {
        updated := updated.(emailVerified := data.emailVerified.value);
      }
      var ok := prisma.UpdateUser(targetUserId, updated);
      return if ok then Done else Failed(UNIQUE_VIOLATION);
    }

    method VerifyEmail(token: VerificationToken) returns (r: Outcome)
      requires Wired()
      modifies prisma
      ensures Answer(prisma.State(), r) == DoVerifyEmail(old(prisma.State()), token)
    {
      var userId := emailVerificationTokenService.VerifyToken(token);
      if userId.None? {
        return Failed(VERIFICATION_TOKEN_INVALID);
      }
      var id := userId.value;
      if id !in prisma.users {
        return Failed(USER_NOT_FOUND);
      }
      if !prisma.users[id].isActive {
        return Failed(USER_NOT_ACTIVE);
      }
      if prisma.users[id].emailVerified {
        return Failed(EMAIL_ALREADY_VERIFIED);
      }
      prisma.users := prisma.users[id := prisma.users[id].(emailVerified := true, emailVerifiedAt := Some(prisma.now))];
      emailVerificationTokenService.InvalidateToken(token);
      return Done;
    }

    method CleanupUnverifiedUsers() returns (count: nat)
      modifies prisma
      ensures Answer(prisma.State(), Count(count)) == Serve(old(prisma.State()), Request.CleanupUnverifiedUsers)
    {
      var expirationTime := prisma.now - EMAIL_VERIFICATION_TOKEN_MILLISECONDS;
      var gone := set id | id in prisma.users && !prisma.users[id].emailVerified && prisma.users[id].createdAt < expirationTime;
      assert gone == Lapsed(prisma.State());
      prisma.DeleteManyUsers(gone);
      return |gone|;
    }

    // ---- sessions ----

    method SignIn(email: string, password: string, deviceInfo: Device, cleaned: bool, random: TokenId, ghost nulls: NullPlacement, answer: seq<TokenId>)
      returns (r: Outcome)
      requires AccountsSound(prisma.State())
      requires Enabled(prisma.State(), Request.SignIn(email, password, deviceInfo, cleaned, random, nulls, answer))
      modifies prisma
      ensures Answer(prisma.State(), r) == DoSignIn(old(prisma.State()), email, password, deviceInfo, cleaned, random, answer)
    {
      var normalizedEmail := Lower(email);
      var found := prisma.FindUserByEmail(normalizedEmail);
      if found.None? || !prisma.users[found.value].isActive {
        return Failed(USER_NOT_FOUND);
      }
      var user := prisma.users[found.value];
      if !user.emailVerified {
        return Failed(EMAIL_NOT_VERIFIED);
      }
      if user.password != Bcrypt(password) {
        return Failed(INVALID_CREDENTIALS);
      }
      r := GenerateTokenPair(found.value, deviceInfo, cleaned, random, nulls, answer);
    }

    method GenerateTokenPair(userId: UserId, deviceInfo: Device, cleaned: bool, random: TokenId, ghost nulls: NullPlacement, answer: seq<TokenId>)
      returns (r: Outcome)
      requires userId in prisma.users
      requires AnswersActiveQuery(AfterDeviceCleanup(prisma.tokens, userId, deviceInfo, cleaned), userId, prisma.now, nulls, answer)
      modifies prisma
      ensures Answer(prisma.State(), r) == AuthDb.GenerateTokenPair(old(prisma.State()), userId, deviceInfo, cleaned, random, answer)
    {
      CleanupExistingDeviceToken(userId, deviceInfo, cleaned);
      EnforceTokenLimit(userId, nulls, answer);
      var accessToken := AccessFor(userId, prisma.users[userId], prisma.now);
      prisma.Sign(accessToken);
      var refreshToken := RefreshFor(userId, random, prisma.now);
      prisma.Sign(refreshToken);
      prisma.tokens := Create(prisma.tokens, refreshToken, deviceInfo, prisma.now);
      return Tokens(accessToken, refreshToken);
    }

    // `cleaned` tells whether the database carries out its statements; the source logs
    // their failure and goes on.
    method CleanupExistingDeviceToken(userId: UserId, deviceInfo: Device, cleaned: bool)
      modifies prisma`tokens
      ensures prisma.tokens == AfterDeviceCleanup(old(prisma.tokens), userId, deviceInfo, cleaned)
    {
      assert prisma.tokens - {} == prisma.tokens;
      if !cleaned {
        return;
      }
      var existingTokens := DeviceRows(prisma.tokens, userId, deviceInfo);
      if existingTokens != {} {
        prisma.DeleteTokens(existingTokens);
      }
    }

    // At most MAX - 1 of the user's unexpired rows remain, and what goes is the prefix of
    // the answer that LimitRemovesLeastRecentlyUsed speaks of.
    method EnforceTokenLimit(userId: UserId, ghost nulls: NullPlacement, answer: seq<TokenId>)
      requires AnswersActiveQuery(prisma.tokens, userId, prisma.now, nulls, answer)
      modifies prisma`tokens
      ensures prisma.tokens == old(prisma.tokens) - Elements(TokensToRemove(answer))
      ensures |Live(prisma.tokens, userId, prisma.now)| <= MAX_REFRESH_TOKENS_PER_USER - 1
    {
      LimitedTableHasRoom(prisma.tokens, userId, prisma.now, nulls, answer);
      var activeTokens := prisma.FindActiveTokens(userId, nulls, answer);
      if |activeTokens| >= MAX_REFRESH_TOKENS_PER_USER {
        var tokensToRemove := activeTokens[0..|activeTokens| - MAX_REFRESH_TOKENS_PER_USER + 1];
        BulkDeleteTokens(tokensToRemove);
      } else {
        assert old(prisma.tokens) - Elements([]) == old(prisma.tokens);
      }
    }

    method BulkDeleteTokens(tokenIds: seq<TokenId>)
      modifies prisma`tokens
      ensures prisma.tokens == old(prisma.tokens) - Elements(tokenIds)
    {
      if |tokenIds| == 0 {
        assert prisma.tokens - Elements(tokenIds) == prisma.tokens;
        return;
      }
      prisma.DeleteTokens(Elements(tokenIds));
    }

    method VerifyRefreshToken(refreshToken: Jwt) returns (r: Checked)
      ensures r == CheckRefresh(prisma.State(), refreshToken)
    {
      if refreshToken !in prisma.signed || !Unexpired(refreshToken, prisma.now) {
        return NotVerified(REFRESH_TOKEN_INVALID);
      }
      // An access token verifies here only under a shared secret.
      if refreshToken.Access? {
        return NotVerified(if prisma.sharedSecret then INVALID_TOKEN else REFRESH_TOKEN_INVALID);
      }
      return Verified(refreshToken);
    }

    method RefreshToken(refreshToken: Jwt, deviceInfo: Device, random: TokenId) returns (r: Outcome)
      modifies prisma
      ensures Answer(prisma.State(), r) == DoRefresh(old(prisma.State()), refreshToken, deviceInfo, random)
    {
      var checked := VerifyRefreshToken(refreshToken);
      if checked.NotVerified? {
        return Failed(checked.error);
      }
      var tokenId := checked.jwt.tokenId;
      if tokenId !in prisma.tokens {
        return Failed(REFRESH_TOKEN_NOT_FOUND);
      }
      var storedToken := prisma.tokens[tokenId];
      if storedToken.expiresAt < prisma.now {
        var _ := CleanupToken(tokenId);
        return Failed(TOKEN_EXPIRED);
      }
      if storedToken.token != Bcrypt(checked.jwt) {
        var _ := RevokeAllRefreshTokens(storedToken.userId);
        return Failed(REFRESH_TOKEN_INVALID);
      }
      if storedToken.userId !in prisma.users {
        return Failed(USER_NO_LONGER_EXISTS);
      }
      UpdateTokenUsage(tokenId, deviceInfo);
      r := RotateTokens(storedToken.userId, tokenId, deviceInfo, random);
    }

    method UpdateTokenUsage(tokenId: TokenId, deviceInfo: Device)
      requires tokenId in prisma.tokens
      modifies prisma`tokens
      ensures prisma.tokens == Touch(old(prisma.tokens), tokenId, deviceInfo, prisma.now)
    {
      prisma.tokens := prisma.tokens[tokenId := prisma.tokens[tokenId].(lastUsedAt := Some(prisma.now), device := deviceInfo)];
    }

    method RotateTokens(userId: UserId, oldTokenId: TokenId, deviceInfo: Device, random: TokenId) returns (r: Outcome)
      requires userId in prisma.users && oldTokenId in prisma.tokens
      modifies prisma
      ensures var access, refresh := AccessFor(userId, old(prisma.users)[userId], old(prisma.now)), RefreshFor(userId, random, old(prisma.now));
              && r == Tokens(access, refresh)
              && prisma.State() == old(prisma.State()).(
                   tokens := Rotate(old(prisma.tokens), oldTokenId, refresh, deviceInfo, old(prisma.now)),
                   signed := old(prisma.signed) + {access, refresh})
    {
      var newAccessToken := AccessFor(userId, prisma.users[userId], prisma.now);
      prisma.Sign(newAccessToken);
      var newRefreshToken := RefreshFor(userId, random, prisma.now);
      prisma.Sign(newRefreshToken);
      prisma.tokens := Rotate(prisma.tokens, oldTokenId, newRefreshToken, deviceInfo, prisma.now);
      return Tokens(newAccessToken, newRefreshToken);
    }

    // Fails when there is no such row.
    method CleanupToken(tokenId: TokenId) returns (ok: bool)
      modifies prisma`tokens
      ensures ok <==> tokenId in old(prisma.tokens)
      ensures prisma.tokens == old(prisma.tokens) - {tokenId}
    {
      ok := tokenId in prisma.tokens;
      if ok {
        prisma.DeleteTokens({tokenId});
      }
    }

    method RevokeRefreshToken(refreshToken: Jwt) returns (r: Outcome)
      modifies prisma
      ensures Answer(prisma.State(), r) == DoLogout(old(prisma.State()), refreshToken)
    {
      var checked := VerifyRefreshToken(refreshToken);
      if checked.NotVerified? {
        return Failed(REFRESH_TOKEN_INVALID);
      }
      var ok := CleanupToken(checked.jwt.tokenId);
      if !ok {
        assert prisma.tokens == old(prisma.tokens);
        return Failed(RECORD_NOT_FOUND);
      }
      return Done;
    }

    method RevokeAllRefreshTokens(userId: UserId) returns (count: nat)
      modifies prisma`tokens
      ensures prisma.tokens == DeleteOfUser(old(prisma.tokens), userId)
      ensures Answer(prisma.State(), Count(count)) == DeleteRows(old(prisma.State()), DeleteOfUser(old(prisma.tokens), userId))
    {
      count := prisma.DeleteManyTokens(DeleteOfUser(prisma.tokens, userId));
    }

    method LogoutAllDevices(accessToken: Jwt, targetUserId: UserId) returns (r: Outcome)
      requires Wired()
      modifies prisma
      ensures Answer(prisma.State(), r) == DoLogoutAll(old(prisma.State()), accessToken, targetUserId)
    {
      var currentUser := jwtUserUtil.ExtractUserFromAccessToken(accessToken);
      if currentUser.Rejected? {
        return Failed(currentUser.error);
      }
      if targetUserId !in prisma.users || !prisma.users[targetUserId].isActive {
        return Failed(USER_NOT_FOUND);
      }
      var objection := Objection(currentUser.id, prisma.users[currentUser.id].role, targetUserId, prisma.users[targetUserId].role);
      if objection.Some? {
        return Failed(objection.value);
      }
      var revokedCount := RevokeAllRefreshTokens(targetUserId);
      return Count(revokedCount);
    }
  }
}
