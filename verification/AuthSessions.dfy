/**
 What users can rely on about their sessions when every request is atomic, in
 every database a run from a seeded one reaches.
 */
module AuthSessions {
  import opened Wrappers
  import opened TokenConfig
  import opened RefreshTokenTable
  import opened AuthDb
  import opened AuthInvariant

  // ---- the session limit ----------------------------------------------------------------

  lemma SessionLimit(db: Db, u: UserId)
    requires Reachable(db)
    ensures |set id | id in db.tokens && db.tokens[id].userId == u && db.tokens[id].expiresAt > db.now| <= 5
  {
    ReachableInv(db);
    assert Live(db.tokens, u, db.now) ==
           set id | id in db.tokens && db.tokens[id].userId == u && db.tokens[id].expiresAt > db.now;
  }

  // ---- sign-in -----------------------------------------------------------------------------

  // Who may sign in, and with which account.
  ghost predicate Credentials(db: Db, email: string, password: string, id: UserId) {
    && id in db.users && db.users[id].email == Lower(email)
    && db.users[id].isActive && db.users[id].emailVerified && db.users[id].password == Bcrypt(password)
  }

  lemma SignInDecides(db: Db, q: Request, id: UserId)
    requires AccountsSound(db) && q.SignIn?
    ensures Credentials(db, q.email, q.password, id) <==>
            Serve(db, q).outcome.Tokens? && Serve(db, q).outcome.refresh.userId == id
    ensures Serve(db, q).outcome.Tokens? ==>
            Serve(db, q) == GenerateTokenPair(db, Serve(db, q).outcome.refresh.userId, q.device, q.cleaned, q.random, q.answer)
    ensures !Serve(db, q).outcome.Tokens? ==> Serve(db, q).outcome.Failed? && Serve(db, q).db == db
  {
    FoundByEmail(db, Lower(q.email));
  }

  // The limit step sees the user's unexpired rows but for those the device clean-up removed.
  function OtherLive(db: Db, u: UserId, device: Device, cleaned: bool): set<TokenId> {
    Live(db.tokens, u, db.now) - CleanedRows(db.tokens, u, device, cleaned)
  }

  // A row that a sign-in removes was the device's own or, when the others fill the
  // limit, no survivor among them was used before it.
  ghost predicate RightlyRemoved(
    db: Db, db': Db, u: UserId, device: Device, cleaned: bool, nulls: NullPlacement, gone: TokenId)
  {
    var others := OtherLive(db, u, device, cleaned);
    || gone in CleanedRows(db.tokens, u, device, cleaned)
    || (&& gone in others
        && |others| >= MAX_REFRESH_TOKENS_PER_USER
        && forall kept :: kept in others && kept in db.tokens && kept in db'.tokens && gone in db.tokens ==>
             GoesBefore(nulls, db.tokens[gone].lastUsedAt, db.tokens[kept].lastUsedAt))
  }

  // Used no later; rows never used go last or first, as the database places nulls.
  predicate GoesBefore(nulls: NullPlacement, gone: Option<nat>, kept: Option<nat>) {
    && (gone.Some? && kept.Some? ==> gone.value <= kept.value)
    && (nulls.NullsLast? && gone.None? ==> kept.None?)
    && (nulls.NullsFirst? && kept.None? ==> gone.None?)
  }

  // What a sign-in by `u` on `device` makes of the sessions: unless the clean-up failed
  // the device has exactly one row, the new one; the other sessions lose only the least
  // recently used, and only as many as the limit asks.
  ghost predicate SessionsReplaced(
    db: Db, db': Db, u: UserId, device: Device, cleaned: bool, nulls: NullPlacement, stored: TokenId)
  {
    var others := |OtherLive(db, u, device, cleaned)|;
    && (cleaned ==> DeviceRows(db'.tokens, u, device) == {stored})
    && stored in DeviceRows(db'.tokens, u, device)
    && stored in Live(db'.tokens, u, db.now)
    && (forall r :: r in db'.tokens && r != stored ==> r in db.tokens && db'.tokens[r] == db.tokens[r])
    && (forall r :: r in db.tokens && r !in db'.tokens ==> RightlyRemoved(db, db', u, device, cleaned, nulls, r))
    && |Live(db'.tokens, u, db.now)| ==
       (if others >= MAX_REFRESH_TOKENS_PER_USER then MAX_REFRESH_TOKENS_PER_USER else others + 1)
  }

  lemma SignInReplacesSessions(db: Db, q: Request)
    requires Inv(db) && Enabled(db, q) && q.SignIn? && Serve(db, q).outcome.Tokens?
    ensures var refresh := Serve(db, q).outcome.refresh;
            && refresh.tokenId == q.random
            && SessionsReplaced(db, Serve(db, q).db, refresh.userId, q.device, q.cleaned, q.nulls, refresh.tokenId)
  {
    var u := Serve(db, q).outcome.refresh.userId;
    SignInDecides(db, q, u);
    AnswerFor(db, q, u);
    NewTokenIsNew(db, q.random);
    PairReplacesSessions(db, u, q.device, q.cleaned, q.random, q.nulls, q.answer);
  }

  lemma AnswerFor(db: Db, q: Request, u: UserId)
    requires AccountsSound(db) && Enabled(db, q) && q.SignIn? && Credentials(db, q.email, q.password, u)
    ensures AnswersActiveQuery(AfterDeviceCleanup(db.tokens, u, q.device, q.cleaned), u, db.now, q.nulls, q.answer)
    ensures Fresh(db, q.random)
  {
    FoundByEmail(db, Lower(q.email));
  }

  lemma NewTokenIsNew(db: Db, random: TokenId)
    requires RowsSound(db) && Fresh(db, random)
    ensures random !in db.tokens
  {
    assert forall id :: id in db.tokens ==> RowSound(db, id);
  }

  lemma PairReplacesSessions(db: Db, u: UserId, device: Device, cleaned: bool, random: TokenId, nulls: NullPlacement, answer: seq<TokenId>)
    requires u in db.users && random !in db.tokens
    requires AnswersActiveQuery(AfterDeviceCleanup(db.tokens, u, device, cleaned), u, db.now, nulls, answer)
    ensures GenerateTokenPair(db, u, device, cleaned, random, answer).outcome.refresh.tokenId == random
    ensures SessionsReplaced(db, GenerateTokenPair(db, u, device, cleaned, random, answer).db, u, device, cleaned, nulls, random)
  {
    LimitedTableReplacesSessions(
      db, GenerateTokenPair(db, u, device, cleaned, random, answer).db, u, device, cleaned, RefreshFor(u, random, db.now), nulls, answer);
  }

  lemma LimitedTableReplacesSessions(
    db: Db, db': Db, u: UserId, device: Device, cleaned: bool, jwt: RefreshJwt, nulls: NullPlacement, answer: seq<TokenId>)
    requires jwt.tokenId !in db.tokens && jwt.userId == u
    requires AnswersActiveQuery(AfterDeviceCleanup(db.tokens, u, device, cleaned), u, db.now, nulls, answer)
    requires db'.tokens ==
             Create(AfterDeviceCleanup(db.tokens, u, device, cleaned) - Elements(TokensToRemove(answer)), jwt, device, db.now)
    ensures SessionsReplaced(db, db', u, device, cleaned, nulls, jwt.tokenId)
  {
    var removed := Elements(TokensToRemove(answer));
    LimitSeesOtherLive(db, u, device, cleaned);
    PairTable(db.tokens, db'.tokens, u, device, cleaned, jwt, removed, db.now);
    forall gone | gone in db.tokens && gone !in db'.tokens
      ensures RightlyRemoved(db, db', u, device, cleaned, nulls, gone)
    {
      if gone !in CleanedRows(db.tokens, u, device, cleaned) {
        EvictedIsLeastUsed(db, db', u, device, cleaned, nulls, answer, gone);
      }
    }
    EvictsExactly(AfterDeviceCleanup(db.tokens, u, device, cleaned), u, db.now, nulls, answer);
  }

  lemma LimitSeesOtherLive(db: Db, u: UserId, device: Device, cleaned: bool)
    ensures Live(AfterDeviceCleanup(db.tokens, u, device, cleaned), u, db.now) == OtherLive(db, u, device, cleaned)
  {
  }

  // The table a sign-in leaves.
  lemma PairTable(
    t: Table, t': Table, u: UserId, device: Device, cleaned: bool, jwt: RefreshJwt, removed: set<TokenId>, now: nat)
    requires jwt.userId == u && jwt.tokenId !in t
    requires t' == Create(AfterDeviceCleanup(t, u, device, cleaned) - removed, jwt, device, now)
    ensures cleaned ==> DeviceRows(t', u, device) == {jwt.tokenId}
    ensures jwt.tokenId in DeviceRows(t', u, device) && jwt.tokenId in Live(t', u, now)
    ensures Live(t', u, now) == (Live(AfterDeviceCleanup(t, u, device, cleaned), u, now) - removed) + {jwt.tokenId}
    ensures forall r :: r in t' && r != jwt.tokenId ==> r in t && t'[r] == t[r] && r !in removed
    ensures forall r :: r in t && r !in t' ==> r in CleanedRows(t, u, device, cleaned) || r in removed
  {
  }

  lemma EvictedIsLeastUsed(
    db: Db, db': Db, u: UserId, device: Device, cleaned: bool, nulls: NullPlacement, answer: seq<TokenId>, gone: TokenId)
    requires var left := AfterDeviceCleanup(db.tokens, u, device, cleaned);
             && AnswersActiveQuery(left, u, db.now, nulls, answer)
             && Live(left, u, db.now) == OtherLive(db, u, device, cleaned)
    requires forall r :: r in db'.tokens && r in db.tokens ==> r !in Elements(TokensToRemove(answer))
    requires gone in db.tokens && gone !in CleanedRows(db.tokens, u, device, cleaned)
    requires gone in Elements(TokensToRemove(answer))
    ensures RightlyRemoved(db, db', u, device, cleaned, nulls, gone)
  {
    var left := AfterDeviceCleanup(db.tokens, u, device, cleaned);
    LimitLeavesRoom(left, u, db.now, nulls, answer);
    var i :| 0 <= i < |TokensToRemove(answer)| && TokensToRemove(answer)[i] == gone;
    assert answer[i] in Elements(answer);
    forall kept | kept in OtherLive(db, u, device, cleaned) && kept in db'.tokens
      ensures GoesBefore(nulls, db.tokens[gone].lastUsedAt, db.tokens[kept].lastUsedAt)
    {
      LimitRemovesLeastRecentlyUsed(left, u, db.now, nulls, answer, gone, kept);
    }
  }

  lemma EvictsExactly(t: Table, u: UserId, now: nat, nulls: NullPlacement, answer: seq<TokenId>)
    requires AnswersActiveQuery(t, u, now, nulls, answer)
    ensures var live := |Live(t, u, now)|;
            |Live(t, u, now) - Elements(TokensToRemove(answer))| ==
            (if live >= MAX_REFRESH_TOKENS_PER_USER then MAX_REFRESH_TOKENS_PER_USER - 1 else live)
  {
    var removed := TokensToRemove(answer);
    DistinctCount(answer);
    DistinctCount(removed);
    assert forall i :: 0 <= i < |removed| ==> removed[i] == answer[i] && answer[i] in Elements(answer);
    assert Elements(removed) <= Live(t, u, now);
  }

  // ---- refresh ---------------------------------------------------------------------------------

  // The row of a token that was just refreshed with.
  function Renewed(db: Db, jwt: RefreshJwt, device: Device, minted: RefreshJwt): Row
    requires jwt.tokenId in db.tokens
  {
    Row(jwt.userId, Bcrypt(minted), device, db.now + REFRESH_TOKEN_MILLISECONDS, db.tokens[jwt.tokenId].createdAt, Some(db.now))
  }

  lemma RotationRenews(db: Db, jwt: RefreshJwt, device: Device, random: TokenId)
    requires jwt.tokenId in db.tokens && db.tokens[jwt.tokenId].userId == jwt.userId
    ensures var minted := RefreshFor(jwt.userId, random, db.now);
            Rotate(Touch(db.tokens, jwt.tokenId, device, db.now), jwt.tokenId, minted, device, db.now) ==
            (db.tokens - {jwt.tokenId})[random := Renewed(db, jwt, device, minted)]
  {
  }

  // A refresh succeeds exactly when the token verifies and its row is stored; the row
  // then moves to the new token, and in every other case nothing changes.  The
  // outcomes TOKEN_EXPIRED and USER_NO_LONGER_EXISTS do not occur.
  lemma RefreshDecides(db: Db, presented: Jwt, device: Device, random: TokenId)
    requires Inv(db)
    ensures var answer := DoRefresh(db, presented, device, random);
            match CheckRefresh(db, presented)
            case NotVerified(error) => answer == Answer(db, Failed(error))
            case Verified(jwt) =>
              if jwt.tokenId !in db.tokens then answer == Answer(db, Failed(REFRESH_TOKEN_NOT_FOUND))
              else
                var u, minted := jwt.userId, RefreshFor(jwt.userId, random, db.now);
                && u in db.users && db.users[u].isActive
                && answer.outcome == Tokens(AccessFor(u, db.users[u], db.now), minted)
                && answer.db == db.(
                     tokens := (db.tokens - {jwt.tokenId})[random := Renewed(db, jwt, device, minted)],
                     signed := db.signed + {answer.outcome.access, minted})
  {
    if CheckRefresh(db, presented).Verified? && presented.tokenId in db.tokens {
      VerifiedRowMatches(db, presented);
      RotationRenews(db, presented, device, random);
    }
  }

  // ---- a token whose row has gone --------------------------------------------------------------

  ghost predicate Retired(db: Db, jwt: RefreshJwt) {
    jwt in db.signed && jwt.tokenId !in db.tokens
  }

  lemma StoringKeepsRetired(db: Db, q: Request, jwt: RefreshJwt)
    requires Inv(db) && Enabled(db, q) && StoresRow(q) && jwt in db.signed
    ensures jwt in Serve(db, q).db.signed
    ensures jwt.tokenId in Serve(db, q).db.tokens ==> jwt.tokenId in db.tokens
  {
    match q
    case SignIn(_, _, _, _, random, _, _) =>
      SignInDecides(db, q, 0);
      assert jwt.tokenId != random;
    case RefreshToken(presented, device, random) =>
      RefreshDecides(db, presented, device, random);
      assert jwt.tokenId != random;
  }

  lemma RequestKeepsRetired(db: Db, q: Request, jwt: RefreshJwt)
    requires Inv(db) && Enabled(db, q) && Retired(db, jwt)
    ensures Retired(Serve(db, q).db, jwt)
  {
    if StoresRow(q) {
      StoringKeepsRetired(db, q, jwt);
    } else {
      RequestKeepsAccounts(db, q);
    }
  }

  lemma {:induction false} RunKeepsRetired(db: Db, qs: seq<Request>, jwt: RefreshJwt)
    requires Inv(db) && Run(db, qs) && Retired(db, jwt)
    ensures Retired(After(db, qs), jwt)
    decreases |qs|
  {
    if qs != [] {
      RequestKeepsRetired(db, qs[0], jwt);
      RequestKeepsInv(db, qs[0]);
      RunKeepsRetired(Serve(db, qs[0]).db, qs[1..], jwt);
    }
  }

  lemma RemovalRetires(db: Db, q: Request, id: TokenId)
    requires Inv(db) && Enabled(db, q) && id in db.tokens && id !in Serve(db, q).db.tokens
    ensures db.tokens[id].token.of.tokenId == id && Retired(Serve(db, q).db, db.tokens[id].token.of)
  {
    assert RowSound(db, id);
    if StoresRow(q) {
      StoringKeepsRetired(db, q, db.tokens[id].token.of);
    } else {
      RequestKeepsAccounts(db, q);
    }
  }

  // Whatever request takes a row away (rotation, logout, logout-all, eviction, a
  // sweep, the deletion of the account), in every continuation the token of that row
  // is refused and presenting it changes nothing.
  lemma RemovedTokenIsRefused(
    db: Db, q: Request, id: TokenId, after: seq<Request>, later: Db, device: Device, random: TokenId)
    requires Reachable(db) && Enabled(db, q) && id in db.tokens && id !in Serve(db, q).db.tokens
    requires Leads(Serve(db, q).db, after, later)
    ensures var jwt := db.tokens[id].token.of;
            && jwt.tokenId == id
            && DoRefresh(later, jwt, device, random) ==
               Answer(later, Failed(if later.now / 1000 < jwt.exp then REFRESH_TOKEN_NOT_FOUND else REFRESH_TOKEN_INVALID))
            && DoLogout(later, jwt) ==
               Answer(later, Failed(if later.now / 1000 < jwt.exp then RECORD_NOT_FOUND else REFRESH_TOKEN_INVALID))
  {
    ReachableInv(db);
    RemovalRetires(db, q, id);
    RequestKeepsInv(db, q);
    RunKeepsRetired(Serve(db, q).db, after, db.tokens[id].token.of);
    RetiredIsRefused(later, db.tokens[id].token.of, device, random);
  }

  lemma RetiredIsRefused(db: Db, jwt: RefreshJwt, device: Device, random: TokenId)
    requires Retired(db, jwt)
    ensures DoRefresh(db, jwt, device, random) ==
            Answer(db, Failed(if db.now / 1000 < jwt.exp then REFRESH_TOKEN_NOT_FOUND else REFRESH_TOKEN_INVALID))
    ensures DoLogout(db, jwt) ==
            Answer(db, Failed(if db.now / 1000 < jwt.exp then RECORD_NOT_FOUND else REFRESH_TOKEN_INVALID))
  {
  }

  // ---- the weekly sweep -------------------------------------------------------------------------

  lemma UnusedSweepIsIdle(db: Db)
    requires Reachable(db)
    ensures Serve(db, CleanupUnusedTokens) == Answer(db, Count(0))
  {
    ReachableInv(db);
    forall id | id in db.tokens
      ensures id in DeleteUnused(db.tokens, db.now, REFRESH_TOKEN_DAYS)
    {
      assert RowSound(db, id);
    }
    assert DeleteUnused(db.tokens, db.now, REFRESH_TOKEN_DAYS) == db.tokens;
  }

  // ---- one row per device ------------------------------------------------------------------------

  ghost predicate OnePerDevice(t: Table) {
    forall a, b :: a in t && b in t && t[a].userId == t[b].userId && t[a].device == t[b].device ==> a == b
  }

  // A refresh from a device on which the user has another session.
  predicate FromOccupiedDevice(db: Db, q: Request) {
    && q.RefreshToken? && CheckRefresh(db, q.presented).Verified? && q.presented.tokenId in db.tokens
    && !(DeviceRows(db.tokens, q.presented.userId, q.device) <= {q.presented.tokenId})
  }

  // A sign-in whose device clean-up failed, from a device with a row the limit step spares.
  ghost predicate UncleanedSignIn(db: Db, q: Request) {
    && q.SignIn? && !q.cleaned
    && exists u :: Credentials(db, q.email, q.password, u)
                   && !(DeviceRows(db.tokens, u, q.device) <= Elements(TokensToRemove(q.answer)))
  }

  ghost predicate CrowdsDevice(db: Db, q: Request) {
    FromOccupiedDevice(db, q) || UncleanedSignIn(db, q)
  }

  // Such requests are exactly what breaks "one row per device".
  lemma OnePerDeviceBreaksIff(db: Db, q: Request)
    requires Inv(db) && Enabled(db, q) && OnePerDevice(db.tokens)
    ensures OnePerDevice(Serve(db, q).db.tokens) <==> !CrowdsDevice(db, q)
  {
    if q.SignIn? {
      SignInOnDevice(db, q);
    } else if q.RefreshToken? {
      RefreshDecides(db, q.presented, q.device, q.random);
      if CheckRefresh(db, q.presented).Verified? && q.presented.tokenId in db.tokens {
        NewTokenIsNew(db, q.random);
        RotationOnDevice(db, q.presented, q.device, q.random);
      }
    } else {
      RequestKeepsAccounts(db, q);
    }
  }

  lemma SignInOnDevice(db: Db, q: Request)
    requires Inv(db) && Enabled(db, q) && q.SignIn? && OnePerDevice(db.tokens)
    ensures OnePerDevice(Serve(db, q).db.tokens) <==> !UncleanedSignIn(db, q)
  {
    if Serve(db, q).outcome.Tokens? {
      var u := Serve(db, q).outcome.refresh.userId;
      SignInDecides(db, q, u);
      SignInReplacesSessions(db, q);
      if q.cleaned {
        CleanSignInKeepsOnePerDevice(db, Serve(db, q).db, u, q.device, q.nulls, q.random);
      } else {
        OnlyAccount(db, q, u);
        UncleanedTable(db, q, u);
        UncleanedOnDevice(db.tokens, Serve(db, q).db.tokens, u, q.device, q.random, Elements(TokensToRemove(q.answer)));
      }
    } else {
      NobodySignedIn(db, q);
    }
  }

  lemma NobodySignedIn(db: Db, q: Request)
    requires AccountsSound(db) && q.SignIn? && !Serve(db, q).outcome.Tokens?
    ensures Serve(db, q).db == db && forall u :: !Credentials(db, q.email, q.password, u)
  {
    forall u
      ensures Serve(db, q).db == db && !Credentials(db, q.email, q.password, u)
    {
      SignInDecides(db, q, u);
    }
    SignInDecides(db, q, 0);
  }

  lemma OnlyAccount(db: Db, q: Request, u: UserId)
    requires AccountsSound(db) && q.SignIn? && Credentials(db, q.email, q.password, u)
    ensures forall v :: Credentials(db, q.email, q.password, v) ==> v == u
  {
  }

  // Without the clean-up, the table is the old one less the evicted rows plus the new one.
  lemma UncleanedTable(db: Db, q: Request, u: UserId)
    requires Inv(db) && Enabled(db, q) && q.SignIn? && !q.cleaned && Credentials(db, q.email, q.password, u)
    ensures q.random !in db.tokens
    ensures var t' := Serve(db, q).db.tokens;
            && q.random in t' && t'[q.random].userId == u && t'[q.random].device == q.device
            && t'.Keys == db.tokens.Keys - Elements(TokensToRemove(q.answer)) + {q.random}
            && forall r :: r in t' && r != q.random ==> t'[r] == db.tokens[r]
  {
    SignInDecides(db, q, u);
    NewTokenIsNew(db, q.random);
    assert CleanedRows(db.tokens, u, q.device, false) == {};
  }

  lemma UncleanedOnDevice(t: Table, t': Table, u: UserId, device: Device, stored: TokenId, removed: set<TokenId>)
    requires OnePerDevice(t) && stored !in t && t'.Keys == t.Keys - removed + {stored}
    requires t'[stored].userId == u && t'[stored].device == device
    requires forall r :: r in t' && r != stored ==> t'[r] == t[r]
    ensures OnePerDevice(t') <==> DeviceRows(t, u, device) <= removed
  {
    if other :| other in DeviceRows(t, u, device) && other !in removed {
      assert other in t' && t'[other].device == t'[stored].device;
    }
  }

  lemma CleanSignInKeepsOnePerDevice(db: Db, db': Db, u: UserId, device: Device, nulls: NullPlacement, stored: TokenId)
    requires OnePerDevice(db.tokens) && SessionsReplaced(db, db', u, device, true, nulls, stored)
    ensures OnePerDevice(db'.tokens)
  {
    forall r | r in db'.tokens && db'.tokens[r].userId == u && db'.tokens[r].device == device
      ensures r == stored
    {
      assert r in DeviceRows(db'.tokens, u, device);
    }
  }

  lemma RotationOnDevice(db: Db, jwt: RefreshJwt, device: Device, random: TokenId)
    requires Inv(db) && OnePerDevice(db.tokens) && random !in db.tokens
    requires CheckRefresh(db, jwt) == Verified(jwt) && jwt.tokenId in db.tokens
    ensures OnePerDevice(DoRefresh(db, jwt, device, random).db.tokens) <==>
            DeviceRows(db.tokens, jwt.userId, device) <= {jwt.tokenId}
  {
    RefreshDecides(db, jwt, device, random);
    var t' := DoRefresh(db, jwt, device, random).db.tokens;
    if other :| other in DeviceRows(db.tokens, jwt.userId, device) && other != jwt.tokenId {
      assert other in t' && random in t' && t'[other].device == t'[random].device;
    }
  }

  // Over a whole run: one row per user and device, unless such a request was served.
  lemma {:induction false} OnePerDeviceUntilRefreshElsewhere(db: Db, qs: seq<Request>)
    requires Inv(db) && Run(db, qs) && OnePerDevice(db.tokens) && Never(db, qs, CrowdsDevice)
    ensures OnePerDevice(After(db, qs).tokens)
    decreases |qs|
  {
    if qs != [] {
      OnePerDeviceBreaksIff(db, qs[0]);
      RequestKeepsInv(db, qs[0]);
      OnePerDeviceUntilRefreshElsewhere(Serve(db, qs[0]).db, qs[1..]);
    }
  }

  // A sign-in from a new device while there is room.
  lemma RoomySignIn(db: Db, q: Request, id: UserId)
    requires AccountsSound(db) && q.SignIn? && Credentials(db, q.email, q.password, id) && Fresh(db, q.random)
    requires DeviceRows(db.tokens, id, q.device) == {} && |q.answer| < MAX_REFRESH_TOKENS_PER_USER
    requires AnswersActiveQuery(db.tokens, id, db.now, q.nulls, q.answer)
    ensures Enabled(db, q)
    ensures var minted := RefreshFor(id, q.random, db.now);
            Serve(db, q).db == db.(tokens := Create(db.tokens, minted, q.device, db.now),
                                   signed := db.signed + {AccessFor(id, db.users[id], db.now), minted})
  {
    SignInDecides(db, q, id);
    FoundByEmail(db, Lower(q.email));
    assert AfterDeviceCleanup(db.tokens, id, q.device, q.cleaned) == db.tokens;
    assert db.tokens - Elements(TokensToRemove(q.answer)) == db.tokens;
  }

  function Phone(): Device { Device("phone", "10.0.0.1") }

  function Laptop(): Device { Device("laptop", "10.0.0.2") }

  function OneAccount(): Db {
    Db(map[0 := User("a", Bcrypt("p"), None, CLIENT, true, true, None, 0)], 1, map[], map[], 0, false, {}, map[])
  }

  lemma OneAccountSeeded()
    ensures Seeded(OneAccount()) && Inv(OneAccount()) && Credentials(OneAccount(), "a", "p", 0)
  {
    assert Lower("a") == "a";
    SeededInv(OneAccount());
  }

  lemma FirstSignIn(q: Request, db: Db)
    requires q == SignIn("a", "p", Phone(), true, 1, NullsLast, []) && db == OneAccount()
    ensures Enabled(db, q)
    ensures Serve(db, q).db.users == db.users && Serve(db, q).db.now == 0
    ensures Serve(db, q).db.tokens == map[1 := Row(0, Bcrypt(RefreshFor(0, 1, 0)), Phone(), REFRESH_TOKEN_MILLISECONDS, 0, None)]
    ensures Serve(db, q).db.signed == {AccessFor(0, db.users[0], 0), RefreshFor(0, 1, 0)}
  {
    OneAccountSeeded();
    RoomySignIn(db, q, 0);
  }

  lemma OneRowAnswer(t: Table, id: TokenId)
    requires t.Keys == {id} && t[id].userId == 0 && t[id].expiresAt > 0
    ensures AnswersActiveQuery(t, 0, 0, NullsLast, [id])
  {
    ElementsAppend<TokenId>([], id);
    assert [] + [id] == [id] && Live(t, 0, 0) == {id};
  }

  lemma SecondSignIn(q: Request, db: Db)
    requires q == SignIn("a", "p", Laptop(), true, 2, NullsLast, [1])
    requires db.users == OneAccount().users && db.now == 0 && Inv(db)
    requires db.tokens == map[1 := Row(0, Bcrypt(RefreshFor(0, 1, 0)), Phone(), REFRESH_TOKEN_MILLISECONDS, 0, None)]
    requires db.signed == {AccessFor(0, db.users[0], 0), RefreshFor(0, 1, 0)}
    ensures Enabled(db, q)
    ensures var db' := Serve(db, q).db;
            && db'.now == 0 && db'.tokens.Keys == {1, 2} && RefreshFor(0, 2, 0) in db'.signed
            && db'.tokens[1].userId == 0 && db'.tokens[1].device == Phone()
            && db'.tokens[2].device == Laptop()
            && Fresh(db', 3)
  {
    OneAccountSeeded();
    OneRowAnswer(db.tokens, 1);
    RoomySignIn(db, q, 0);
  }

  // It does happen: sign in from two devices, then refresh the second session from the first device.
  lemma TwoRowsForOneDevice() returns (db: Db, qs: seq<Request>)
    ensures Seeded(db) && Run(db, qs) && !OnePerDevice(After(db, qs).tokens)
  {
    db := OneAccount();
    OneAccountSeeded();
    var first, second := SignIn("a", "p", Phone(), true, 1, NullsLast, []), SignIn("a", "p", Laptop(), true, 2, NullsLast, [1]);
    FirstSignIn(first, db);
    RequestKeepsInv(db, first);
    var db1 := Serve(db, first).db;
    SecondSignIn(second, db1);
    RequestKeepsInv(db1, second);
    var db2 := Serve(db1, second).db;
    var third := RefreshToken(RefreshFor(0, 2, 0), Phone(), 3);
    ThirdBreaks(db2, third);
    qs := [first, second, third];
    ThreeRequests(db, first, second, third);
  }

  lemma ThirdBreaks(db: Db, q: Request)
    requires Inv(db) && db.now == 0 && db.tokens.Keys == {1, 2} && RefreshFor(0, 2, 0) in db.signed && Fresh(db, 3)
    requires db.tokens[1].userId == 0 && db.tokens[1].device == Phone() && db.tokens[2].device == Laptop()
    requires q == RefreshToken(RefreshFor(0, 2, 0), Phone(), 3)
    ensures Enabled(db, q) && !OnePerDevice(Serve(db, q).db.tokens)
  {
    assert 1 in DeviceRows(db.tokens, 0, Phone());
    assert FromOccupiedDevice(db, q);
    assert OnePerDevice(db.tokens);
    OnePerDeviceBreaksIff(db, q);
  }

  lemma ThreeRequests(db: Db, a: Request, b: Request, c: Request)
    requires Enabled(db, a) && Enabled(Serve(db, a).db, b) && Enabled(Serve(Serve(db, a).db, b).db, c)
    ensures Run(db, [a, b, c]) && After(db, [a, b, c]) == Serve(Serve(Serve(db, a).db, b).db, c).db
  {
    var db1 := Serve(db, a).db;
    var db2 := Serve(db1, b).db;
    RunCons(db2, c, []);
    RunCons(db1, b, [c] + []);
    RunCons(db, a, [b] + ([c] + []));
    assert [a] + ([b] + ([c] + [])) == [a, b, c];
  }

  lemma RunCons(db: Db, q: Request, rest: seq<Request>)
    requires Enabled(db, q) && Run(Serve(db, q).db, rest)
    ensures Run(db, [q] + rest) && After(db, [q] + rest) == After(Serve(db, q).db, rest)
  {
    assert ([q] + rest)[1..] == rest;
  }
}
