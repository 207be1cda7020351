/**
 The two models of the session store agree: every run of atomic requests is one
 of the interleavings of their statements, the one in which each request finishes
 before the next starts.  What holds of every interleaving therefore holds of the
 atomic requests.
 */
module SerialRequests {
  import opened Wrappers
  import opened TokenConfig
  import opened RefreshTokenTable
  import opened AuthDb
  import opened AuthInvariant
  import Statements = SessionInterleaving

  type Sys = Statements.Sys
  type Event = Statements.Event

  // Nothing is in flight, and both models have the same rows, clock and tokens.
  ghost predicate Matches(db: Db, s: Sys) {
    && s.table == db.tokens && s.now == db.now && s.inFlight == map[]
    && (forall j: RefreshJwt :: j in s.signed <==> j in db.signed)
    && s.lineage.Keys == s.signed
  }

  // ---- runs one after the other ----------------------------------------------------------

  lemma {:induction false} RunsCompose(s: Sys, a: seq<Event>, b: seq<Event>)
    requires Statements.Run(s, a) && Statements.Run(Statements.After(s, a), b)
    ensures Statements.Run(s, a + b)
    ensures Statements.After(s, a + b) == Statements.After(Statements.After(s, a), b)
    decreases |a|
  {
    if a == [] {
      assert a + b == b;
    } else {
      RunsCompose(Statements.Step(s, a[0]), a[1..], b);
      assert (a + b)[0] == a[0] && (a + b)[1..] == a[1..] + b;
    }
  }

  lemma OneEvent(s: Sys, e: Event)
    requires Statements.Enabled(s, e)
    ensures Statements.Run(s, [e]) && Statements.After(s, [e]) == Statements.Step(s, e)
  {
    assert Statements.After(Statements.Step(s, e), [e][1..]) == Statements.Step(s, e);
  }

  lemma TwoEvents(s: Sys, a: Event, b: Event)
    requires Statements.Enabled(s, a) && Statements.Enabled(Statements.Step(s, a), b)
    ensures Statements.Run(s, [a, b]) && Statements.After(s, [a, b]) == Statements.Step(Statements.Step(s, a), b)
  {
    OneEvent(s, a);
    OneEvent(Statements.Step(s, a), b);
    RunsCompose(s, [a], [b]);
    assert [a] + [b] == [a, b];
  }

  // ---- sign-in ---------------------------------------------------------------------------------

  lemma DeviceStatements(s: Sys, u: UserId, device: Device, cleaned: bool) returns (es: seq<Event>)
    requires s.inFlight == map[0 := Statements.FindDevice(u, device)]
    ensures Statements.Run(s, es)
    ensures Statements.After(s, es) ==
            s.(inFlight := map[0 := Statements.FindActive(u, device)],
               table := AfterDeviceCleanup(s.table, u, device, cleaned))
  {
    var proceed := Statements.Proceed(0, NullsLast, [], 0);
    var ids := DeviceRows(s.table, u, device);
    assert s.table - {} == s.table;
    assert s.inFlight[0 := Statements.FindActive(u, device)] == map[0 := Statements.FindActive(u, device)];
    if !cleaned {
      var fails := Statements.DeviceCleanupFails(0);
      es := [fails];
      OneEvent(s, fails);
    } else if ids == {} {
      es := [proceed];
      OneEvent(s, proceed);
    } else {
      es := [proceed, proceed];
      TwoEvents(s, proceed, proceed);
      assert s.inFlight[0 := Statements.DeleteDevice(u, device, ids)] == map[0 := Statements.DeleteDevice(u, device, ids)];
      assert map[0 := Statements.DeleteDevice(u, device, ids)][0 := Statements.FindActive(u, device)]
          == map[0 := Statements.FindActive(u, device)];
    }
  }

  lemma LimitStatements(s: Sys, u: UserId, device: Device, nulls: NullPlacement, answer: seq<TokenId>) returns (es: seq<Event>)
    requires s.inFlight == map[0 := Statements.FindActive(u, device)]
    requires AnswersActiveQuery(s.table, u, s.now, nulls, answer)
    ensures Statements.Run(s, es)
    ensures Statements.After(s, es) ==
            s.(inFlight := map[0 := Statements.SignNew(u, device)], table := s.table - Elements(TokensToRemove(answer)))
  {
    var proceed := Statements.Proceed(0, nulls, answer, 0);
    var remove := TokensToRemove(answer);
    if remove == [] {
      es := [proceed];
      OneEvent(s, proceed);
      assert s.table - Elements(remove) == s.table;
      assert s.inFlight[0 := Statements.SignNew(u, device)] == map[0 := Statements.SignNew(u, device)];
    } else {
      es := [proceed, proceed];
      var ids := Elements(remove);
      TwoEvents(s, proceed, proceed);
      assert s.inFlight[0 := Statements.DeleteOldest(u, device, ids)] == map[0 := Statements.DeleteOldest(u, device, ids)];
      assert map[0 := Statements.DeleteOldest(u, device, ids)][0 := Statements.SignNew(u, device)]
          == map[0 := Statements.SignNew(u, device)];
    }
  }

  lemma StoreStatements(s: Sys, u: UserId, device: Device, random: TokenId) returns (es: seq<Event>)
    requires s.inFlight == map[0 := Statements.SignNew(u, device)] && Statements.Unused(s.signed, random)
    ensures Statements.Run(s, es)
    ensures var jwt := RefreshFor(u, random, s.now);
            Statements.After(s, es) ==
            s.(inFlight := map[], table := Create(s.table, jwt, device, s.now), signed := s.signed + {jwt},
               lineage := s.lineage[jwt := s.lineages], lineages := s.lineages + 1)
  {
    var proceed := Statements.Proceed(0, NullsLast, [], random);
    var jwt := RefreshFor(u, random, s.now);
    es := [proceed, proceed];
    TwoEvents(s, proceed, proceed);
    assert s.inFlight[0 := Statements.CreateRow(u, device, jwt)] == map[0 := Statements.CreateRow(u, device, jwt)];
    assert map[0 := Statements.CreateRow(u, device, jwt)] - {0} == map[];
  }

  lemma SignInStatements(db: Db, s: Sys, id: UserId, device: Device, cleaned: bool, random: TokenId, nulls: NullPlacement, answer: seq<TokenId>)
    returns (es: seq<Event>)
    requires Matches(db, s) && id in db.users && Fresh(db, random)
    requires AnswersActiveQuery(AfterDeviceCleanup(db.tokens, id, device, cleaned), id, db.now, nulls, answer)
    ensures Statements.Run(s, es)
    ensures Matches(GenerateTokenPair(db, id, device, cleaned, random, answer).db, Statements.After(s, es))
  {
    var start := Statements.StartSignIn(0, id, device);
    OneEvent(s, start);
    var s1 := Statements.Step(s, start);
    var cleanup := DeviceStatements(s1, id, device, cleaned);
    var s2 := Statements.After(s1, cleanup);
    var limit := LimitStatements(s2, id, device, nulls, answer);
    var s3 := Statements.After(s2, limit);
    var store := StoreStatements(s3, id, device, random);
    RunsCompose(s2, limit, store);
    RunsCompose(s1, cleanup, limit + store);
    RunsCompose(s, [start], cleanup + (limit + store));
    es := [start] + (cleanup + (limit + store));
  }

  // ---- refresh and logout ----------------------------------------------------------------------------

  lemma RefreshStatements(s: Sys, jwt: RefreshJwt, device: Device, random: TokenId) returns (es: seq<Event>)
    requires s.inFlight == map[] && s.lineage.Keys == s.signed && Statements.Verifies(s, jwt)
    requires Statements.Unused(s.signed, random)
    requires jwt.tokenId in s.table && s.table[jwt.tokenId].expiresAt >= s.now && s.table[jwt.tokenId].token == Bcrypt(jwt)
    ensures Statements.Run(s, es)
    ensures var u := s.table[jwt.tokenId].userId;
            var minted := RefreshFor(u, random, s.now);
            && Statements.After(s, es).table == Rotate(Touch(s.table, jwt.tokenId, device, s.now), jwt.tokenId, minted, device, s.now)
            && Statements.After(s, es).inFlight == map[] && Statements.After(s, es).now == s.now
            && Statements.After(s, es).signed == s.signed + {minted}
            && Statements.After(s, es).lineage.Keys == s.signed + {minted}
  {
    var u := s.table[jwt.tokenId].userId;
    var minted := RefreshFor(u, random, s.now);
    var start, proceed := Statements.StartRefresh(0, jwt, device), Statements.Proceed(0, NullsLast, [], random);
    TwoEvents(s, start, proceed);
    var s2 := Statements.After(s, [start, proceed]);
    assert s2 == s.(inFlight := map[0 := Statements.TouchToken(jwt, u, device)]);
    TwoEvents(s2, proceed, proceed);
    var s4 := Statements.After(s2, [proceed, proceed]);
    assert s4 == s.(table := Touch(s.table, jwt.tokenId, device, s.now), signed := s.signed + {minted},
                    inFlight := map[0 := Statements.RotateRow(jwt, u, device, minted)]);
    OneEvent(s4, proceed);
    assert s4.inFlight - {0} == map[];
    RunsCompose(s2, [proceed, proceed], [proceed]);
    RunsCompose(s, [start, proceed], [proceed, proceed] + [proceed]);
    es := [start, proceed] + ([proceed, proceed] + [proceed]);
  }

  lemma LogoutStatements(s: Sys, jwt: RefreshJwt) returns (es: seq<Event>)
    requires s.inFlight == map[] && s.lineage.Keys == s.signed && Statements.Verifies(s, jwt) && jwt.tokenId in s.table
    ensures Statements.Run(s, es)
    ensures Statements.After(s, es) == s.(table := s.table - {jwt.tokenId}, loggedOut := s.loggedOut + [jwt])
  {
    var start, proceed := Statements.StartLogout(0, jwt), Statements.Proceed(0, NullsLast, [], 0);
    TwoEvents(s, start, proceed);
    assert map[0 := Statements.DeleteToken(jwt)] - {0} == map[];
    es := [start, proceed];
  }

  // ---- deleting all rows of some users -------------------------------------------------------------------

  lemma {:induction false} RevokeStatements(s: Sys, gone: set<UserId>) returns (es: seq<Event>)
    ensures Statements.Run(s, es)
    ensures Statements.After(s, es) == s.(table := map id | id in s.table && s.table[id].userId !in gone :: s.table[id])
    decreases |gone|
  {
    if gone == {} {
      es := [];
      assert s.table == map id | id in s.table && s.table[id].userId !in gone :: s.table[id];
    } else {
      var u :| u in gone;
      var revoke := Statements.RevokeUser(u);
      OneEvent(s, revoke);
      var rest := RevokeStatements(Statements.Step(s, revoke), gone - {u});
      RunsCompose(s, [revoke], rest);
      es := [revoke] + rest;
    }
  }

  // Requests that delete all rows of some users and no other.
  ghost predicate DeletesRowsOf(db: Db, db': Db, gone: set<UserId>) {
    && db'.now == db.now && db'.signed == db.signed
    && db'.tokens == map id | id in db.tokens && db.tokens[id].userId !in gone :: db.tokens[id]
  }

  lemma DeletionStatements(db: Db, s: Sys, db': Db, gone: set<UserId>) returns (es: seq<Event>)
    requires Matches(db, s) && DeletesRowsOf(db, db', gone)
    ensures Statements.Run(s, es) && Matches(db', Statements.After(s, es))
  {
    es := RevokeStatements(s, gone);
  }

  lemma NobodyGone(db: Db, db': Db)
    requires db'.now == db.now && db'.signed == db.signed && db'.tokens == db.tokens
    ensures DeletesRowsOf(db, db', {})
  {
    assert db.tokens == map id | id in db.tokens && db.tokens[id].userId !in {} :: db.tokens[id];
  }

  // Whose rows a request on accounts deletes.
  ghost predicate OnAccounts(q: Request) {
    q.Register? || q.VerifyEmail? || q.UpdateUser? || q.LogoutAll? || q.SoftDelete? || q.HardDelete? || q.CleanupUnverifiedUsers?
  }

  lemma PrivilegedDeletes(db: Db, q: Request) returns (gone: set<UserId>)
    requires q.LogoutAll? || q.SoftDelete? || q.HardDelete?
    ensures DeletesRowsOf(db, Serve(db, q).db, gone)
  {
    if Serve(db, q).outcome.Failed? {
      gone := {};
      NobodyGone(db, Serve(db, q).db);
    } else {
      gone := {q.target};
    }
  }

  lemma RegisterDeletes(db: Db, q: Request) returns (gone: set<UserId>)
    requires AccountsSound(db) && q.Register?
    ensures DeletesRowsOf(db, Serve(db, q).db, gone)
  {
    FoundByEmail(db, Lower(q.email));
    match UserByEmail(db.users, Lower(q.email))
    case None =>
      gone := {};
      NobodyGone(db, Serve(db, q).db);
    case Some(id) =>
      if RegistrationLapsed(db.users[id], db.now) {
        gone := {id};
      } else {
        gone := {};
        NobodyGone(db, Serve(db, q).db);
      }
  }

  lemma RequestDeletes(db: Db, q: Request) returns (gone: set<UserId>)
    requires AccountsSound(db) && OnAccounts(q)
    ensures DeletesRowsOf(db, Serve(db, q).db, gone)
  {
    if q.Register? {
      gone := RegisterDeletes(db, q);
    } else if q.CleanupUnverifiedUsers? {
      gone := Lapsed(db);
    } else if q.VerifyEmail? || q.UpdateUser? {
      gone := {};
      NobodyGone(db, Serve(db, q).db);
    } else {
      gone := PrivilegedDeletes(db, q);
    }
  }

  // ---- every request, every run ----------------------------------------------------------------------------

  lemma RefreshIsSerial(db: Db, s: Sys, q: Request) returns (es: seq<Event>)
    requires Inv(db) && Enabled(db, q) && Matches(db, s) && q.RefreshToken?
    ensures Statements.Run(s, es) && Matches(Serve(db, q).db, Statements.After(s, es))
  {
    RefusedRefreshChangesNothing(db, q);
    if CheckRefresh(db, q.presented).Verified? && q.presented.tokenId in db.tokens {
      VerifiedRowMatches(db, q.presented);
      es := RefreshStatements(s, q.presented, q.device, q.random);
    } else {
      es := [];
    }
  }

  lemma RefusedRefreshChangesNothing(db: Db, q: Request)
    requires q.RefreshToken?
    ensures !(CheckRefresh(db, q.presented).Verified? && q.presented.tokenId in db.tokens) ==> Serve(db, q).db == db
  {
  }

  lemma SignInIsSerial(db: Db, s: Sys, q: Request) returns (es: seq<Event>)
    requires Inv(db) && Enabled(db, q) && Matches(db, s) && q.SignIn?
    ensures Statements.Run(s, es) && Matches(Serve(db, q).db, Statements.After(s, es))
  {
    FoundByEmail(db, Lower(q.email));
    if Serve(db, q).outcome.Tokens? {
      var id := UserByEmail(db.users, Lower(q.email)).value;
      es := SignInStatements(db, s, id, q.device, q.cleaned, q.random, q.nulls, q.answer);
    } else {
      es := [];
    }
  }

  lemma LogoutIsSerial(db: Db, s: Sys, q: Request) returns (es: seq<Event>)
    requires Inv(db) && Matches(db, s) && q.Logout?
    ensures Statements.Run(s, es) && Matches(Serve(db, q).db, Statements.After(s, es))
  {
    if CheckRefresh(db, q.presented).Verified? && q.presented.tokenId in db.tokens {
      es := LogoutStatements(s, q.presented);
    } else {
      es := [];
    }
  }

  lemma SweepIsSerial(db: Db, s: Sys, q: Request, e: Event)
    requires Matches(db, s)
    requires || (q.CleanupExpiredTokens? && e.SweepExpired?)
             || (q.CleanupUnusedTokens? && e.SweepUnused?)
             || (q.Tick? && e == Statements.Tick(q.ms))
    ensures Statements.Run(s, [e]) && Matches(Serve(db, q).db, Statements.After(s, [e]))
  {
    OneEvent(s, e);
  }

  lemma RequestIsSerial(db: Db, s: Sys, q: Request) returns (es: seq<Event>)
    requires Inv(db) && Enabled(db, q) && Matches(db, s)
    ensures Statements.Run(s, es) && Matches(Serve(db, q).db, Statements.After(s, es))
  {
    if q.SignIn? {
      es := SignInIsSerial(db, s, q);
    } else if q.RefreshToken? {
      es := RefreshIsSerial(db, s, q);
    } else if q.Logout? {
      es := LogoutIsSerial(db, s, q);
    } else if OnAccounts(q) {
      var gone := RequestDeletes(db, q);
      es := DeletionStatements(db, s, Serve(db, q).db, gone);
    } else {
      var e := if q.CleanupExpiredTokens? then Statements.SweepExpired
               else if q.CleanupUnusedTokens? then Statements.SweepUnused else Statements.Tick(q.ms);
      SweepIsSerial(db, s, q, e);
      es := [e];
    }
  }

  lemma {:induction false} RunIsSerial(db: Db, s: Sys, qs: seq<Request>) returns (es: seq<Event>)
    requires Inv(db) && Run(db, qs) && Matches(db, s)
    ensures Statements.Run(s, es) && Matches(After(db, qs), Statements.After(s, es))
    decreases |qs|
  {
    if qs == [] {
      es := [];
    } else {
      var first := RequestIsSerial(db, s, qs[0]);
      RequestKeepsInv(db, qs[0]);
      var rest := RunIsSerial(Serve(db, qs[0]).db, Statements.After(s, first), qs[1..]);
      RunsCompose(s, first, rest);
      es := first + rest;
    }
  }

  // From a seeded database: a statement-level run from the initial store reaches the
  // same rows, clock and tokens.
  lemma AtomicRequestsRefineStatements(db: Db, qs: seq<Request>) returns (es: seq<Event>)
    requires Seeded(db) && Run(db, qs)
    ensures Statements.Run(Statements.INIT, es)
    ensures Matches(After(db, qs), Statements.After(Statements.INIT, es))
  {
    SeededInv(db);
    var wait := Statements.Tick(db.now);
    OneEvent(Statements.INIT, wait);
    var rest := RunIsSerial(db, Statements.Step(Statements.INIT, wait), qs);
    RunsCompose(Statements.INIT, [wait], rest);
    es := [wait] + rest;
  }
}
