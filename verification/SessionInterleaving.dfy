/**
 The session store with one database statement as one atomic step and any number
 of requests in flight.  A request is the statement it is about to execute; every
 statement reads the clock when it executes.
 */
module SessionInterleaving {
  import opened Wrappers
  import opened TokenConfig
  import opened RefreshTokenTable

  type RequestId = nat

  datatype Phase =
    // signIn, after the password check: generateTokenPair
    | FindDevice(user: UserId, device: Device)
    | DeleteDevice(user: UserId, device: Device, ids: set<TokenId>)
    | FindActive(user: UserId, device: Device)
    | DeleteOldest(user: UserId, device: Device, ids: set<TokenId>)
    | SignNew(user: UserId, device: Device)
    | CreateRow(user: UserId, device: Device, minted: RefreshJwt)
    // refreshToken, after the signature check
    | FindToken(presented: RefreshJwt, device: Device)
    | DeleteExpiredToken(presented: RefreshJwt)
    | RevokeAll(presented: RefreshJwt, user: UserId)
    | TouchToken(presented: RefreshJwt, user: UserId, device: Device)
    | SignRotated(presented: RefreshJwt, user: UserId, device: Device)
    | RotateRow(presented: RefreshJwt, user: UserId, device: Device, minted: RefreshJwt)
    // revokeRefreshToken, after the signature check
    | DeleteToken(presented: RefreshJwt)

  datatype Sys = Sys(
    table: Table,
    now: nat,
    signed: set<RefreshJwt>,               // every refresh token the service ever signed
    inFlight: map<RequestId, Phase>,
    refreshed: seq<RefreshJwt>,            // tokens presented in refreshes that succeeded
    loggedOut: seq<RefreshJwt>,            // tokens presented in logouts that succeeded
    lineage: map<RefreshJwt, nat>,  // tokens handed to a client -> the rotation chain each belongs to
    lineages: nat)                  // how many chains were ever started

  predicate HasMinted(p: Phase) {
    p.CreateRow? || p.RotateRow?
  }

  const INIT := Sys(map[], 0, {}, map[], [], [], map[], 0)

  datatype Event =
    | Tick(ms: nat)
    | StartSignIn(r: RequestId, user: UserId, device: Device)
    | StartRefresh(r: RequestId, jwt: Jwt, device: Device)
    | StartLogout(r: RequestId, jwt: Jwt)
    // One deleteMany on user_id: logout-all, and what soft and hard deletion do to this table.
    | RevokeUser(user: UserId)
    | SweepExpired
    | SweepUnused
    // Request r executes its next statement; the database's list order, where it
    // puts nulls, and the random bytes are the environment's choice.
    | Proceed(r: RequestId, nulls: NullPlacement, answer: seq<TokenId>, random: TokenId)
    // A statement of the device clean-up fails; the error is logged and the sign-in goes on.
    | DeviceCleanupFails(r: RequestId)
    // Request r dies: a lost connection, a foreign-key error, a crash.
    | Abort(r: RequestId)

  ghost predicate Unused(signed: set<RefreshJwt>, id: TokenId) {
    forall j :: j in signed ==> j.tokenId != id
  }

  ghost predicate Enabled(s: Sys, e: Event) {
    match e
    case StartSignIn(r, _, _) => r !in s.inFlight
    // Clients present what they were handed, or something the service never signed.
    case StartRefresh(r, jwt, _) => r !in s.inFlight && (jwt in s.signed ==> jwt in s.lineage)
    case StartLogout(r, jwt) => r !in s.inFlight && (jwt in s.signed ==> jwt in s.lineage)
    case Abort(r) => r in s.inFlight
    case DeviceCleanupFails(r) => r in s.inFlight && CleansDevice(s.inFlight[r])
    case Proceed(r, nulls, answer, random) =>
      && r in s.inFlight
      && (s.inFlight[r].FindActive? ==> AnswersActiveQuery(s.table, s.inFlight[r].user, s.now, nulls, answer))
      && (s.inFlight[r].SignNew? || s.inFlight[r].SignRotated? ==> Unused(s.signed, random))
    case _ => true
  }

  // verifyRefreshToken: signed by the service, a refresh token, not expired.
  predicate Verifies(s: Sys, jwt: Jwt) {
    jwt.Refresh? && jwt in s.signed && Unexpired(jwt, s.now)
  }

  function Finish(s: Sys, r: RequestId): Sys {
    s.(inFlight := s.inFlight - {r})
  }

  function Goto(s: Sys, r: RequestId, p: Phase): Sys {
    s.(inFlight := s.inFlight[r := p])
  }

  function Mint(s: Sys, user: UserId, random: TokenId): RefreshJwt {
    Refresh(user, random, ExpiryClaim(s.now, REFRESH_TOKEN_SECONDS))
  }

  // The rotation chain of a token; every token of a reachable table has one.
  function LineageOf(s: Sys, jwt: RefreshJwt): nat {
    if jwt in s.lineage then s.lineage[jwt] else 0
  }

  // ---- the statements that do more than delete rows ----------------------------

  function SignStatement(s: Sys, r: RequestId, next: Phase): Sys
    requires HasMinted(next)
  {
    Goto(s, r, next).(signed := s.signed + {next.minted})
  }

  function CreateStatement(s: Sys, r: RequestId, jwt: RefreshJwt, d: Device): Sys {
    Finish(s, r).(
      table := Create(s.table, jwt, d, s.now),
      lineage := s.lineage[jwt := s.lineages],
      lineages := s.lineages + 1)
  }

  function TouchStatement(s: Sys, r: RequestId, jwt: RefreshJwt, u: UserId, d: Device): Sys
    requires jwt.tokenId in s.table
  {
    Goto(s, r, SignRotated(jwt, u, d)).(table := Touch(s.table, jwt.tokenId, d, s.now))
  }

  function RotateStatement(s: Sys, r: RequestId, jwt: RefreshJwt, minted: RefreshJwt, d: Device): Sys
    requires jwt.tokenId in s.table
  {
    Finish(s, r).(
      table := Rotate(s.table, jwt.tokenId, minted, d, s.now),
      refreshed := s.refreshed + [jwt],
      lineage := s.lineage[minted := LineageOf(s, jwt)])
  }

  function LogoutStatement(s: Sys, r: RequestId, jwt: RefreshJwt): Sys {
    Finish(s, r).(table := s.table - {jwt.tokenId}, loggedOut := s.loggedOut + [jwt])
  }

  // ---- one step -----------------------------------------------------------------

  function ProceedSignIn(s: Sys, r: RequestId, answer: seq<TokenId>, random: TokenId): Sys
    requires r in s.inFlight
  {
    match s.inFlight[r]
    case FindDevice(u, d) =>
      var ids := DeviceRows(s.table, u, d);
      Goto(s, r, if ids == {} then FindActive(u, d) else DeleteDevice(u, d, ids))
    case DeleteDevice(u, d, ids) =>
      Goto(s, r, FindActive(u, d)).(table := s.table - ids)
    case FindActive(u, d) =>
      var remove := TokensToRemove(answer);
      Goto(s, r, if remove == [] then SignNew(u, d) else DeleteOldest(u, d, Elements(remove)))
    case DeleteOldest(u, d, ids) =>
      Goto(s, r, SignNew(u, d)).(table := s.table - ids)
    case SignNew(u, d) =>
      SignStatement(s, r, CreateRow(u, d, Mint(s, u, random)))
    case CreateRow(u, d, jwt) =>
      CreateStatement(s, r, jwt, d)
    case _ => s
  }

  function ProceedRefresh(s: Sys, r: RequestId, random: TokenId): Sys
    requires r in s.inFlight
  {
    match s.inFlight[r]
    case FindToken(jwt, d) =>
      if jwt.tokenId !in s.table then Finish(s, r)
      else
        var row := s.table[jwt.tokenId];
        if row.expiresAt < s.now then Goto(s, r, DeleteExpiredToken(jwt))
        else if row.token != Bcrypt(jwt) then Goto(s, r, RevokeAll(jwt, row.userId))
        else Goto(s, r, TouchToken(jwt, row.userId, d))
    case DeleteExpiredToken(jwt) =>
      Finish(s, r).(table := s.table - {jwt.tokenId})
    case RevokeAll(_, u) =>
      Finish(s, r).(table := DeleteOfUser(s.table, u))
    case TouchToken(jwt, u, d) =>
      if jwt.tokenId in s.table then TouchStatement(s, r, jwt, u, d) else Finish(s, r)
    case SignRotated(jwt, u, d) =>
      SignStatement(s, r, RotateRow(jwt, u, d, Mint(s, u, random)))
    case RotateRow(jwt, u, d, minted) =>
      if jwt.tokenId in s.table then RotateStatement(s, r, jwt, minted, d) else Finish(s, r)
    case _ => s
  }

  function ProceedLogout(s: Sys, r: RequestId): Sys
    requires r in s.inFlight
  {
    match s.inFlight[r]
    case DeleteToken(jwt) =>
      if jwt.tokenId in s.table then LogoutStatement(s, r, jwt) else Finish(s, r)
    case _ => s
  }

  function Step(s: Sys, e: Event): Sys {
    match e
    case Tick(ms) => s.(now := s.now + ms)
    case StartSignIn(r, u, d) => Goto(s, r, FindDevice(u, d))
    case StartRefresh(r, jwt, d) => if Verifies(s, jwt) then Goto(s, r, FindToken(jwt, d)) else s
    case StartLogout(r, jwt) => if Verifies(s, jwt) then Goto(s, r, DeleteToken(jwt)) else s
    case RevokeUser(u) => s.(table := DeleteOfUser(s.table, u))
    case SweepExpired => s.(table := DeleteExpired(s.table, s.now))
    case SweepUnused => s.(table := DeleteUnused(s.table, s.now, REFRESH_TOKEN_DAYS))
    case Proceed(r, _, answer, random) =>
      if r !in s.inFlight then s
      else if OfSignIn(s.inFlight[r]) then ProceedSignIn(s, r, answer, random)
      else if s.inFlight[r].DeleteToken? then ProceedLogout(s, r)
      else ProceedRefresh(s, r, random)
    case DeviceCleanupFails(r) =>
      if r in s.inFlight && CleansDevice(s.inFlight[r])
      then Goto(s, r, FindActive(s.inFlight[r].user, s.inFlight[r].device)) else s
    case Abort(r) => Finish(s, r)
  }

  predicate CleansDevice(p: Phase) {
    p.FindDevice? || p.DeleteDevice?
  }

  predicate OfSignIn(p: Phase) {
    p.FindDevice? || p.DeleteDevice? || p.FindActive? || p.DeleteOldest? || p.SignNew? || p.CreateRow?
  }

  predicate OfRefresh(p: Phase) {
    p.FindToken? || p.DeleteExpiredToken? || p.RevokeAll? || p.TouchToken? || p.SignRotated? || p.RotateRow?
  }

  // ---- runs -----------------------------------------------------------------

  ghost predicate Run(s: Sys, es: seq<Event>)
    decreases |es|
  {
    es == [] || (Enabled(s, es[0]) && Run(Step(s, es[0]), es[1..]))
  }

  function After(s: Sys, es: seq<Event>): Sys
    decreases |es|
  {
    if es == [] then s else After(Step(s, es[0]), es[1..])
  }

  // ---- what every step keeps ---------------------------------------------------

  // The row's hash is that of the one token carrying its id, and the token's claim
  // ends no later than the row.
  ghost predicate RowAgrees(s: Sys, id: TokenId)
    requires id in s.table
  {
    var row := s.table[id];
    && row.token.of == Refresh(row.userId, id, row.token.of.exp)
    && row.token.of in s.lineage
    && row.token.of.exp * 1000 <= row.expiresAt <= LastUse(row) + REFRESH_TOKEN_MILLISECONDS
    && LastUse(row) <= s.now
  }

  ghost predicate RowsAgree(s: Sys) {
    forall id :: id in s.table ==> RowAgrees(s, id)
  }

  ghost predicate SignedOnce(s: Sys) {
    && (forall j, k :: j in s.signed && k in s.signed && j.tokenId == k.tokenId ==> j == k)
    && (forall j :: j in s.lineage ==> j in s.signed)
  }

  ghost predicate MintedPending(s: Sys) {
    && (forall r :: r in s.inFlight && HasMinted(s.inFlight[r]) ==>
          && s.inFlight[r].minted in s.signed && s.inFlight[r].minted !in s.lineage
          && s.inFlight[r].minted.userId == s.inFlight[r].user
          && s.inFlight[r].minted.exp <= ExpiryClaim(s.now, REFRESH_TOKEN_SECONDS))
    && (forall r, q | r in s.inFlight && q in s.inFlight && r != q && HasMinted(s.inFlight[r]) && HasMinted(s.inFlight[q]) ::
          s.inFlight[r].minted != s.inFlight[q].minted)
  }

  predicate HasPresented(p: Phase) {
    OfRefresh(p) || p.DeleteToken?
  }

  // A request carries a token that was handed out, acts for the user of that token,
  // and never raises the token-theft alarm.
  ghost predicate Consistent(s: Sys, p: Phase) {
    HasPresented(p) ==>
      && p.presented in s.lineage
      && (HasRowUser(p) ==> p.user == p.presented.userId)
      && !p.RevokeAll?
  }

  ghost predicate PresentedDelivered(s: Sys) {
    forall r :: r in s.inFlight ==> Consistent(s, s.inFlight[r])
  }

  predicate HasRowUser(p: Phase) {
    p.TouchToken? || p.SignRotated? || p.RotateRow?
  }

  // How often a token has been consumed, by a refresh or by a logout.
  function TimesSpent(s: Sys, jwt: RefreshJwt): nat {
    multiset(s.refreshed)[jwt] + multiset(s.loggedOut)[jwt]
  }

  ghost predicate SpentOnce(s: Sys) {
    forall j: RefreshJwt :: TimesSpent(s, j) > 0 ==>
      TimesSpent(s, j) == 1 && j in s.lineage && j.tokenId !in s.table
  }

  ghost predicate Lineages(s: Sys) {
    && (forall j :: j in s.lineage ==> s.lineage[j] < s.lineages)
    && (forall a, b :: a in s.table && b in s.table && a != b ==>
          LineageOf(s, s.table[a].token.of) != LineageOf(s, s.table[b].token.of))
  }

  ghost predicate Inv(s: Sys) {
    RowsAgree(s) && SignedOnce(s) && MintedPending(s) && PresentedDelivered(s) && SpentOnce(s) && Lineages(s)
  }

  // ---- steps that at most delete rows ----------------------------------------------

  // Time passes, rows go, requests come, go and move on; nothing is signed, stored or spent.
  ghost predicate OnlyDeletes(s: Sys, s': Sys) {
    && s.now <= s'.now
    && (forall id :: id in s'.table ==> id in s.table && s'.table[id] == s.table[id])
    && s'.signed == s.signed && s'.lineage == s.lineage && s'.lineages == s.lineages
    && s'.refreshed == s.refreshed && s'.loggedOut == s.loggedOut
    && (forall r :: r in s'.inFlight ==>
          || (r in s.inFlight && s'.inFlight[r] == s.inFlight[r])
          || (!HasMinted(s'.inFlight[r]) && Consistent(s', s'.inFlight[r])))
  }

  // The five kinds of step that are not like that.
  predicate Signs(s: Sys, e: Event) {
    e.Proceed? && e.r in s.inFlight && (s.inFlight[e.r].SignNew? || s.inFlight[e.r].SignRotated?)
  }

  predicate Creates(s: Sys, e: Event) {
    e.Proceed? && e.r in s.inFlight && s.inFlight[e.r].CreateRow?
  }

  predicate Touches(s: Sys, e: Event) {
    e.Proceed? && e.r in s.inFlight && s.inFlight[e.r].TouchToken? && s.inFlight[e.r].presented.tokenId in s.table
  }

  predicate Rotates(s: Sys, e: Event) {
    e.Proceed? && e.r in s.inFlight && s.inFlight[e.r].RotateRow? && s.inFlight[e.r].presented.tokenId in s.table
  }

  predicate LogsOut(s: Sys, e: Event) {
    e.Proceed? && e.r in s.inFlight && s.inFlight[e.r].DeleteToken? && s.inFlight[e.r].presented.tokenId in s.table
  }

  predicate Quiet(s: Sys, e: Event) {
    !Signs(s, e) && !Creates(s, e) && !Touches(s, e) && !Rotates(s, e) && !LogsOut(s, e)
  }

  lemma QuietSignInOnlyDeletes(s: Sys, r: RequestId, answer: seq<TokenId>, random: TokenId)
    requires r in s.inFlight && OfSignIn(s.inFlight[r])
    requires !s.inFlight[r].SignNew? && !s.inFlight[r].CreateRow?
    ensures OnlyDeletes(s, ProceedSignIn(s, r, answer, random))
  {
  }

  lemma QuietRefreshOnlyDeletes(s: Sys, r: RequestId, random: TokenId)
    requires RowsAgree(s) && SignedOnce(s) && PresentedDelivered(s)
    requires r in s.inFlight && OfRefresh(s.inFlight[r])
    requires !s.inFlight[r].SignRotated?
    requires s.inFlight[r].TouchToken? || s.inFlight[r].RotateRow? ==> s.inFlight[r].presented.tokenId !in s.table
    ensures OnlyDeletes(s, ProceedRefresh(s, r, random))
  {
    var jwt := s.inFlight[r].presented;
    if jwt.tokenId in s.table {
      assert RowAgrees(s, jwt.tokenId);
    }
  }

  lemma OutsideOnlyDeletes(s: Sys, e: Event)
    requires SignedOnce(s) && Enabled(s, e) && !e.Proceed?
    ensures OnlyDeletes(s, Step(s, e))
  {
  }

  lemma QuietOnlyDeletes(s: Sys, e: Event)
    requires RowsAgree(s) && SignedOnce(s) && PresentedDelivered(s)
    requires Enabled(s, e) && Quiet(s, e)
    ensures OnlyDeletes(s, Step(s, e))
  {
    if !e.Proceed? {
      OutsideOnlyDeletes(s, e);
    } else if OfSignIn(s.inFlight[e.r]) {
      QuietSignInOnlyDeletes(s, e.r, e.answer, e.random);
    } else if OfRefresh(s.inFlight[e.r]) {
      QuietRefreshOnlyDeletes(s, e.r, e.random);
    }
  }

  lemma OnlyDeletesKeepsRows(s: Sys, s': Sys)
    requires RowsAgree(s) && Lineages(s) && OnlyDeletes(s, s')
    ensures RowsAgree(s') && Lineages(s')
  {
    SameRowsAgree(s, s');
  }

  lemma OnlyDeletesKeepsRequests(s: Sys, s': Sys)
    requires SignedOnce(s) && MintedPending(s) && PresentedDelivered(s) && OnlyDeletes(s, s')
    ensures SignedOnce(s') && MintedPending(s') && PresentedDelivered(s')
  {
  }

  lemma OnlyDeletesKeepsInv(s: Sys, s': Sys)
    requires Inv(s) && OnlyDeletes(s, s')
    ensures Inv(s')
  {
    OnlyDeletesKeepsRows(s, s');
    OnlyDeletesKeepsRequests(s, s');
    SameHistory(s, s');
  }

  // ---- the other five -----------------------------------------------------------------

  lemma SameRowsAgree(s: Sys, s': Sys)
    requires RowsAgree(s) && (forall j :: j in s.lineage ==> j in s'.lineage) && s.now <= s'.now
    requires forall id :: id in s'.table ==> (id in s.table && s'.table[id] == s.table[id])
                                             || RowAgrees(s', id)
    ensures RowsAgree(s')
  {
    forall id | id in s'.table
      ensures RowAgrees(s', id)
    {
      if id in s.table {
        assert RowAgrees(s, id);
      }
    }
  }

  lemma SignKeepsMintedPending(s: Sys, r: RequestId, next: Phase)
    requires SignedOnce(s) && MintedPending(s) && HasMinted(next)
    requires Unused(s.signed, next.minted.tokenId)
    requires next.minted == Mint(s, next.user, next.minted.tokenId)
    ensures MintedPending(SignStatement(s, r, next))
  {
  }

  lemma SignKeepsInv(s: Sys, r: RequestId, next: Phase)
    requires Inv(s) && HasMinted(next)
    requires Unused(s.signed, next.minted.tokenId)
    requires next.minted == Mint(s, next.user, next.minted.tokenId)
    requires Consistent(s, next)
    ensures Inv(SignStatement(s, r, next))
  {
    var s' := SignStatement(s, r, next);
    SignKeepsMintedPending(s, r, next);
    SignKeepsSignedOnce(s, s', next.minted);
    SameHistory(s, s');
    SameRowsAgree(s, s');
  }

  lemma SignKeepsSignedOnce(s: Sys, s': Sys, minted: RefreshJwt)
    requires SignedOnce(s) && Unused(s.signed, minted.tokenId)
    requires s'.signed == s.signed + {minted} && s'.lineage == s.lineage
    ensures SignedOnce(s')
  {
  }

  lemma SameHistory(s: Sys, s': Sys)
    requires SpentOnce(s) && s'.refreshed == s.refreshed && s'.loggedOut == s.loggedOut
    requires (forall j :: j in s.lineage ==> j in s'.lineage)
    requires forall j: RefreshJwt :: TimesSpent(s, j) > 0 ==> j.tokenId !in s'.table
    ensures SpentOnce(s')
  {
    assert forall j: RefreshJwt :: TimesSpent(s', j) == TimesSpent(s, j);
  }

  // A token waiting to be stored is new to the table and to the clients.
  lemma MintedIsNew(s: Sys, r: RequestId)
    requires RowsAgree(s) && SignedOnce(s) && MintedPending(s)
    requires r in s.inFlight && HasMinted(s.inFlight[r])
    ensures s.inFlight[r].minted.tokenId !in s.table
    ensures forall j :: j in s.lineage ==> j.tokenId != s.inFlight[r].minted.tokenId
  {
    assert forall id :: id in s.table ==> RowAgrees(s, id);
  }

  // Handing a stored token out leaves what is known of the other requests.
  lemma DeliverKeepsRequests(s: Sys, s': Sys, r: RequestId)
    requires SignedOnce(s) && MintedPending(s) && PresentedDelivered(s)
    requires r in s.inFlight && HasMinted(s.inFlight[r])
    requires s'.inFlight == s.inFlight - {r} && s'.signed == s.signed && s'.now == s.now
    requires s'.lineage.Keys == s.lineage.Keys + {s.inFlight[r].minted}
    ensures SignedOnce(s') && MintedPending(s') && PresentedDelivered(s')
  {
  }

  lemma CreateKeepsLineages(s: Sys, r: RequestId)
    requires RowsAgree(s) && SignedOnce(s) && MintedPending(s) && Lineages(s)
    requires r in s.inFlight && s.inFlight[r].CreateRow?
    ensures Lineages(CreateStatement(s, r, s.inFlight[r].minted, s.inFlight[r].device))
  {
    var s' := CreateStatement(s, r, s.inFlight[r].minted, s.inFlight[r].device);
    forall id | id in s'.table && id in s.table && id != s.inFlight[r].minted.tokenId
      ensures LineageOf(s', s'.table[id].token.of) == LineageOf(s, s.table[id].token.of) < s.lineages
    {
      assert RowAgrees(s, id);
    }
  }

  lemma CreateKeepsInv(s: Sys, r: RequestId)
    requires Inv(s) && r in s.inFlight && s.inFlight[r].CreateRow?
    ensures Inv(CreateStatement(s, r, s.inFlight[r].minted, s.inFlight[r].device))
  {
    var jwt := s.inFlight[r].minted;
    var s' := CreateStatement(s, r, jwt, s.inFlight[r].device);
    MintedIsNew(s, r);
    DeliverKeepsRequests(s, s', r);
    CreateKeepsLineages(s, r);
    SameHistory(s, s');
    assert RowAgrees(s', jwt.tokenId);
    SameRowsAgree(s, s');
  }

  lemma TouchKeepsRows(s: Sys, r: RequestId)
    requires RowsAgree(s) && Lineages(s) && r in s.inFlight && s.inFlight[r].TouchToken? && s.inFlight[r].presented.tokenId in s.table
    ensures var s' := TouchStatement(s, r, s.inFlight[r].presented, s.inFlight[r].user, s.inFlight[r].device);
            RowsAgree(s') && Lineages(s')
  {
    var id := s.inFlight[r].presented.tokenId;
    var s' := TouchStatement(s, r, s.inFlight[r].presented, s.inFlight[r].user, s.inFlight[r].device);
    assert RowAgrees(s, id);
    assert RowAgrees(s', id);
    SameRowsAgree(s, s');
  }

  // A request that moves on with nothing minted, consistent as before.
  lemma MoveKeepsRequests(s: Sys, s': Sys, r: RequestId, next: Phase)
    requires SignedOnce(s) && MintedPending(s) && PresentedDelivered(s)
    requires s'.inFlight == s.inFlight[r := next] && s'.signed == s.signed && s'.lineage == s.lineage && s'.now == s.now
    requires !HasMinted(next) && Consistent(s, next)
    ensures SignedOnce(s') && MintedPending(s') && PresentedDelivered(s')
  {
  }

  lemma TouchKeepsHistory(s: Sys, s': Sys)
    requires SpentOnce(s) && s'.refreshed == s.refreshed && s'.loggedOut == s.loggedOut
    requires s'.lineage == s.lineage && s'.table.Keys == s.table.Keys
    ensures SpentOnce(s')
  {
    SameHistory(s, s');
  }

  lemma TouchKeepsInv(s: Sys, r: RequestId)
    requires Inv(s) && r in s.inFlight && s.inFlight[r].TouchToken? && s.inFlight[r].presented.tokenId in s.table
    ensures Inv(TouchStatement(s, r, s.inFlight[r].presented, s.inFlight[r].user, s.inFlight[r].device))
  {
    var p := s.inFlight[r];
    var s' := TouchStatement(s, r, p.presented, p.user, p.device);
    TouchKeepsRows(s, r);
    MoveKeepsRequests(s, s', r, SignRotated(p.presented, p.user, p.device));
    TouchKeepsHistory(s, s');
  }

  lemma RotateKeepsLineages(s: Sys, r: RequestId)
    requires RowsAgree(s) && SignedOnce(s) && MintedPending(s) && PresentedDelivered(s) && Lineages(s)
    requires r in s.inFlight && s.inFlight[r].RotateRow? && s.inFlight[r].presented.tokenId in s.table
    ensures Lineages(RotateStatement(s, r, s.inFlight[r].presented, s.inFlight[r].minted, s.inFlight[r].device))
  {
    assert forall id :: id in s.table ==> RowAgrees(s, id);
  }

  lemma RotateKeepsRows(s: Sys, r: RequestId)
    requires RowsAgree(s) && SignedOnce(s) && MintedPending(s) && PresentedDelivered(s)
    requires r in s.inFlight && s.inFlight[r].RotateRow? && s.inFlight[r].presented.tokenId in s.table
    ensures RowsAgree(RotateStatement(s, r, s.inFlight[r].presented, s.inFlight[r].minted, s.inFlight[r].device))
  {
    var jwt, minted := s.inFlight[r].presented, s.inFlight[r].minted;
    var s' := RotateStatement(s, r, jwt, minted, s.inFlight[r].device);
    assert RowAgrees(s, jwt.tokenId);
    assert RowAgrees(s', minted.tokenId);
    SameRowsAgree(s, s');
  }

  lemma RotateKeepsInv(s: Sys, r: RequestId)
    requires Inv(s) && r in s.inFlight && s.inFlight[r].RotateRow? && s.inFlight[r].presented.tokenId in s.table
    ensures Inv(RotateStatement(s, r, s.inFlight[r].presented, s.inFlight[r].minted, s.inFlight[r].device))
  {
    var s' := RotateStatement(s, r, s.inFlight[r].presented, s.inFlight[r].minted, s.inFlight[r].device);
    MintedIsNew(s, r);
    DeliverKeepsRequests(s, s', r);
    RotateKeepsRows(s, r);
    RotateKeepsLineages(s, r);
    SpendOne(s, s', s.inFlight[r].presented);
  }

  lemma LogoutKeepsInv(s: Sys, r: RequestId)
    requires Inv(s) && r in s.inFlight && s.inFlight[r].DeleteToken? && s.inFlight[r].presented.tokenId in s.table
    ensures Inv(LogoutStatement(s, r, s.inFlight[r].presented))
  {
    var jwt := s.inFlight[r].presented;
    var s' := LogoutStatement(s, r, jwt);
    RequestGone(s, s', r);
    SameRowsAgree(s, s');
    SpendOne(s, s', jwt);
  }

  lemma RequestGone(s: Sys, s': Sys, r: RequestId)
    requires SignedOnce(s) && MintedPending(s) && PresentedDelivered(s)
    requires s'.inFlight == s.inFlight - {r}
    requires s'.signed == s.signed && s'.lineage == s.lineage && s'.now == s.now
    ensures SignedOnce(s') && MintedPending(s') && PresentedDelivered(s')
  {
  }

  // A token that is spent stays spent exactly once.
  lemma SpendOne(s: Sys, s': Sys, jwt: RefreshJwt)
    requires SpentOnce(s) && (forall j :: j in s.lineage ==> j in s'.lineage)
    requires || (s'.refreshed == s.refreshed + [jwt] && s'.loggedOut == s.loggedOut)
             || (s'.refreshed == s.refreshed && s'.loggedOut == s.loggedOut + [jwt])
    requires jwt in s.lineage && jwt.tokenId in s.table && jwt.tokenId !in s'.table
    requires forall j: RefreshJwt :: TimesSpent(s, j) > 0 ==> j.tokenId !in s'.table
    ensures SpentOnce(s')
  {
    forall j: RefreshJwt | TimesSpent(s', j) > 0
      ensures TimesSpent(s', j) == 1 && j in s'.lineage && j.tokenId !in s'.table
    {
      assert multiset(s'.refreshed) + multiset(s'.loggedOut) ==
             multiset(s.refreshed) + multiset(s.loggedOut) + multiset{jwt};
      assert TimesSpent(s', j) == TimesSpent(s, j) + if j == jwt then 1 else 0;
    }
  }

  // ---- every reachable state -------------------------------------------------------------

  // What the steps that do more than delete are.
  function NextPhase(s: Sys, e: Event): Phase
    requires e.Proceed? && Signs(s, e)
  {
    match s.inFlight[e.r]
    case SignNew(u, d) => CreateRow(u, d, Mint(s, u, e.random))
    case SignRotated(jwt, u, d) => RotateRow(jwt, u, d, Mint(s, u, e.random))
  }

  lemma LoudStepIs(s: Sys, e: Event)
    requires !Quiet(s, e)
    ensures Signs(s, e) ==> Step(s, e) == SignStatement(s, e.r, NextPhase(s, e))
    ensures Creates(s, e) ==> var p := s.inFlight[e.r];
              Step(s, e) == CreateStatement(s, e.r, p.minted, p.device)
    ensures Touches(s, e) ==> var p := s.inFlight[e.r];
              Step(s, e) == TouchStatement(s, e.r, p.presented, p.user, p.device)
    ensures Rotates(s, e) ==> var p := s.inFlight[e.r];
              Step(s, e) == RotateStatement(s, e.r, p.presented, p.minted, p.device)
    ensures LogsOut(s, e) ==> Step(s, e) == LogoutStatement(s, e.r, s.inFlight[e.r].presented)
  {
  }

  lemma StepKeepsInv(s: Sys, e: Event)
    requires Inv(s) && Enabled(s, e)
    ensures Inv(Step(s, e))
  {
    if Quiet(s, e) {
      QuietOnlyDeletes(s, e);
      OnlyDeletesKeepsInv(s, Step(s, e));
    } else {
      LoudStepIs(s, e);
      if Signs(s, e) {
        SignKeepsInv(s, e.r, NextPhase(s, e));
      } else if Creates(s, e) {
        CreateKeepsInv(s, e.r);
      } else if Touches(s, e) {
        TouchKeepsInv(s, e.r);
      } else if Rotates(s, e) {
        RotateKeepsInv(s, e.r);
      } else {
        LogoutKeepsInv(s, e.r);
      }
    }
  }

  lemma {:induction false} RunKeepsInv(s: Sys, es: seq<Event>)
    requires Inv(s) && Run(s, es)
    ensures Inv(After(s, es))
    decreases |es|
  {
    if es != [] {
      StepKeepsInv(s, es[0]);
      RunKeepsInv(Step(s, es[0]), es[1..]);
    }
  }

  lemma InitInv()
    ensures Inv(INIT)
  {
    assert forall j: RefreshJwt :: TimesSpent(INIT, j) == 0;
  }
}
