/**
 The auth service with one request as one atomic step that reads one clock value:
 accounts, refresh-token rows, the verification tokens in Redis, and what each
 request makes of them.
 */
module AuthDb {
  import opened Wrappers
  import opened TokenConfig
  import opened RefreshTokenTable

  type VerificationToken = nat

  datatype User = User(
    email: string,
    password: Hash<string>,
    name: Option<string>,
    role: Role,
    isActive: bool,
    emailVerified: bool,
    emailVerifiedAt: Option<nat>,
    createdAt: nat)

  // A Redis value with the moment after which Redis no longer returns it.
  datatype Verification = Verification(userId: UserId, deadline: nat)

  datatype Db = Db(
    users: map<UserId, User>,
    nextUserId: UserId,                                  // autoincrement: ids are never reused
    tokens: Table,
    verification: map<VerificationToken, Verification>,
    now: nat,
    sharedSecret: bool,                                  // no separate secret for refresh tokens is configured
    signed: set<Jwt>,                                    // what carries a valid signature
    minted: map<VerificationToken, Verification>)        // every verification token ever mailed

  datatype Error =
    | USER_NOT_FOUND | EMAIL_NOT_VERIFIED | INVALID_CREDENTIALS
    | EMAIL_ALREADY_EXISTS | UNVERIFIED_ACCOUNT_EXISTS | UNIQUE_VIOLATION
    | REFRESH_TOKEN_NOT_FOUND | TOKEN_EXPIRED | REFRESH_TOKEN_INVALID | INVALID_TOKEN | RECORD_NOT_FOUND
    | USER_NO_LONGER_EXISTS | USER_NOT_ACTIVE | TOKEN_PAYLOAD_MISMATCH | INVALID_QUERY
    | PERMISSION_DENIED | ADMIN_ON_ADMIN | INSUFFICIENT_PERMISSIONS
    | VERIFICATION_TOKEN_INVALID | EMAIL_ALREADY_VERIFIED

  datatype Outcome =
    | Done
    | Tokens(access: Jwt, refresh: RefreshJwt)
    | Count(count: nat)
    | Registered(id: UserId)
    | Failed(error: Error)

  datatype Answer = Answer(db: Db, outcome: Outcome)

  datatype UserUpdate = UserUpdate(email: Option<string>, name: Option<string>, emailVerified: Option<bool>)

  datatype Request =
    | Register(email: string, password: string, name: Option<string>, mailed: VerificationToken)
    | VerifyEmail(token: VerificationToken)
    | UpdateUser(access: Jwt, target: UserId, data: UserUpdate)
    // `cleaned`: the device clean-up did not fail
    | SignIn(email: string, password: string, device: Device, cleaned: bool, random: TokenId, nulls: NullPlacement, answer: seq<TokenId>)
    | RefreshToken(presented: Jwt, device: Device, random: TokenId)
    | Logout(presented: Jwt)
    | LogoutAll(access: Jwt, target: UserId)
    | SoftDelete(access: Jwt, target: UserId)
    | HardDelete(access: Jwt, target: UserId)
    | CleanupExpiredTokens
    | CleanupUnusedTokens
    | CleanupUnverifiedUsers
    | Tick(ms: nat)

  // ---- small functions ----------------------------------------------------------------

  function LowerChar(c: char): char {
    if 'A' <= c <= 'Z' then c - 'A' + 'a' else c
  }

  // toLowerCase on ASCII letters.
  function Lower(s: string): string {
    seq(|s|, i requires 0 <= i < |s| => LowerChar(s[i]))
  }

  // findUnique { where: { email } }
  ghost function UserByEmail(users: map<UserId, User>, email: string): Option<UserId> {
    if exists id :: id in users && users[id].email == email
    then var id :| id in users && users[id].email == email; Some(id)
    else None
  }

  // Deleting a user row deletes its refresh-token rows (onDelete: Cascade).
  function DeleteUsers(db: Db, gone: set<UserId>): Db {
    db.(users := db.users - gone,
        tokens := map id | id in db.tokens && db.tokens[id].userId !in gone :: db.tokens[id])
  }

  // Unverified and registered more than 30 minutes ago.
  predicate RegistrationLapsed(user: User, now: nat) {
    !user.emailVerified && user.createdAt < now - EMAIL_VERIFICATION_TOKEN_MILLISECONDS
  }

  // ---- access tokens and permissions ------------------------------------------------------

  datatype Requester = Known(id: UserId) | Rejected(error: Error)

  // extractUserFromAccessToken
  function Extract(db: Db, access: Jwt): (r: Requester)
    ensures r.Known? ==> r.id in db.users && db.users[r.id].isActive
  {
    if access !in db.signed || !Unexpired(access, db.now) then Rejected(INVALID_TOKEN)
    else match access
      // A refresh token verifies here only under a shared secret, and then carries no `id`.
      case Refresh(_, _, _) => Rejected(if db.sharedSecret then INVALID_QUERY else INVALID_TOKEN)
      case Access(id, email, role, _) =>
        if id !in db.users then Rejected(USER_NO_LONGER_EXISTS)
        else if !db.users[id].isActive then Rejected(USER_NOT_ACTIVE)
        else if db.users[id].email != email || db.users[id].role != role then Rejected(TOKEN_PAYLOAD_MISMATCH)
        else Known(id)
  }

  function Rank(role: Role): nat {
    match role
    case ADMIN => 2
    case MANAGER => 1
    case CLIENT => 0
  }

  // canUserPerformActionOnUser; None allows: oneself and those of a strictly lower rank.
  function Objection(currentId: UserId, currentRole: Role, targetId: UserId, targetRole: Role): (r: Option<Error>)
    ensures r.None? <==> currentId == targetId || Rank(currentRole) > Rank(targetRole)
  {
    if currentId == targetId then None
    else if currentRole == ADMIN then (if targetRole == ADMIN then Some(ADMIN_ON_ADMIN) else None)
    else if currentRole == MANAGER && targetRole == CLIENT then None
    else Some(INSUFFICIENT_PERMISSIONS)
  }

  // The checks shared by the privileged requests; `inactiveToo` for hard deletion.
  function Privileged(db: Db, access: Jwt, target: UserId, inactiveToo: bool): (r: Requester)
    ensures r.Known? ==> r.id in db.users && target in db.users
  {
    match Extract(db, access)
    case Rejected(error) => Rejected(error)
    case Known(current) =>
      if target !in db.users || (!inactiveToo && !db.users[target].isActive) then Rejected(USER_NOT_FOUND)
      else match Objection(current, db.users[current].role, target, db.users[target].role)
        case Some(error) => Rejected(error)
        case None => Known(current)
  }

  // ---- registration -----------------------------------------------------------------------

  function CreateUser(db: Db, email: string, password: string, name: Option<string>, mailed: VerificationToken): Answer {
    var id := db.nextUserId;
    var entry := Verification(id, db.now + EMAIL_VERIFICATION_TOKEN_MILLISECONDS);
    Answer(db.(users := db.users[id := User(email, Bcrypt(password), name, CLIENT, true, false, None, db.now)],
               nextUserId := id + 1,
               verification := db.verification[mailed := entry],
               minted := db.minted[mailed := entry]),
           Registered(id))
  }

  ghost function DoRegister(db: Db, email: string, password: string, name: Option<string>, mailed: VerificationToken): Answer {
    var normalized := Lower(email);
    match UserByEmail(db.users, normalized)
    case None => CreateUser(db, normalized, password, name, mailed)
    case Some(id) =>
      if db.users[id].emailVerified then Answer(db, Failed(EMAIL_ALREADY_EXISTS))
      else if !RegistrationLapsed(db.users[id], db.now) then Answer(db, Failed(UNVERIFIED_ACCOUNT_EXISTS))
      else CreateUser(DeleteUsers(db, {id}), normalized, password, name, mailed)
  }

  function DoVerifyEmail(db: Db, token: VerificationToken): Answer {
    if token !in db.verification || db.verification[token].deadline < db.now then Answer(db, Failed(VERIFICATION_TOKEN_INVALID))
    else
      var id := db.verification[token].userId;
      if id !in db.users then Answer(db, Failed(USER_NOT_FOUND))
      else if !db.users[id].isActive then Answer(db, Failed(USER_NOT_ACTIVE))
      else if db.users[id].emailVerified then Answer(db, Failed(EMAIL_ALREADY_VERIFIED))
      else Answer(db.(users := db.users[id := db.users[id].(emailVerified := true, emailVerifiedAt := Some(db.now))],
                      verification := db.verification - {token}),
                  Done)
  }

  function Updated(user: User, data: UserUpdate): User {
    user.(email := if data.email.Some? then Lower(data.email.value) else user.email,
          name := if data.name.Some? then data.name else user.name,
          emailVerified := if data.emailVerified.Some? then data.emailVerified.value else user.emailVerified)
  }

  ghost function DoUpdateUser(db: Db, access: Jwt, target: UserId, data: UserUpdate): Answer {
    match Privileged(db, access, target, false)
    case Rejected(error) => Answer(db, Failed(error))
    case Known(current) =>
      if data.emailVerified.Some? && db.users[current].role != ADMIN then Answer(db, Failed(PERMISSION_DENIED))
      else
        var updated := Updated(db.users[target], data);
        if exists id :: id in db.users && id != target && db.users[id].email == updated.email
        then Answer(db, Failed(UNIQUE_VIOLATION))
        else Answer(db.(users := db.users[target := updated]), Done)
  }

  // ---- sessions ------------------------------------------------------------------------------

  function AccessFor(id: UserId, user: User, now: nat): Jwt {
    Access(id, user.email, user.role, ExpiryClaim(now, ACCESS_TOKEN_SECONDS))
  }

  function RefreshFor(id: UserId, random: TokenId, now: nat): RefreshJwt {
    Refresh(id, random, ExpiryClaim(now, REFRESH_TOKEN_SECONDS))
  }

  // The table when the limit step of a sign-in queries it.
  function AfterDeviceCleanup(t: Table, id: UserId, device: Device, cleaned: bool): Table {
    t - CleanedRows(t, id, device, cleaned)
  }

  // The rows the device clean-up removes; when one of its statements fails it removes
  // none, and the sign-in goes on.
  function CleanedRows(t: Table, id: UserId, device: Device, cleaned: bool): set<TokenId> {
    if cleaned then DeviceRows(t, id, device) else {}
  }

  // generateTokenPair: the device's rows go, then the least recently used ones, then a row is created.
  function GenerateTokenPair(db: Db, id: UserId, device: Device, cleaned: bool, random: TokenId, answer: seq<TokenId>): Answer
    requires id in db.users
  {
    var access, refresh := AccessFor(id, db.users[id], db.now), RefreshFor(id, random, db.now);
    var room := AfterDeviceCleanup(db.tokens, id, device, cleaned) - Elements(TokensToRemove(answer));
    Answer(db.(tokens := Create(room, refresh, device, db.now), signed := db.signed + {access, refresh}),
           Tokens(access, refresh))
  }

  ghost function DoSignIn(db: Db, email: string, password: string, device: Device, cleaned: bool, random: TokenId, answer: seq<TokenId>): Answer {
    match UserByEmail(db.users, Lower(email))
    case None => Answer(db, Failed(USER_NOT_FOUND))
    case Some(id) =>
      var user := db.users[id];
      if !user.isActive then Answer(db, Failed(USER_NOT_FOUND))
      else if !user.emailVerified then Answer(db, Failed(EMAIL_NOT_VERIFIED))
      else if user.password != Bcrypt(password) then Answer(db, Failed(INVALID_CREDENTIALS))
      else GenerateTokenPair(db, id, device, cleaned, random, answer)
  }

  // verifyRefreshToken
  datatype Checked = Verified(jwt: RefreshJwt) | NotVerified(error: Error)

  function CheckRefresh(db: Db, jwt: Jwt): Checked {
    if jwt !in db.signed || !Unexpired(jwt, db.now) then NotVerified(REFRESH_TOKEN_INVALID)
    else if jwt.Access? then NotVerified(if db.sharedSecret then INVALID_TOKEN else REFRESH_TOKEN_INVALID)
    else Verified(jwt)
  }

  function DoRefresh(db: Db, presented: Jwt, device: Device, random: TokenId): Answer {
    match CheckRefresh(db, presented)
    case NotVerified(error) => Answer(db, Failed(error))
    case Verified(jwt) =>
      if jwt.tokenId !in db.tokens then Answer(db, Failed(REFRESH_TOKEN_NOT_FOUND))
      else
        var row := db.tokens[jwt.tokenId];
        if row.expiresAt < db.now then
          Answer(db.(tokens := db.tokens - {jwt.tokenId}), Failed(TOKEN_EXPIRED))
        else if row.token != Bcrypt(jwt) then
          Answer(db.(tokens := DeleteOfUser(db.tokens, row.userId)), Failed(REFRESH_TOKEN_INVALID))
        else if row.userId !in db.users then Answer(db, Failed(USER_NO_LONGER_EXISTS))
        else
          var access, refresh := AccessFor(row.userId, db.users[row.userId], db.now), RefreshFor(row.userId, random, db.now);
          var touched := Touch(db.tokens, jwt.tokenId, device, db.now);
          Answer(db.(tokens := Rotate(touched, jwt.tokenId, refresh, device, db.now), signed := db.signed + {access, refresh}),
                 Tokens(access, refresh))
  }

  function DoLogout(db: Db, presented: Jwt): Answer {
    match CheckRefresh(db, presented)
    case NotVerified(_) => Answer(db, Failed(REFRESH_TOKEN_INVALID))
    case Verified(jwt) =>
      if jwt.tokenId !in db.tokens then Answer(db, Failed(RECORD_NOT_FOUND))
      else Answer(db.(tokens := db.tokens - {jwt.tokenId}), Done)
  }

  function DoLogoutAll(db: Db, access: Jwt, target: UserId): Answer {
    match Privileged(db, access, target, false)
    case Rejected(error) => Answer(db, Failed(error))
    case Known(_) => DeleteRows(db, DeleteOfUser(db.tokens, target))
  }

  function DeleteRows(db: Db, left: Table): Answer {
    Answer(db.(tokens := left), Count(if |left| <= |db.tokens| then |db.tokens| - |left| else 0))
  }

  // ---- deletion -----------------------------------------------------------------------------------

  function DoSoftDelete(db: Db, access: Jwt, target: UserId): Answer {
    match Privileged(db, access, target, false)
    case Rejected(error) => Answer(db, Failed(error))
    case Known(_) =>
      Answer(db.(tokens := DeleteOfUser(db.tokens, target),
                 users := db.users[target := db.users[target].(isActive := false)]),
             Done)
  }

  function DoHardDelete(db: Db, access: Jwt, target: UserId): Answer {
    match Privileged(db, access, target, true)
    case Rejected(error) => Answer(db, Failed(error))
    case Known(_) => Answer(DeleteUsers(db, {target}), Done)
  }

  function Lapsed(db: Db): set<UserId> {
    set id | id in db.users && RegistrationLapsed(db.users[id], db.now)
  }

  // ---- one request ----------------------------------------------------------------------------------

  predicate Fresh(db: Db, random: TokenId) {
    forall j :: j in db.signed && j.Refresh? ==> j.tokenId != random
  }

  // The random values are new and the database answers its query truthfully.
  ghost predicate Enabled(db: Db, q: Request) {
    match q
    case Register(_, _, _, mailed) => mailed !in db.minted
    case SignIn(email, _, device, cleaned, random, nulls, answer) =>
      && Fresh(db, random)
      && forall id :: UserByEmail(db.users, Lower(email)) == Some(id) ==>
           AnswersActiveQuery(AfterDeviceCleanup(db.tokens, id, device, cleaned), id, db.now, nulls, answer)
    case RefreshToken(_, _, random) => Fresh(db, random)
    case _ => true
  }

  ghost function Serve(db: Db, q: Request): Answer {
    match q
    case Register(email, password, name, mailed) => DoRegister(db, email, password, name, mailed)
    case VerifyEmail(token) => DoVerifyEmail(db, token)
    case UpdateUser(access, target, data) => DoUpdateUser(db, access, target, data)
    case SignIn(email, password, device, cleaned, random, _, answer) => DoSignIn(db, email, password, device, cleaned, random, answer)
    case RefreshToken(presented, device, random) => DoRefresh(db, presented, device, random)
    case Logout(presented) => DoLogout(db, presented)
    case LogoutAll(access, target) => DoLogoutAll(db, access, target)
    case SoftDelete(access, target) => DoSoftDelete(db, access, target)
    case HardDelete(access, target) => DoHardDelete(db, access, target)
    case CleanupExpiredTokens => DeleteRows(db, DeleteExpired(db.tokens, db.now))
    case CleanupUnusedTokens => DeleteRows(db, DeleteUnused(db.tokens, db.now, REFRESH_TOKEN_DAYS))
    case CleanupUnverifiedUsers => Answer(DeleteUsers(db, Lapsed(db)), Count(|Lapsed(db)|))
    case Tick(ms) => Answer(db.(now := db.now + ms), Done)
  }

  ghost predicate Run(db: Db, qs: seq<Request>)
    decreases |qs|
  {
    qs == [] || (Enabled(db, qs[0]) && Run(Serve(db, qs[0]).db, qs[1..]))
  }

  ghost function After(db: Db, qs: seq<Request>): Db
    decreases |qs|
  {
    if qs == [] then db else After(Serve(db, qs[0]).db, qs[1..])
  }

  // No step of the run is one `bad` describes.
  ghost predicate Never(db: Db, qs: seq<Request>, bad: (Db, Request) -> bool)
    decreases |qs|
  {
    qs == [] || (!bad(db, qs[0]) && Never(Serve(db, qs[0]).db, qs[1..], bad))
  }
}
