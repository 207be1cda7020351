/**
 The `refresh_tokens` table and the single statements the services send to it.
 Both the request-level and the statement-level model are built from these.

 Times are milliseconds since the epoch; the `exp` claim of a JWT is in whole
 seconds (section 4.1.4 of RFC 7519).
 */
module RefreshTokenTable {
  import opened Wrappers
  import opened TokenConfig

  type UserId = nat
  // 32 random bytes in hexadecimal; only equality of ids matters.
  type TokenId = nat

  datatype Device = Device(userAgent: string, ip: string)

  datatype Role = ADMIN | MANAGER | CLIENT

  // What the service signs.  Two values are the same token iff they are equal.
  datatype Jwt =
    | Access(id: UserId, email: string, role: Role, exp: nat)
    | Refresh(userId: UserId, tokenId: TokenId, exp: nat)

  type RefreshJwt = j: Jwt | j.Refresh? witness Refresh(0, 0, 0)

  // bcrypt as an injective function of what it hashes.
  datatype Hash<T> = Bcrypt(of: T)

  datatype Row = Row(
    userId: UserId,
    token: Hash<RefreshJwt>,
    device: Device,
    expiresAt: nat,
    createdAt: nat,
    lastUsedAt: Option<nat>)

  type Table = map<TokenId, Row>

  // ---- signing and verification ------------------------------------------

  // `jsonwebtoken` signs with iat = floor(now / 1000) and exp = iat + lifetime ...
  function ExpiryClaim(now: nat, lifetimeSeconds: nat): nat {
    now / 1000 + lifetimeSeconds
  }

  // ... and rejects a token when floor(now / 1000) >= exp.
  predicate Unexpired(jwt: Jwt, now: nat) {
    now / 1000 < jwt.exp
  }

  // ---- queries -----------------------------------------------------------

  // findMany { user_id, expires_at: { gt: now } }, as a set of ids.
  function Live(t: Table, u: UserId, now: nat): (ids: set<TokenId>)
    ensures forall id :: id in ids <==> id in t && t[id].userId == u && now < t[id].expiresAt
  {
    set id | id in t && t[id].userId == u && t[id].expiresAt > now
  }

  // findMany { user_id, user_agent, ip_address }, as a set of ids.
  function DeviceRows(t: Table, u: UserId, d: Device): (ids: set<TokenId>)
    ensures forall id ::
              id in ids <==> id in t && t[id].userId == u && t[id].device.userAgent == d.userAgent && t[id].device.ip == d.ip
  {
    set id | id in t && t[id].userId == u && t[id].device == d
  }

  // Where the database puts nulls in an ascending order.
  datatype NullPlacement = NullsFirst | NullsLast

  // "a may come before b" for `orderBy: { last_used_at: 'asc' }`.
  predicate UsedNoLater(nulls: NullPlacement, a: Option<nat>, b: Option<nat>) {
    match (a, b)
    case (None, None) => true
    case (None, Some(_)) => nulls.NullsFirst?
    case (Some(_), None) => nulls.NullsLast?
    case (Some(x), Some(y)) => x <= y
  }

  predicate Distinct<T(==)>(s: seq<T>) {
    forall i, j :: 0 <= i < j < |s| ==> s[i] != s[j]
  }

  function Elements<T>(s: seq<T>): set<T> {
    set i | 0 <= i < |s| :: s[i]
  }

  // `answer` is one of the lists the database may return for the query of
  // `enforceTokenLimit`: exactly the live rows, oldest use first, ties in any order.
  predicate AnswersActiveQuery(t: Table, u: UserId, now: nat, nulls: NullPlacement, answer: seq<TokenId>) {
    && Distinct(answer)
    && Elements(answer) == Live(t, u, now)
    && forall i, j :: 0 <= i < j < |answer| && answer[i] in t && answer[j] in t ==>
         UsedNoLater(nulls, t[answer[i]].lastUsedAt, t[answer[j]].lastUsedAt)
  }

  // The slice `enforceTokenLimit` deletes: all but the last MAX - 1 of the answer.
  function TokensToRemove(answer: seq<TokenId>): seq<TokenId> {
    if |answer| >= MAX_REFRESH_TOKENS_PER_USER
    then answer[..|answer| - MAX_REFRESH_TOKENS_PER_USER + 1]
    else []
  }

  // ---- statements that change the table -----------------------------------

  function DeleteExpired(t: Table, now: nat): Table {
    map id | id in t && t[id].expiresAt >= now :: t[id]
  }

  function LastUse(row: Row): nat {
    match row.lastUsedAt
    case Some(used) => used
    case None => row.createdAt
  }

  predicate UsedBefore(row: Row, cutoff: int) {
    match row.lastUsedAt
    case Some(used) => used < cutoff
    case None => row.createdAt < cutoff
  }

  function DeleteUnused(t: Table, now: nat, daysOld: nat): Table {
    map id | id in t && !(UsedBefore(t[id], now - daysOld * MILLISECONDS_PER_DAY) && t[id].expiresAt > now) :: t[id]
  }

  function DeleteOfUser(t: Table, u: UserId): Table {
    map id | id in t && t[id].userId != u :: t[id]
  }

  function Create(t: Table, jwt: RefreshJwt, d: Device, now: nat): Table {
    t[jwt.tokenId := Row(jwt.userId, Bcrypt(jwt), d, now + REFRESH_TOKEN_MILLISECONDS, now, None)]
  }

  function Touch(t: Table, id: TokenId, d: Device, now: nat): Table
    requires id in t
  {
    t[id := t[id].(lastUsedAt := Some(now), device := d)]
  }

  // `update { where: { id: old }, data: { id: new, ... } }`: the row leaves its old id.
  function Rotate(t: Table, leaving: TokenId, jwt: RefreshJwt, d: Device, now: nat): Table
    requires leaving in t
  {
    (t - {leaving})[jwt.tokenId := t[leaving].(
      token := Bcrypt(jwt),
      device := d,
      expiresAt := now + REFRESH_TOKEN_MILLISECONDS,
      lastUsedAt := Some(now))]
  }

  // ---- facts about them ----------------------------------------------------

  // The cut-off of the expiry sweep only matters through the last reading.
  lemma DeleteExpiredTwice(t: Table, first: nat, second: nat)
    requires first <= second
    ensures DeleteExpired(DeleteExpired(t, first), second) == DeleteExpired(t, second)
  {}

  lemma {:induction false} DistinctCount<T>(s: seq<T>)
    requires Distinct(s)
    ensures |Elements(s)| == |s|
  {
    if s == [] {
      assert Elements(s) == {};
    } else {
      var front, last := s[..|s| - 1], s[|s| - 1];
      DistinctCount(front);
      assert Elements(s) == Elements(front) + {last};
      assert last !in Elements(front);
    }
  }

  lemma ElementsAppend<T>(s: seq<T>, x: T)
    ensures Elements(s + [x]) == Elements(s) + {x}
  {
    var t := s + [x];
    assert forall i :: 0 <= i < |s| ==> t[i] == s[i];
    assert t[|s|] == x;
  }

  // Whatever the size of the answer, at most MAX - 1 live rows survive the limit step.
  lemma LimitLeavesRoom(t: Table, u: UserId, now: nat, nulls: NullPlacement, answer: seq<TokenId>)
    requires AnswersActiveQuery(t, u, now, nulls, answer)
    ensures |Live(t, u, now) - Elements(TokensToRemove(answer))| <= MAX_REFRESH_TOKENS_PER_USER - 1
    ensures |answer| == |Live(t, u, now)|
  {
    DistinctCount(answer);
    var removed := TokensToRemove(answer);
    var kept := answer[|removed|..];
    assert answer == removed + kept;
    DistinctCount(kept);
    assert Live(t, u, now) - Elements(removed) <= Elements(kept);
    SubsetSize(Live(t, u, now) - Elements(removed), Elements(kept));
  }

  lemma LimitedTableHasRoom(t: Table, u: UserId, now: nat, nulls: NullPlacement, answer: seq<TokenId>)
    requires AnswersActiveQuery(t, u, now, nulls, answer)
    ensures |Live(t - Elements(TokensToRemove(answer)), u, now)| <= MAX_REFRESH_TOKENS_PER_USER - 1
  {
    LimitLeavesRoom(t, u, now, nulls, answer);
    assert Live(t - Elements(TokensToRemove(answer)), u, now) == Live(t, u, now) - Elements(TokensToRemove(answer));
  }

  lemma SubsetSize<T>(a: set<T>, b: set<T>)
    requires a <= b
    ensures |a| <= |b|
  {
    assert b == a + (b - a);
  }

  // The rows that go are a prefix in order of last use: a row that goes was used no later
  // than one that stays; and where the database puts nulls last (first), rows never used
  // go only after (before) all those that were.
  lemma LimitRemovesLeastRecentlyUsed(
    t: Table, u: UserId, now: nat, nulls: NullPlacement, answer: seq<TokenId>, gone: TokenId, kept: TokenId)
    requires AnswersActiveQuery(t, u, now, nulls, answer)
    requires gone in Elements(TokensToRemove(answer))
    requires kept in Live(t, u, now) && kept !in Elements(TokensToRemove(answer))
    ensures gone in t && t[gone].userId == u && t[gone].expiresAt > now
    ensures t[gone].lastUsedAt.Some? && t[kept].lastUsedAt.Some? ==> t[gone].lastUsedAt.value <= t[kept].lastUsedAt.value
    ensures nulls.NullsLast? && t[gone].lastUsedAt.None? ==> t[kept].lastUsedAt.None?
    ensures nulls.NullsFirst? && t[kept].lastUsedAt.None? ==> t[gone].lastUsedAt.None?
  {
    var removed := TokensToRemove(answer);
    var i :| 0 <= i < |removed| && removed[i] == gone;
    assert answer[i] == gone;
    assert kept in Elements(answer);
    var j :| 0 <= j < |answer| && answer[j] == kept;
    assert forall k :: 0 <= k < |removed| ==> removed[k] in Elements(removed) && removed[k] == answer[k];
    assert gone in Elements(answer);
    assert UsedNoLater(nulls, t[gone].lastUsedAt, t[kept].lastUsedAt);
  }

  // The query always has an answer, whichever way nulls are placed.
  lemma {:induction false} ActiveQueryHasAnswer(t: Table, u: UserId, now: nat, nulls: NullPlacement) returns (answer: seq<TokenId>)
    ensures AnswersActiveQuery(t, u, now, nulls, answer)
  {
    answer := SortByUse(t, Live(t, u, now), nulls);
  }

  lemma {:induction false} SortByUse(t: Table, ids: set<TokenId>, nulls: NullPlacement) returns (answer: seq<TokenId>)
    requires ids <= t.Keys
    ensures Distinct(answer) && Elements(answer) == ids
    ensures forall i, j :: 0 <= i < j < |answer| && answer[i] in t && answer[j] in t ==>
              UsedNoLater(nulls, t[answer[i]].lastUsedAt, t[answer[j]].lastUsedAt)
    decreases |ids|
  {
    if ids == {} {
      answer := [];
    } else {
      var last := LatestUse(t, ids, nulls);
      var front := SortByUse(t, ids - {last}, nulls);
      answer := front + [last];
      ElementsAppend(front, last);
      forall i | 0 <= i < |front|
        ensures front[i] in ids && front[i] != last
      {
        assert front[i] in Elements(front);
      }
    }
  }

  lemma {:induction false} LatestUse(t: Table, ids: set<TokenId>, nulls: NullPlacement) returns (last: TokenId)
    requires ids <= t.Keys && ids != {}
    ensures last in ids
    ensures forall id :: id in ids ==> UsedNoLater(nulls, t[id].lastUsedAt, t[last].lastUsedAt)
    decreases |ids|
  {
    last :| last in ids;
    if ids - {last} != {} {
      var other := LatestUse(t, ids - {last}, nulls);
      if UsedNoLater(nulls, t[last].lastUsedAt, t[other].lastUsedAt) {
        last := other;
      }
    }
  }
}
