/**
 The Redis cache in front of access-token verification: a token that was verified
 is answered from the cache until shortly before it expires.  Requests interleave
 at every call they make to Redis or to the auth service.
 */
module TokenCache {
  import opened Wrappers

  type UserId = nat
  type RequestId = nat

  datatype Payload = Payload(id: UserId, email: string, role: string)

  // Signed by the auth service, or anything else a client may send.
  datatype Token = Signed(payload: Payload, exp: nat) | Foreign(text: string)

  // Redis removes a key once its deadline has passed (in milliseconds).
  datatype Cached = Cached(payload: Payload, deadline: nat)

  // The key is a SHA-256 digest of the token, so it stands for the token itself.
  type Redis = map<Token, Cached>

  const CACHE_BUFFER_SECONDS: nat := 3
  const MIN_CACHE_TTL_SECONDS: nat := 5

  // What the auth service answers: signature, `exp` in whole seconds, and a user row.
  function Direct(token: Token, users: set<UserId>, now: nat): Option<Payload> {
    if token.Signed? && now / 1000 < token.exp && token.payload.id in users
    then Some(token.payload)
    else None
  }

  function Get(redis: Redis, token: Token, now: nat): Option<Payload> {
    if token in redis && now <= redis[token].deadline then Some(redis[token].payload) else None
  }

  function CalculateCacheTtl(token: Token, now: nat): nat {
    if !token.Signed? || token.exp == 0 then 0
    else if token.exp < now / 1000 + CACHE_BUFFER_SECONDS then 0
    else token.exp - now / 1000 - CACHE_BUFFER_SECONDS
  }

  // cacheTokenPayload, its time-to-live computed at one moment and stored at another.
  function Store(redis: Redis, token: Token, payload: Payload, ttl: nat, now: nat): Redis {
    if ttl <= MIN_CACHE_TTL_SECONDS then redis else redis[token := Cached(payload, now + ttl * 1000)]
  }

  // verifyToken at one instant.
  function ThroughCache(redis: Redis, token: Token, users: set<UserId>, now: nat): Option<Payload> {
    match Get(redis, token, now)
    case Some(payload) => Some(payload)
    case None => Direct(token, users, now)
  }

  // ---- the arithmetic of the buffer ----------------------------------------------

  // Direct verification accepts exactly signed tokens, until the millisecond before
  // `exp`, of users that have a row, and answers with what was signed.
  lemma DirectDecides(token: Token, users: set<UserId>, now: nat)
    ensures forall payload :: Direct(token, users, now) == Some(payload) <==>
              token.Signed? && payload == token.payload && now < token.exp * 1000 && token.payload.id in users
  {
  }

  // An entry whose time to live was computed at `computed` and which was stored at
  // `stored` only answers while its token verifies iff the delay stays within the
  // buffer, the milliseconds lost by rounding `computed` down included.
  lemma EntryIsSafeIff(token: Token, computed: nat, stored: nat)
    requires token.Signed? && computed <= stored
    requires CalculateCacheTtl(token, computed) > MIN_CACHE_TTL_SECONDS
    ensures var deadline := stored + CalculateCacheTtl(token, computed) * 1000;
            (forall t: nat :: stored <= t <= deadline ==> t / 1000 < token.exp)
            <==> computed % 1000 + (stored - computed) < CACHE_BUFFER_SECONDS * 1000
  {
    var deadline := stored + CalculateCacheTtl(token, computed) * 1000;
    assert deadline == token.exp * 1000 - CACHE_BUFFER_SECONDS * 1000 + computed % 1000 + (stored - computed);
    if computed % 1000 + (stored - computed) >= CACHE_BUFFER_SECONDS * 1000 {
      assert deadline / 1000 >= token.exp;
    }
  }

  // The largest delay that is safe whenever the time to live is computed.
  lemma TwoSecondsIsTheTolerance(lag: nat)
    ensures (forall token: Token, computed: nat ::
               token.Signed? && CalculateCacheTtl(token, computed) > MIN_CACHE_TTL_SECONDS ==>
               (computed + lag + CalculateCacheTtl(token, computed) * 1000) / 1000 < token.exp)
            <==> lag <= 2000
  {
    if lag > 2000 {
      var token := Signed(Payload(0, "", ""), 100);
      assert CalculateCacheTtl(token, 999) == 97;
      assert (999 + lag + 97 * 1000) / 1000 >= 100;
    }
  }

  // Stored without delay, an entry exists iff more than 8 whole seconds are left to the
  // token, answers for all but the last 3 of them, and never within two seconds of its end.
  lemma PromptEntryEndsEarly(token: Token, now: nat, t: nat)
    requires token.Signed?
    ensures Get(Store(map[], token, token.payload, CalculateCacheTtl(token, now), now), token, t) ==
            if token.exp > now / 1000 + 8 && t <= now + (token.exp - now / 1000 - 3) * 1000
            then Some(token.payload) else None
    ensures Get(Store(map[], token, token.payload, CalculateCacheTtl(token, now), now), token, t).Some? ==>
              t < token.exp * 1000 - 2000
  {
  }

  // ---- interleaved requests -----------------------------------------------------------

  datatype Pending =
    | Asking(token: Token)                                      // about to POST /verify
    | Verified(token: Token, payload: Payload)                  // about to compute the time to live
    | Storing(token: Token, payload: Payload, ttl: nat, computed: nat)  // about to SETEX

  datatype Sys = Sys(users: set<UserId>, redis: Redis, now: nat, pending: map<RequestId, Pending>)

  datatype Event =
    | Tick(ms: nat)
    | Lookup(r: RequestId, token: Token, redisDown: bool)
    | Ask(r: RequestId)
    | ComputeTtl(r: RequestId)
    | SetEx(r: RequestId)
    | Drop(r: RequestId)            // the request or its Redis call fails
    | Evict(token: Token)
    | HardDelete(user: UserId)
    | Register(user: UserId)

  // `lag` bounds the time between computing a time to live and storing with it.
  predicate Enabled(s: Sys, e: Event, lag: nat) {
    match e
    case Lookup(r, _, _) => r !in s.pending
    case Ask(r) => r in s.pending && s.pending[r].Asking?
    case ComputeTtl(r) => r in s.pending && s.pending[r].Verified?
    case SetEx(r) => r in s.pending && s.pending[r].Storing? && s.now <= s.pending[r].computed + lag
    case Drop(r) => r in s.pending
    case _ => true
  }

  function Step(s: Sys, e: Event): Sys {
    match e
    case Tick(ms) => s.(now := s.now + ms)
    case Lookup(r, token, down) =>
      if !down && Get(s.redis, token, s.now).Some? then s else s.(pending := s.pending[r := Asking(token)])
    case Ask(r) =>
      if r in s.pending && s.pending[r].Asking? then
        match Direct(s.pending[r].token, s.users, s.now)
        case Some(payload) => s.(pending := s.pending[r := Verified(s.pending[r].token, payload)])
        case None => s.(pending := s.pending - {r})
      else s
    case ComputeTtl(r) =>
      if r in s.pending && s.pending[r].Verified? then
        var p := s.pending[r];
        var ttl := CalculateCacheTtl(p.token, s.now);
        if ttl <= MIN_CACHE_TTL_SECONDS then s.(pending := s.pending - {r})
        else s.(pending := s.pending[r := Storing(p.token, p.payload, ttl, s.now)])
      else s
    case SetEx(r) =>
      if r in s.pending && s.pending[r].Storing? then
        var p := s.pending[r];
        s.(redis := Store(s.redis, p.token, p.payload, p.ttl, s.now), pending := s.pending - {r})
      else s
    case Drop(r) => s.(pending := s.pending - {r})
    case Evict(token) => s.(redis := s.redis - {token})
    case HardDelete(u) => s.(users := s.users - {u})
    case Register(u) => s.(users := s.users + {u})
  }

  predicate Run(s: Sys, es: seq<Event>, lag: nat)
    decreases |es|
  {
    es == [] || (Enabled(s, es[0], lag) && Run(Step(s, es[0]), es[1..], lag))
  }

  function After(s: Sys, es: seq<Event>): Sys
    decreases |es|
  {
    if es == [] then s else After(Step(s, es[0]), es[1..])
  }

  // ---- what each step of a request does ----------------------------------------------------

  // A hit answers at once; a miss, or a Redis that is down, leads to asking the auth service.
  lemma LookupDecides(s: Sys, r: RequestId, token: Token, down: bool)
    ensures Step(s, Lookup(r, token, down)) ==
            if !down && token in s.redis && s.now <= s.redis[token].deadline then s
            else s.(pending := s.pending[r := Asking(token)])
  {
  }

  // The auth service's answer: rejected requests end, accepted ones go on with the payload.
  lemma AskDecides(s: Sys, r: RequestId)
    requires r in s.pending && s.pending[r].Asking?
    ensures var token := s.pending[r].token;
            Step(s, Ask(r)) ==
            if token.Signed? && s.now < token.exp * 1000 && token.payload.id in s.users
            then s.(pending := s.pending[r := Verified(token, token.payload)])
            else s.(pending := s.pending - {r})
  {
    DirectDecides(s.pending[r].token, s.users, s.now);
  }

  // Caching goes on iff more than 8 whole seconds are left; what is stored lives for all
  // but the last 3 of the seconds left when the time to live was computed.
  lemma CachingDecides(s: Sys, r: RequestId)
    requires r in s.pending && s.pending[r].Verified? && s.pending[r].token.Signed?
    ensures var token, left := s.pending[r].token, s.pending[r].token.exp - s.now / 1000;
            Step(s, ComputeTtl(r)) ==
            if left > 8 then s.(pending := s.pending[r := Storing(token, s.pending[r].payload, left - 3, s.now)])
            else s.(pending := s.pending - {r})
  {
  }

  lemma StoringDecides(s: Sys, r: RequestId)
    requires r in s.pending && s.pending[r].Storing? && s.pending[r].ttl > 5
    ensures var p := s.pending[r];
            Step(s, SetEx(r)) ==
            s.(redis := s.redis[p.token := Cached(p.payload, s.now + p.ttl * 1000)], pending := s.pending - {r})
  {
  }

  // ---- the cache is consistent with direct verification ----------------------------------

  ghost predicate EntriesSound(s: Sys) {
    forall token :: token in s.redis ==>
      && token.Signed? && s.redis[token].payload == token.payload
      && s.redis[token].deadline < token.exp * 1000
  }

  ghost predicate PendingSound(s: Sys) {
    forall r :: r in s.pending && !s.pending[r].Asking? ==>
      var p := s.pending[r];
      && p.token.Signed? && p.payload == p.token.payload
      && (p.Storing? ==> p.ttl == CalculateCacheTtl(p.token, p.computed) > MIN_CACHE_TTL_SECONDS && p.computed <= s.now)
  }

  lemma StepKeepsSound(s: Sys, e: Event, lag: nat)
    requires EntriesSound(s) && PendingSound(s) && Enabled(s, e, lag) && lag <= 2000
    ensures EntriesSound(Step(s, e)) && PendingSound(Step(s, e))
  {
  }

  lemma {:induction false} RunKeepsSound(s: Sys, es: seq<Event>, lag: nat)
    requires EntriesSound(s) && PendingSound(s) && Run(s, es, lag) && lag <= 2000
    ensures EntriesSound(After(s, es)) && PendingSound(After(s, es))
    decreases |es|
  {
    if es != [] {
      StepKeepsSound(s, es[0], lag);
      RunKeepsSound(Step(s, es[0]), es[1..], lag);
    }
  }

  // An answer from the cache is the answer of direct verification at that instant,
  // precisely as long as the token's user still has a row.
  lemma HitAgreesIffUserExists(users: set<UserId>, es: seq<Event>, lag: nat, token: Token)
    requires Run(Sys(users, map[], 0, map[]), es, lag) && lag <= 2000
    requires Get(After(Sys(users, map[], 0, map[]), es).redis, token, After(Sys(users, map[], 0, map[]), es).now).Some?
    ensures var s := After(Sys(users, map[], 0, map[]), es);
            && token.Signed? && s.now < token.exp * 1000
            && Get(s.redis, token, s.now) == Some(token.payload)
            && (Get(s.redis, token, s.now) == Direct(token, s.users, s.now) <==> token.payload.id in s.users)
  {
    RunKeepsSound(Sys(users, map[], 0, map[]), es, lag);
  }

  // It happens: a token is verified and cached, its user is deleted, and the cache still answers.
  lemma HitForDeletedUser() returns (es: seq<Event>, token: Token)
    ensures Run(Sys({1}, map[], 0, map[]), es, 0)
    ensures var s := After(Sys({1}, map[], 0, map[]), es);
            Get(s.redis, token, s.now).Some? && Direct(token, s.users, s.now).None?
  {
    token := Signed(Payload(1, "a", "CLIENT"), 900);
    var s0 := Sys({1}, map[], 0, map[]);
    var s1 := Step(s0, Lookup(0, token, false));
    var s2 := Step(s1, Ask(0));
    var s3 := Step(s2, ComputeTtl(0));
    var s4 := Step(s3, SetEx(0));
    assert s4.redis == map[token := Cached(token.payload, 897_000)];
    RunCons(s4, HardDelete(1), [], 0);
    RunCons(s3, SetEx(0), [HardDelete(1)] + [], 0);
    RunCons(s2, ComputeTtl(0), [SetEx(0)] + ([HardDelete(1)] + []), 0);
    RunCons(s1, Ask(0), [ComputeTtl(0)] + ([SetEx(0)] + ([HardDelete(1)] + [])), 0);
    RunCons(s0, Lookup(0, token, false), [Ask(0)] + ([ComputeTtl(0)] + ([SetEx(0)] + ([HardDelete(1)] + []))), 0);
    es := [Lookup(0, token, false)] + ([Ask(0)] + ([ComputeTtl(0)] + ([SetEx(0)] + ([HardDelete(1)] + []))));
  }

  lemma RunCons(s: Sys, e: Event, rest: seq<Event>, lag: nat)
    requires Enabled(s, e, lag) && Run(Step(s, e), rest, lag)
    ensures Run(s, [e] + rest, lag) && After(s, [e] + rest) == After(Step(s, e), rest)
  {
    assert ([e] + rest)[1..] == rest;
  }

  // ---- users that are never hard-deleted ------------------------------------------------------

  // A pending request that was answered "valid" for a token of user u.
  predicate ChecksOut(p: Pending, u: UserId) {
    !p.Asking? && p.token.Signed? && p.token.payload.id == u
  }

  ghost predicate OnlyKnownUsers(s: Sys, u: UserId) {
    && (forall token :: token in s.redis && token.Signed? && token.payload.id == u ==> u in s.users)
    && (forall r :: r in s.pending && ChecksOut(s.pending[r], u) ==> u in s.users)
  }

  lemma {:induction false} RunKeepsKnownUsers(s: Sys, es: seq<Event>, lag: nat, u: UserId)
    requires OnlyKnownUsers(s, u) && Run(s, es, lag) && HardDelete(u) !in es
    ensures OnlyKnownUsers(After(s, es), u)
    decreases |es|
  {
    if es != [] {
      assert es[0] != HardDelete(u);
      assert OnlyKnownUsers(Step(s, es[0]), u);
      RunKeepsKnownUsers(Step(s, es[0]), es[1..], lag, u);
    }
  }

  // Verification through the cache refines direct verification: in every run in which
  // the user is not hard-deleted, both give the same answer at every instant, and
  // accept exactly a signed token, before `exp`, of a user that has a row.
  lemma CacheRefinesDirect(users: set<UserId>, es: seq<Event>, lag: nat, token: Token)
    requires Run(Sys(users, map[], 0, map[]), es, lag) && lag <= 2000
    requires token.Signed? ==> HardDelete(token.payload.id) !in es
    ensures var s := After(Sys(users, map[], 0, map[]), es);
            ThroughCache(s.redis, token, s.users, s.now) == Direct(token, s.users, s.now)
    ensures var s := After(Sys(users, map[], 0, map[]), es);
            forall payload :: ThroughCache(s.redis, token, s.users, s.now) == Some(payload) <==>
              token.Signed? && payload == token.payload && s.now < token.exp * 1000 && token.payload.id in s.users
  {
    var init := Sys(users, map[], 0, map[]);
    RunKeepsSound(init, es, lag);
    if token.Signed? {
      RunKeepsKnownUsers(init, es, lag, token.payload.id);
    }
    DirectDecides(token, After(init, es).users, After(init, es).now);
  }

  // ---- the service's own methods ------------------------------------------------------------------

  datatype Verification = Accepted(payload: Payload) | TokenRequired | InvalidToken

  function AsVerification(answer: Option<Payload>): Verification {
    if answer.Some? then Accepted(answer.value) else InvalidToken
  }

  // What String.prototype.trim removes.
  predicate IsSpace(c: char) {
    var code := c as int;
    || 0x9 <= code <= 0xD || 0x2000 <= code <= 0x200A
    || code in {0x20, 0xA0, 0x1680, 0x2028, 0x2029, 0x202F, 0x205F, 0x3000, 0xFEFF}
  }

  // Among ASCII characters: tab, line feed, vertical tab, form feed, carriage return, space.
  lemma AsciiSpace(c: char)
    requires c as int < 0x80
    ensures IsSpace(c) <==> c == ' ' || c == '\t' || c == '\n' || c as int == 0xB || c as int == 0xC || c == '\r'
  {
  }

  predicate IsBlank(token: Token) {
    token.Foreign? && forall i :: 0 <= i < |token.text| ==> IsSpace(token.text[i])
  }

  // The moments one verifyToken call reads: GET, the auth service's check, the
  // time-to-live computation and SETEX.
  datatype Clock = Clock(get: nat, verify: nat, ttl: nat, setex: nat)

  class AuthService {
    var redis: Redis

    constructor ()
      ensures redis == map[]
    {
      redis := map[];
    }

    method VerifyToken(accessToken: Token, users: set<UserId>, clock: Clock) returns (r: Verification)
      modifies this
      ensures IsBlank(accessToken) ==> r == TokenRequired && redis == old(redis)
      ensures !IsBlank(accessToken) && Get(old(redis), accessToken, clock.get).Some? ==>
                r == AsVerification(Get(old(redis), accessToken, clock.get)) && redis == old(redis)
      ensures !IsBlank(accessToken) && Get(old(redis), accessToken, clock.get).None? ==>
                (r.Accepted? <==>
                 accessToken.Signed? && accessToken.payload.id in users && clock.verify < accessToken.exp * 1000)
      ensures r.Accepted? && Get(old(redis), accessToken, clock.get).None? ==> r.payload == accessToken.payload
      ensures !IsBlank(accessToken) && Get(old(redis), accessToken, clock.get).None? ==>
                && r == AsVerification(Direct(accessToken, users, clock.verify))
                && redis == match Direct(accessToken, users, clock.verify)
                            case Some(payload) => Store(old(redis), accessToken, payload, CalculateCacheTtl(accessToken, clock.ttl), clock.setex)
                            case None => old(redis)
    {
      if IsBlank(accessToken) {
        return TokenRequired;
      }
      var cachedPayload := GetCachedTokenPayload(accessToken, clock.get);
      if cachedPayload.Some? {
        return Accepted(cachedPayload.value);
      }
      r := VerifyTokenWithAuthService(accessToken, users, clock);
      DirectDecides(accessToken, users, clock.verify);
    }

    method GetCachedTokenPayload(token: Token, now: nat) returns (r: Option<Payload>)
      ensures r == Get(redis, token, now)
    {
      if token in redis && now <= redis[token].deadline {
        return Some(redis[token].payload);
      }
      return None;
    }

    method VerifyTokenWithAuthService(accessToken: Token, users: set<UserId>, clock: Clock) returns (r: Verification)
      modifies this
      ensures r == AsVerification(Direct(accessToken, users, clock.verify))
      ensures redis == match Direct(accessToken, users, clock.verify)
                       case Some(payload) => Store(old(redis), accessToken, payload, CalculateCacheTtl(accessToken, clock.ttl), clock.setex)
                       case None => old(redis)
    {
      var response := Direct(accessToken, users, clock.verify);
      if response.None? {
        return InvalidToken;
      }
      CacheTokenPayload(accessToken, response.value, clock);
      r := Accepted(response.value);
    }

    method CacheTokenPayload(token: Token, payload: Payload, clock: Clock)
      modifies this
      ensures redis == Store(old(redis), token, payload, CalculateCacheTtl(token, clock.ttl), clock.setex)
    {
      var ttl := CalculateCacheTtl(token, clock.ttl);
      if ttl <= MIN_CACHE_TTL_SECONDS {
        return;
      }
      redis := redis[token := Cached(payload, clock.setex + ttl * 1000)];
    }
  }
}
