/**
 The bound on concurrent sessions is exact: for every K a run with K sign-ins in
 flight and no escaping rotation reaches MAX_REFRESH_TOKENS_PER_USER - 1 + K, and
 with one sign-in at a time a single escaping rotation takes it one higher, past the
 configured limit.
 */
module SessionBoundTight {
  import opened Wrappers
  import opened TokenConfig
  import opened RefreshTokenTable
  import opened SessionInterleaving
  import opened SessionBound
  import opened SessionEscapes

  // ---- users with n sessions on n devices --------------------------------------------------

  function Name(n: nat): (r: string)
    ensures |r| == n
  {
    if n == 0 then "" else Name(n - 1) + "x"
  }

  function Dev(n: nat): Device {
    Device(Name(n), "")
  }

  lemma DevicesDiffer(a: nat, b: nat)
    ensures Dev(a) == Dev(b) ==> a == b
  {
    assert |Dev(a).userAgent| == a && |Dev(b).userAgent| == b;
  }

  function Token(i: nat): RefreshJwt {
    Refresh(0, i, REFRESH_TOKEN_SECONDS)
  }

  function NewRow(i: nat): Row {
    Row(0, Bcrypt(Token(i)), Dev(i), REFRESH_TOKEN_MILLISECONDS, 0, None)
  }

  function Upto(n: nat): (r: set<nat>)
    ensures forall i :: i in r <==> 0 <= i < n
    ensures |r| == n
  {
    if n == 0 then {} else Upto(n - 1) + {n - 1}
  }

  // Sessions 0 .. n - 1 are stored, and their tokens were handed out.
  ghost predicate Stored(s: Sys, n: nat) {
    && s.now == 0
    && (forall i :: i in s.table <==> 0 <= i < n) && (forall i :: i in s.table ==> s.table[i] == NewRow(i))
    && (forall i :: 0 <= i < n ==> Token(i) in s.signed && Token(i) in s.lineage)
  }

  // In flight are sign-ins lo .. hi - 1; but for lo, all are past the limit step.
  ghost predicate InFlight(s: Sys, m: nat, lo: nat, hi: nat) {
    && (forall r :: r in s.inFlight <==> lo <= r < hi)
    && (forall r :: r in s.inFlight && r != lo ==> s.inFlight[r] == SignNew(0, Dev(m + r)))
  }

  // Sessions 0 .. m + lo - 1 are stored; sign-ins lo .. hi - 1 are past the limit step.
  ghost predicate Parked(s: Sys, m: nat, lo: nat, hi: nat) {
    && lo <= hi && Stored(s, m + lo) && InFlight(s, m, lo, hi)
    && (forall j :: j in s.signed ==> j.tokenId < m + lo)
    && (lo in s.inFlight ==> s.inFlight[lo] == SignNew(0, Dev(m + lo)))
  }

  lemma ParkedLive(s: Sys, m: nat, lo: nat, hi: nat)
    requires Parked(s, m, lo, hi)
    ensures Live(s.table, 0, s.now) == Upto(m + lo) && |Live(s.table, 0, s.now)| == m + lo
  {
    assert Live(s.table, 0, s.now) == Upto(m + lo);
  }

  // Only sign-ins numbered below k are in flight.
  ghost predicate Busy(s: Sys, k: nat) {
    forall r :: r in s.inFlight ==> r < k && OfSignIn(s.inFlight[r]) && s.inFlight[r].user == 0
  }

  lemma BusyIsDisciplined(s: Sys, k: nat)
    requires Busy(s, k)
    ensures Disciplined(s, 0, k)
  {
    SubsetSize(SignInsOf(s, 0), Upto(k));
    assert RefreshesOf(s, 0) == {};
  }

  // ---- runs ------------------------------------------------------------------------------------

  lemma {:induction false} DisciplinedCompose(s: Sys, a: seq<Event>, b: seq<Event>, u: UserId, k: nat)
    requires DisciplinedRun(s, a, u, k) && DisciplinedRun(After(s, a), b, u, k)
    ensures DisciplinedRun(s, a + b, u, k) && After(s, a + b) == After(After(s, a), b)
    decreases |a|
  {
    if a == [] {
      assert a + b == b;
    } else {
      DisciplinedCompose(Step(s, a[0]), a[1..], b, u, k);
      assert (a + b)[0] == a[0] && (a + b)[1..] == a[1..] + b;
    }
  }

  lemma {:induction false} MoreAllowed(s: Sys, es: seq<Event>, u: UserId, k: nat, more: nat)
    requires DisciplinedRun(s, es, u, k) && k <= more
    ensures DisciplinedRun(s, es, u, more)
    decreases |es|
  {
    if es != [] {
      MoreAllowed(Step(s, es[0]), es[1..], u, k, more);
    }
  }

  lemma OneBusyStep(s: Sys, e: Event, k: nat)
    requires Busy(s, k) && Enabled(s, e) && Busy(Step(s, e), k)
    ensures DisciplinedRun(s, [e], 0, k) && After(s, [e]) == Step(s, e)
  {
    BusyIsDisciplined(s, k);
    BusyIsDisciplined(Step(s, e), k);
    assert [e][1..] == [];
    assert DisciplinedRun(Step(s, e), [], 0, k);
  }

  // State s with sign-in hi at phase p.
  function With(s: Sys, hi: RequestId, p: Phase): Sys {
    s.(inFlight := s.inFlight[hi := p])
  }

  lemma WithIsBusy(s: Sys, m: nat, hi: nat, k: nat, p: Phase)
    requires Parked(s, m, 0, hi) && hi < k && OfSignIn(p) && p.user == 0
    ensures Busy(s, k) && Busy(With(s, hi, p), k)
  {
  }

  lemma NoDeviceRows(s: Sys, m: nat, hi: nat, d: Device)
    requires Parked(s, m, 0, hi) && d == Dev(m + hi)
    ensures DeviceRows(s.table, 0, d) == {}
  {
    forall i: nat | i < m
      ensures Dev(i) != d
    {
      DevicesDiffer(i, m + hi);
    }
  }

  lemma FindsNoDevice(s: Sys, hi: RequestId, d: Device, e: Event)
    requires DeviceRows(s.table, 0, d) == {} && e == Proceed(hi, NullsLast, [], 0)
    ensures Enabled(With(s, hi, FindDevice(0, d)), e)
    ensures Step(With(s, hi, FindDevice(0, d)), e) == With(s, hi, FindActive(0, d))
  {
    assert s.inFlight[hi := FindDevice(0, d)][hi := FindActive(0, d)] == s.inFlight[hi := FindActive(0, d)];
  }

  lemma FindsRoom(s: Sys, hi: RequestId, d: Device, e: Event)
    requires e.Proceed? && e.r == hi && AnswersActiveQuery(s.table, 0, s.now, e.nulls, e.answer)
    requires |e.answer| < MAX_REFRESH_TOKENS_PER_USER
    ensures Enabled(With(s, hi, FindActive(0, d)), e)
    ensures Step(With(s, hi, FindActive(0, d)), e) == With(s, hi, SignNew(0, d))
  {
    assert s.inFlight[hi := FindActive(0, d)][hi := SignNew(0, d)] == s.inFlight[hi := SignNew(0, d)];
  }

  // One more sign-in starts, finds nothing to delete and passes the limit step.
  lemma ParkOne(s: Sys, m: nat, hi: nat, k: nat) returns (es: seq<Event>)
    requires Parked(s, m, 0, hi) && m < MAX_REFRESH_TOKENS_PER_USER && hi < k
    ensures DisciplinedRun(s, es, 0, k) && Parked(After(s, es), m, 0, hi + 1)
  {
    var d := Dev(m + hi);
    NoDeviceRows(s, m, hi, d);
    ParkedLive(s, m, 0, hi);
    var answer := ActiveQueryHasAnswer(s.table, 0, s.now, NullsLast);
    LimitLeavesRoom(s.table, 0, s.now, NullsLast, answer);
    es := ParkSteps(s, m, hi, k, d, answer);
    ParkedMore(s, m, hi, d);
  }

  lemma ParkSteps(s: Sys, m: nat, hi: nat, k: nat, d: Device, answer: seq<TokenId>) returns (es: seq<Event>)
    requires Parked(s, m, 0, hi) && hi < k && DeviceRows(s.table, 0, d) == {}
    requires AnswersActiveQuery(s.table, 0, s.now, NullsLast, answer) && |answer| < MAX_REFRESH_TOKENS_PER_USER
    ensures DisciplinedRun(s, es, 0, k) && After(s, es) == With(s, hi, SignNew(0, d))
  {
    var start, find, limit := StartSignIn(hi, 0, d), Proceed(hi, NullsLast, [], 0), Proceed(hi, NullsLast, answer, 0);
    WithIsBusy(s, m, hi, k, FindDevice(0, d));
    WithIsBusy(s, m, hi, k, FindActive(0, d));
    WithIsBusy(s, m, hi, k, SignNew(0, d));
    OneBusyStep(s, start, k);
    FindsNoDevice(s, hi, d, find);
    OneBusyStep(With(s, hi, FindDevice(0, d)), find, k);
    FindsRoom(s, hi, d, limit);
    OneBusyStep(With(s, hi, FindActive(0, d)), limit, k);
    DisciplinedCompose(With(s, hi, FindDevice(0, d)), [find], [limit], 0, k);
    DisciplinedCompose(s, [start], [find] + [limit], 0, k);
    es := [start] + ([find] + [limit]);
  }

  lemma ParkedMore(s: Sys, m: nat, hi: nat, d: Device)
    requires Parked(s, m, 0, hi) && d == Dev(m + hi)
    ensures Parked(With(s, hi, SignNew(0, d)), m, 0, hi + 1)
  {
  }

  // One of the waiting sign-ins stores its row.
  lemma UnparkOne(s: Sys, m: nat, lo: nat, hi: nat, k: nat) returns (es: seq<Event>)
    requires Parked(s, m, lo, hi) && lo < hi <= k
    ensures DisciplinedRun(s, es, 0, k) && Parked(After(s, es), m, lo + 1, hi)
  {
    var proceed := Proceed(lo, NullsLast, [], m + lo);
    var s1 := Signing(s, m, lo, hi);
    var s2 := Storing(s1, m, lo, hi);
    UnparkingIsBusy(s, s1, s2, m, lo, hi, k);
    OneBusyStep(s, proceed, k);
    OneBusyStep(s1, proceed, k);
    DisciplinedCompose(s, [proceed], [proceed], 0, k);
    es := [proceed] + [proceed];
  }

  lemma UnparkingIsBusy(s: Sys, s1: Sys, s2: Sys, m: nat, lo: nat, hi: nat, k: nat)
    requires Parked(s, m, lo, hi) && lo < hi <= k && Unparking(s1, m, lo, hi) && Parked(s2, m, lo + 1, hi)
    ensures Busy(s, k) && Busy(s1, k) && Busy(s2, k)
  {
  }

  // As Parked, with sign-in lo between its last two statements.
  ghost predicate Unparking(s: Sys, m: nat, lo: nat, hi: nat) {
    && lo < hi && Stored(s, m + lo) && InFlight(s, m, lo, hi)
    && (forall j :: j in s.signed ==> j.tokenId <= m + lo)
    && Token(m + lo) in s.signed
    && s.inFlight[lo] == CreateRow(0, Dev(m + lo), Token(m + lo))
  }

  lemma Signing(s: Sys, m: nat, lo: nat, hi: nat) returns (s': Sys)
    requires Parked(s, m, lo, hi) && lo < hi
    ensures Enabled(s, Proceed(lo, NullsLast, [], m + lo)) && s' == Step(s, Proceed(lo, NullsLast, [], m + lo))
    ensures Unparking(s', m, lo, hi)
  {
    var e := Proceed(lo, NullsLast, [], m + lo);
    s' := Step(s, e);
    LoudStepIs(s, e);
    SignedIsUnparking(s, s', m, lo, hi);
  }

  lemma SignedIsUnparking(s: Sys, s': Sys, m: nat, lo: nat, hi: nat)
    requires Parked(s, m, lo, hi) && lo < hi
    requires s' == SignStatement(s, lo, CreateRow(0, Dev(m + lo), Token(m + lo)))
    ensures Unparking(s', m, lo, hi)
  {
    assert forall r :: r in s'.inFlight <==> r in s.inFlight;
  }

  lemma Storing(s: Sys, m: nat, lo: nat, hi: nat) returns (s': Sys)
    requires Unparking(s, m, lo, hi)
    ensures Enabled(s, Proceed(lo, NullsLast, [], m + lo)) && s' == Step(s, Proceed(lo, NullsLast, [], m + lo))
    ensures Parked(s', m, lo + 1, hi)
  {
    var e := Proceed(lo, NullsLast, [], m + lo);
    s' := Step(s, e);
    LoudStepIs(s, e);
    StoredIsParked(s, s', m, lo, hi);
  }

  lemma StoredIsParked(s: Sys, s': Sys, m: nat, lo: nat, hi: nat)
    requires Unparking(s, m, lo, hi) && s' == CreateStatement(s, lo, Token(m + lo), Dev(m + lo))
    ensures Parked(s', m, lo + 1, hi)
  {
    OneMoreStored(s, s', m + lo, lo);
    assert forall r :: r in s'.inFlight <==> r in s.inFlight && r != lo;
    assert InFlight(s', m, lo + 1, hi);
  }

  lemma OneMoreStored(s: Sys, s': Sys, id: nat, r: RequestId)
    requires Stored(s, id) && Token(id) in s.signed && s' == CreateStatement(s, r, Token(id), Dev(id))
    ensures Stored(s', id + 1)
  {
    OneMoreRow(s.table, id);
    OneMoreDelivered(s, s', id);
  }

  lemma OneMoreRow(t: Table, id: nat)
    requires forall i :: i in t <==> 0 <= i < id
    requires forall i :: i in t ==> t[i] == NewRow(i)
    ensures var t' := Create(t, Token(id), Dev(id), 0);
            (forall i :: i in t' <==> 0 <= i < id + 1) && (forall i :: i in t' ==> t'[i] == NewRow(i))
  {
  }

  lemma OneMoreDelivered(s: Sys, s': Sys, id: nat)
    requires forall i :: 0 <= i < id ==> Token(i) in s.signed && Token(i) in s.lineage
    requires Token(id) in s.signed && s'.signed == s.signed && s'.lineage.Keys == s.lineage.Keys + {Token(id)}
    ensures forall i :: 0 <= i < id + 1 ==> Token(i) in s'.signed && Token(i) in s'.lineage
  {
  }

  lemma {:induction false} ParkAll(s: Sys, m: nat, hi: nat, k: nat) returns (es: seq<Event>)
    requires Parked(s, m, 0, hi) && m < MAX_REFRESH_TOKENS_PER_USER && hi <= k
    ensures DisciplinedRun(s, es, 0, k) && Parked(After(s, es), m, 0, k)
    decreases k - hi
  {
    if hi == k {
      es := [];
      BusyIsDisciplined(s, k);
    } else {
      var first := ParkOne(s, m, hi, k);
      var rest := ParkAll(After(s, first), m, hi + 1, k);
      DisciplinedCompose(s, first, rest, 0, k);
      es := first + rest;
    }
  }

  lemma {:induction false} UnparkAll(s: Sys, m: nat, lo: nat, k: nat) returns (es: seq<Event>)
    requires Parked(s, m, lo, k)
    ensures DisciplinedRun(s, es, 0, k) && Parked(After(s, es), m, k, k)
    decreases k - lo
  {
    if lo == k {
      es := [];
      BusyIsDisciplined(s, k);
    } else {
      var first := UnparkOne(s, m, lo, k, k);
      var rest := UnparkAll(After(s, first), m, lo + 1, k);
      DisciplinedCompose(s, first, rest, 0, k);
      es := first + rest;
    }
  }

  // k overlapping sign-ins find m < MAX sessions and none of them deletes any.
  lemma Overlapping(s: Sys, m: nat, k: nat) returns (es: seq<Event>)
    requires Parked(s, m, 0, 0) && m < MAX_REFRESH_TOKENS_PER_USER
    ensures DisciplinedRun(s, es, 0, k) && Parked(After(s, es), m + k, 0, 0)
  {
    var park := ParkAll(s, m, 0, k);
    var store := UnparkAll(After(s, park), m, 0, k);
    DisciplinedCompose(s, park, store, 0, k);
    es := park + store;
  }

  lemma {:induction false} FillUp(m: nat) returns (es: seq<Event>)
    requires m <= MAX_REFRESH_TOKENS_PER_USER
    ensures DisciplinedRun(INIT, es, 0, 1) && Parked(After(INIT, es), m, 0, 0)
    decreases m
  {
    if m == 0 {
      es := [];
      BusyIsDisciplined(INIT, 1);
    } else {
      var before := FillUp(m - 1);
      var last := Overlapping(After(INIT, before), m - 1, 1);
      DisciplinedCompose(INIT, before, last, 0, 1);
      es := before + last;
    }
  }

  // The bound of ConcurrentSessionBound is reached, for every K >= 1.
  lemma BoundIsReached(k: nat) returns (es: seq<Event>)
    requires k >= 1
    ensures DisciplinedRun(INIT, es, 0, k)
    ensures |Live(After(INIT, es).table, 0, After(INIT, es).now)| == MAX_REFRESH_TOKENS_PER_USER - 1 + k
  {
    var m := MAX_REFRESH_TOKENS_PER_USER - 1;
    var before := FillUp(m);
    MoreAllowed(INIT, before, 0, 1, k);
    var last := Overlapping(After(INIT, before), m, k);
    DisciplinedCompose(INIT, before, last, 0, k);
    es := before + last;
    ParkedLive(After(INIT, es), m + k, 0, 0);
  }

  // ---- an escaping rotation -----------------------------------------------------------------------

  // One sign-in of the user at a time and at most n escaping rotations, whatever else is in flight.
  ghost predicate Few(s: Sys, es: seq<Event>, n: nat) {
    Crowded(s, es, 0, 1) && forall looked: nat :: Escapes(s, es, 0, looked) <= n
  }

  lemma {:induction false} CrowdedCompose(s: Sys, a: seq<Event>, b: seq<Event>, u: UserId, k: nat)
    requires Crowded(s, a, u, k) && Crowded(After(s, a), b, u, k)
    ensures Crowded(s, a + b, u, k) && After(s, a + b) == After(After(s, a), b)
    decreases |a|
  {
    if a == [] {
      assert a + b == b;
    } else {
      CrowdedCompose(Step(s, a[0]), a[1..], b, u, k);
      assert (a + b)[0] == a[0] && (a + b)[1..] == a[1..] + b;
    }
  }

  lemma {:induction false} EscapesCompose(s: Sys, a: seq<Event>, b: seq<Event>, u: UserId, looked: nat)
    ensures Escapes(s, a + b, u, looked) ==
            Escapes(s, a, u, looked) + Escapes(After(s, a), b, u, LookedAfter(s, a, u, looked))
    decreases |a|
  {
    if a == [] {
      assert a + b == b;
    } else {
      EscapesCompose(Step(s, a[0]), a[1..], b, u, LastLook(s, a[0], u, looked));
      assert (a + b)[0] == a[0] && (a + b)[1..] == a[1..] + b;
    }
  }

  lemma FewCompose(s: Sys, a: seq<Event>, b: seq<Event>, m: nat, n: nat)
    requires Few(s, a, m) && Few(After(s, a), b, n)
    ensures Few(s, a + b, m + n) && After(s, a + b) == After(After(s, a), b)
  {
    CrowdedCompose(s, a, b, 0, 1);
    forall looked: nat
      ensures Escapes(s, a + b, 0, looked) <= m + n
    {
      EscapesCompose(s, a, b, 0, looked);
    }
  }

  predicate SignInIsZero(s: Sys) {
    forall r :: r in s.inFlight && OfSignIn(s.inFlight[r]) ==> r == 0
  }

  lemma Single(s: Sys)
    requires SignInIsZero(s)
    ensures |SignInsOf(s, 0)| <= 1
  {
    SubsetSize(SignInsOf(s, 0), {0});
  }

  lemma Next(s: Sys, e: Event, s': Sys, n: nat) returns (es: seq<Event>)
    requires Enabled(s, e) && s' == Step(s, e) && SignInIsZero(s) && SignInIsZero(s')
    requires Rotates(s, e) ==> n == 1
    ensures Few(s, es, n) && After(s, es) == s'
  {
    es := [e];
    Single(s);
    Single(s');
    assert es[1..] == [];
    assert Crowded(s', [], 0, 1);
    forall looked: nat
      ensures Escapes(s, es, 0, looked) <= n
    {
      assert Escapes(s', [], 0, LastLook(s, e, 0, looked)) == 0;
    }
  }

  // The sign-in has chosen session 0 to make room and is about to delete it.
  lemma ChooseVictim(s: Sys) returns (es: seq<Event>)
    requires Parked(s, 5, 0, 0)
    ensures Few(s, es, 0) && After(s, es) == With(s, 0, DeleteOldest(0, Dev(5), {0}))
  {
    NoDeviceRows(s, 5, 0, Dev(5));
    ParkedLive(s, 5, 0, 0);
    NeverUsed(s, 5);
    var answer := InOrder(s.table, s.now);
    es := ChoiceStatements(s, Dev(5), answer);
  }

  lemma ChoiceStatements(s: Sys, d: Device, answer: seq<TokenId>) returns (es: seq<Event>)
    requires s.inFlight == map[] && DeviceRows(s.table, 0, d) == {}
    requires AnswersActiveQuery(s.table, 0, s.now, NullsLast, answer)
    requires TokensToRemove(answer) != [] && Elements(TokensToRemove(answer)) == {0}
    ensures Few(s, es, 0) && After(s, es) == With(s, 0, DeleteOldest(0, d, {0}))
  {
    var find, limit := Proceed(0, NullsLast, [], 0), Proceed(0, NullsLast, answer, 0);
    var a := Next(s, StartSignIn(0, 0, d), With(s, 0, FindDevice(0, d)), 0);
    FindsNoDevice(s, 0, d, find);
    var b := Next(With(s, 0, FindDevice(0, d)), find, With(s, 0, FindActive(0, d)), 0);
    assert s.inFlight[0 := FindActive(0, d)][0 := DeleteOldest(0, d, {0})] == s.inFlight[0 := DeleteOldest(0, d, {0})];
    var c := Next(With(s, 0, FindActive(0, d)), limit, With(s, 0, DeleteOldest(0, d, {0})), 0);
    FewCompose(With(s, 0, FindDevice(0, d)), b, c, 0, 0);
    FewCompose(s, a, b + c, 0, 0);
    es := a + (b + c);
  }

  lemma InOrder(t: Table, now: nat) returns (answer: seq<TokenId>)
    requires Live(t, 0, now) == Upto(5) && forall i :: i in t ==> t[i].lastUsedAt == None
    ensures AnswersActiveQuery(t, 0, now, NullsLast, answer)
    ensures TokensToRemove(answer) != [] && Elements(TokensToRemove(answer)) == {0}
  {
    answer := seq(5, i => i);
    CountsUp(answer);
    UnusedInAnyOrder(t, 0, now, NullsLast, answer);
    assert TokensToRemove(answer) == [] + [0];
    ElementsAppend<TokenId>([], 0);
  }

  lemma NeverUsed(s: Sys, n: nat)
    requires Stored(s, n)
    ensures forall i :: i in s.table ==> s.table[i].lastUsedAt == None
  {
  }

  lemma UnusedInAnyOrder(t: Table, u: UserId, now: nat, nulls: NullPlacement, answer: seq<TokenId>)
    requires forall i :: i in t ==> t[i].lastUsedAt == None
    requires Distinct(answer) && Elements(answer) == Live(t, u, now)
    ensures AnswersActiveQuery(t, u, now, nulls, answer)
  {
  }

  lemma CountsUp(answer: seq<TokenId>)
    requires |answer| == 5 && forall i :: 0 <= i < 5 ==> answer[i] == i
    ensures Distinct(answer) && Elements(answer) == Upto(5)
  {
    forall i: nat | i in Upto(5)
      ensures i in Elements(answer)
    {
      assert answer[i] == i;
    }
  }

  // Session 0 refreshes: its row leaves the id the sign-in is about to delete.
  lemma VictimRotates(s: Sys, p: Phase) returns (es: seq<Event>)
    requires Stored(s, 5) && s.inFlight == map[0 := p] && OfSignIn(p)
    requires forall j :: j in s.signed ==> j.tokenId < 5
    ensures Few(s, es, 1)
    ensures var s' := After(s, es);
            && s'.now == 0 && s'.inFlight == map[0 := p]
            && s'.table == Rotate(Touch(s.table, 0, Dev(0), 0), 0, Token(5), Dev(0), 0)
            && (forall j :: j in s'.signed ==> j.tokenId < 6)
  {
    var touched := VictimTouched(s, p);
    var stored := VictimStored(After(s, touched), p);
    FewCompose(s, touched, stored, 0, 1);
    es := touched + stored;
  }

  lemma VictimStored(s: Sys, p: Phase) returns (es: seq<Event>)
    requires s.now == 0 && OfSignIn(p) && s.inFlight == map[0 := p, 1 := SignRotated(Token(0), 0, Dev(0))]
    requires 0 in s.table && forall j :: j in s.signed ==> j.tokenId < 5
    ensures Few(s, es, 1)
    ensures var s' := After(s, es);
            && s'.now == 0 && s'.inFlight == map[0 := p]
            && s'.table == Rotate(s.table, 0, Token(5), Dev(0), 0)
            && (forall j :: j in s'.signed ==> j.tokenId < 6)
  {
    var proceed := Proceed(1, NullsLast, [], 5);
    var s1 := SignStatement(s, 1, RotateRow(Token(0), 0, Dev(0), Token(5)));
    var a := Next(s, proceed, s1, 0);
    var s2 := RotateStatement(s1, 1, Token(0), Token(5), Dev(0));
    var b := Next(s1, proceed, s2, 1);
    assert s2.inFlight == map[0 := p];
    FewCompose(s, a, b, 0, 1);
    es := a + b;
  }

  lemma VictimTouched(s: Sys, p: Phase) returns (es: seq<Event>)
    requires Stored(s, 5) && s.inFlight == map[0 := p] && OfSignIn(p)
    ensures Few(s, es, 0)
    ensures After(s, es) == With(s, 1, SignRotated(Token(0), 0, Dev(0))).(table := Touch(s.table, 0, Dev(0), 0))
  {
    var jwt, d := Token(0), Dev(0);
    var found := VictimFound(s, p);
    var s2 := With(s, 1, TouchToken(jwt, 0, d));
    assert s2.inFlight[1 := SignRotated(jwt, 0, d)] == s.inFlight[1 := SignRotated(jwt, 0, d)];
    var touch := Next(s2, Proceed(1, NullsLast, [], 5), TouchStatement(s2, 1, jwt, 0, d), 0);
    FewCompose(s, found, touch, 0, 0);
    es := found + touch;
  }

  lemma VictimFound(s: Sys, p: Phase) returns (es: seq<Event>)
    requires Stored(s, 5) && s.inFlight == map[0 := p] && OfSignIn(p)
    ensures Few(s, es, 0)
    ensures After(s, es) == With(s, 1, TouchToken(Token(0), 0, Dev(0)))
  {
    var jwt, d := Token(0), Dev(0);
    var s1, s2 := With(s, 1, FindToken(jwt, d)), With(s, 1, TouchToken(jwt, 0, d));
    var a := Next(s, StartRefresh(1, jwt, d), s1, 0);
    assert s.inFlight[1 := FindToken(jwt, d)][1 := TouchToken(jwt, 0, d)] == s.inFlight[1 := TouchToken(jwt, 0, d)];
    var b := Next(s1, Proceed(1, NullsLast, [], 5), s2, 0);
    FewCompose(s, a, b, 0, 0);
    es := a + b;
  }

  // The sign-in deletes nothing and stores its row.
  lemma SignInFinishes(s: Sys) returns (es: seq<Event>)
    requires s.now == 0 && s.inFlight == map[0 := DeleteOldest(0, Dev(5), {0})] && 0 !in s.table
    requires forall j :: j in s.signed ==> j.tokenId < 6
    ensures Few(s, es, 0)
    ensures After(s, es).table == Create(s.table, Token(6), Dev(5), 0) && After(s, es).now == 0
  {
    var d, proceed := Dev(5), Proceed(0, NullsLast, [], 6);
    assert s.table - {0} == s.table;
    var s1 := With(s, 0, SignNew(0, d));
    var a := Next(s, proceed, s1, 0);
    var s2 := SignStatement(s1, 0, CreateRow(0, d, Token(6)));
    var b := Next(s1, proceed, s2, 0);
    var s3 := CreateStatement(s2, 0, Token(6), d);
    var c := Next(s2, proceed, s3, 0);
    FewCompose(s1, b, c, 0, 0);
    FewCompose(s, a, b + c, 0, 0);
    es := a + (b + c);
  }

  // One sign-in at a time, one escaping rotation: exactly one session over the limit.
  lemma OverlappingRefreshPassesLimit() returns (es: seq<Event>)
    ensures Crowded(INIT, es, 0, 1) && Escapes(INIT, es, 0, 0) == 1
    ensures |Live(After(INIT, es).table, 0, After(INIT, es).now)| == MAX_REFRESH_TOKENS_PER_USER + 1
  {
    var fill := FillUp(5);
    var s := After(INIT, fill);
    var escape := OneEscape(s);
    DisciplinedIsCrowded(INIT, fill, 0, 1);
    CrowdedCompose(INIT, fill, escape, 0, 1);
    es := fill + escape;
    InitInv();
    DisciplinedDoNotEscape(INIT, fill, 0, 1, 0);
    EscapesCompose(INIT, fill, escape, 0, 0);
    ConcurrentSessionBound(es, 0, 1);
  }

  lemma OneEscape(s: Sys) returns (es: seq<Event>)
    requires Parked(s, 5, 0, 0)
    ensures Few(s, es, 1)
    ensures |Live(After(s, es).table, 0, After(s, es).now)| == 6
  {
    var choose := ChooseVictim(s);
    var s1 := After(s, choose);
    assert s1.inFlight == map[0 := DeleteOldest(0, Dev(5), {0})];
    var rotate := VictimRotates(s1, DeleteOldest(0, Dev(5), {0}));
    var s2 := After(s1, rotate);
    var finish := SignInFinishes(s2);
    FewCompose(s1, rotate, finish, 1, 0);
    FewCompose(s, choose, rotate + finish, 0, 1);
    es := choose + (rotate + finish);
    SixLive(s.table, After(s, es).table);
  }

  lemma SixLive(t: Table, t': Table)
    requires (forall i :: i in t <==> 0 <= i < 5) && (forall i :: i in t ==> t[i] == NewRow(i))
    requires t' == Create(Rotate(Touch(t, 0, Dev(0), 0), 0, Token(5), Dev(0), 0), Token(6), Dev(5), 0)
    ensures |Live(t', 0, 0)| == 6
  {
    assert Live(t', 0, 0) == {1, 2, 3, 4, 5, 6};
  }
}
