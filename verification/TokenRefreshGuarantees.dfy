/**
 What the refresher keeps in every reachable state, for any order of responses,
 failures, timers, sign-ins and sign-outs.
 */
module TokenRefreshGuarantees {
  import opened Wrappers
  import opened TokenRefresh

  // ---- single flight and latch -----------------------------------------------------

  ghost predicate SingleFlight(s: State) {
    && (s.isRefreshing <==> s.outstanding != map[])
    && (forall c, d :: c in s.outstanding && d in s.outstanding ==> c == d)
    && (forall c :: c in s.outstanding ==> c < s.calls)
  }

  ghost predicate Latch(s: State) {
    && (s.hasRefreshFailed <==> s.lastRefreshError.Some?)
    && !(s.isRefreshing && s.hasRefreshFailed)
  }

  // ---- the queue ---------------------------------------------------------------------

  // Queued requests are settled in arrival order, each once, and always by a replay.
  ghost predicate QueueInOrder(s: State) {
    && |s.settled| <= |s.arrivals|
    && s.settled == SettleAll(s.arrivals[..|s.settled|], None)
    && s.failedQueue == s.arrivals[|s.settled|..]
  }

  ghost predicate ReactiveOut(s: State) {
    exists c :: c in s.outstanding && s.outstanding[c].Reactive?
  }

  // Unless a reactive refresh is out, exactly the requests that arrived during a
  // proactive refresh are waiting.
  ghost predicate MissedWait(s: State) {
    if ReactiveOut(s) then s.missed <= s.failedQueue else s.failedQueue == s.missed
  }

  // ---- every entry is accounted for once -----------------------------------------------

  function Upto(n: nat): seq<Entry> {
    seq(n, i => i)
  }

  function ThrownEntries(ts: seq<Thrown>): seq<Entry> {
    seq(|ts|, i requires 0 <= i < |ts| => ts[i].entry)
  }

  function SettledEntries(ss: seq<Settlement>): seq<Entry> {
    seq(|ss|, i requires 0 <= i < |ss| => ss[i].entry)
  }

  function QueuedEntries(qs: seq<QueuedRequest>): seq<Entry> {
    seq(|qs|, i requires 0 <= i < |qs| => qs[i].entry)
  }

  ghost function LeaderAmong(calls: map<CallId, Call>): multiset<Entry> {
    if exists c :: c in calls && calls[c].Reactive? then
      var c :| c in calls && calls[c].Reactive?;
      multiset{calls[c].entry}
    else multiset{}
  }

  ghost function Accounted(s: State): multiset<Entry> {
    multiset(ThrownEntries(s.thrown)) + LeaderAmong(s.outstanding) + multiset(SettledEntries(s.led))
    + multiset(SettledEntries(s.settled)) + multiset(QueuedEntries(s.failedQueue))
  }

  ghost predicate EachEntryOnce(s: State) {
    Accounted(s) == multiset(Upto(s.entries))
  }

  // ---- the keep-alive chain ---------------------------------------------------------------

  ghost predicate TimersNumbered(s: State) {
    && (forall t :: t in s.timers ==> t < s.timersMade)
    && (s.proactiveRefreshInterval.Some? ==> s.proactiveRefreshInterval.value < s.timersMade)
  }

  ghost predicate ChainAlive(s: State) {
    s.keepAlive && s.outstanding == map[] ==>
      exists t :: t in s.timers && s.timers[t] < s.grantedUntil
  }

  ghost predicate ChainNotFailed(s: State) {
    s.keepAlive ==> !s.hasRefreshFailed
  }

  ghost predicate Inv(s: State) {
    && SingleFlight(s) && Latch(s)
    && QueueInOrder(s) && MissedWait(s) && EachEntryOnce(s)
    && TimersNumbered(s) && ChainAlive(s) && ChainNotFailed(s)
  }

  ghost predicate Flags(s: State) {
    SingleFlight(s) && Latch(s) && TimersNumbered(s) && ChainAlive(s) && ChainNotFailed(s)
  }

  // ---- steps -----------------------------------------------------------------------------------

  // The call that answers is the only one.
  lemma OnlyCall(s: State, call: CallId)
    requires SingleFlight(s) && call in s.outstanding
    ensures s.outstanding - {call} == map[]
    ensures ReactiveOut(s) <==> s.outstanding[call].Reactive?
    ensures ProactiveOut(s) <==> s.outstanding[call].Proactive?
  {
  }

  lemma ScheduleIsInTime(s: State, expiresIn: nat)
    ensures expiresIn >= 2 <==> s.now + RefreshIntervalMs(expiresIn) < s.now + expiresIn * 1000
    ensures Schedule(s, expiresIn).timers[s.timersMade] == s.now + RefreshIntervalMs(expiresIn)
  {
  }

  lemma ScheduleKeepsChain(s: State, expiresIn: nat)
    requires TimersNumbered(s)
    ensures var s' := Schedule(s, expiresIn); TimersNumbered(s') && ChainAlive(s')
  {
    ScheduleIsInTime(s, expiresIn);
    assert s.timersMade in Schedule(s, expiresIn).timers;
  }

  lemma EnterKeepsFlags(s: State, config: Config)
    requires Flags(s)
    ensures Flags(Enter(s, config))
  {
    if EnterOutcome(s).Leads? {
      assert s.calls in Enter(s, config).outstanding;
    }
  }

  lemma AnswerKeepsFlags(s: State, call: CallId, expiresIn: nat)
    requires Flags(s) && call in s.outstanding
    ensures Flags(Succeed(s, call, expiresIn))
  {
    OnlyCall(s, call);
    ScheduleKeepsChain(ProcessQueue(s.(outstanding := s.outstanding - {call}), None), expiresIn);
    ScheduleKeepsChain(s.(outstanding := s.outstanding - {call}), expiresIn);
  }

  lemma FailureKeepsFlags(s: State, call: CallId, error: RefreshError)
    requires Flags(s) && call in s.outstanding
    ensures Flags(Fail(s, call, error))
  {
    OnlyCall(s, call);
  }

  lemma TimerKeepsFlags(s: State, t: TimerId)
    requires Flags(s)
    ensures Flags(FireTimer(s, t))
  {
    if !s.hasRefreshFailed && !s.isRefreshing {
      assert s.calls in FireTimer(s, t).outstanding;
    }
  }

  lemma UserDataKeepsFlags(s: State, user: Option<User>, expiresIn: Option<nat>)
    requires Flags(s)
    ensures Flags(SetUserData(s, user, expiresIn))
  {
    if user.Some? && expiresIn.Some? {
      ScheduleKeepsChain(StopProactiveRefresh(ResetRefreshFailureState(s)), expiresIn.value);
    }
  }

  lemma StepKeepsFlags(s: State, e: Event)
    requires Flags(s) && Enabled(s, e)
    ensures Flags(Step(s, e))
  {
    match e
    case Unauthorized(config) => EnterKeepsFlags(s, config);
    case RefreshAnswered(c, expiresIn) => AnswerKeepsFlags(s, c, expiresIn);
    case RefreshFailed(c, error) => FailureKeepsFlags(s, c, error);
    case TimerFires(t) => TimerKeepsFlags(s, t);
    case UserDataSet(user, grant) => UserDataKeepsFlags(s, user, grant);
    case InterceptorCatches => UserDataKeepsFlags(s, None, None);
    case Tick(ms) =>
  }

  ghost predicate Queues(s: State) {
    QueueInOrder(s) && MissedWait(s)
  }

  lemma SettleAllAppend(a: seq<QueuedRequest>, b: seq<QueuedRequest>)
    ensures SettleAll(a + b, None) == SettleAll(a, None) + SettleAll(b, None)
  {
  }

  lemma EnterKeepsQueues(s: State, config: Config)
    requires SingleFlight(s) && Queues(s)
    ensures Queues(Enter(s, config))
  {
    var s' := Enter(s, config);
    match EnterOutcome(s)
    case Threw(_) =>
    case Queued =>
      var c :| c in s.outstanding;
      OnlyCall(s, c);
      assert s'.arrivals[..|s.settled|] == s.arrivals[..|s.settled|];
    case Leads(call) =>
      assert s'.outstanding[call].Reactive?;
  }

  // Draining settles everything that is queued.
  lemma DrainKeepsOrder(s: State)
    requires QueueInOrder(s)
    ensures QueueInOrder(ProcessQueue(s, None))
  {
    var s' := ProcessQueue(s, None);
    SettleAllAppend(s.arrivals[..|s.settled|], s.arrivals[|s.settled|..]);
    assert s.arrivals == s.arrivals[..|s.settled|] + s.arrivals[|s.settled|..];
    assert s'.arrivals[..|s'.settled|] == s'.arrivals;
  }

  lemma AnswerKeepsQueues(s: State, call: CallId, expiresIn: nat)
    requires SingleFlight(s) && Queues(s) && call in s.outstanding
    ensures Queues(Succeed(s, call, expiresIn))
  {
    OnlyCall(s, call);
    DrainKeepsOrder(s);
  }

  lemma FailureKeepsQueues(s: State, call: CallId, error: RefreshError)
    requires SingleFlight(s) && Latch(s) && Queues(s) && call in s.outstanding
    ensures Queues(Fail(s, call, error))
  {
    OnlyCall(s, call);
    DrainKeepsOrder(s);
  }

  lemma TimerKeepsQueues(s: State, t: TimerId)
    requires SingleFlight(s) && Queues(s)
    ensures Queues(FireTimer(s, t))
  {
  }

  // Signing in and out touches no request.
  lemma UserDataKeepsRequests(s: State, user: Option<User>, expiresIn: Option<nat>)
    ensures SameRequests(s, SetUserData(s, user, expiresIn))
  {
    assert SameRequests(s, StopProactiveRefresh(s));
    var reset := ResetRefreshFailureState(s);
    assert SameRequests(s, reset) && SameRequests(reset, StopProactiveRefresh(reset));
  }

  ghost predicate SameRequests(s: State, s': State) {
    && s'.outstanding == s.outstanding && s'.isRefreshing == s.isRefreshing && s'.calls == s.calls
    && s'.failedQueue == s.failedQueue && s'.missed == s.missed
    && s'.arrivals == s.arrivals && s'.settled == s.settled
    && s'.entries == s.entries && s'.thrown == s.thrown && s'.led == s.led
  }

  lemma StepKeepsQueues(s: State, e: Event)
    requires SingleFlight(s) && Latch(s) && Queues(s) && Enabled(s, e)
    ensures Queues(Step(s, e))
  {
    match e
    case Unauthorized(config) => EnterKeepsQueues(s, config);
    case RefreshAnswered(c, expiresIn) => AnswerKeepsQueues(s, c, expiresIn);
    case RefreshFailed(c, error) => FailureKeepsQueues(s, c, error);
    case TimerFires(t) => TimerKeepsQueues(s, t);
    case UserDataSet(user, grant) => UserDataKeepsRequests(s, user, grant);
    case InterceptorCatches => UserDataKeepsRequests(s, None, None);
    case Tick(ms) =>
  }

  // ---- accounting ----------------------------------------------------------------------------------

  lemma UptoNext(n: nat)
    ensures multiset(Upto(n + 1)) == multiset(Upto(n)) + multiset{n}
  {
    assert Upto(n + 1) == Upto(n) + [n];
  }

  lemma LeaderIs(s: State, call: CallId)
    requires SingleFlight(s) && call in s.outstanding && s.outstanding[call].Reactive?
    ensures LeaderAmong(s.outstanding) == multiset{s.outstanding[call].entry}
  {
  }

  lemma EnterLeads(s: State, config: Config)
    requires SingleFlight(s) && EnterOutcome(s).Leads?
    ensures LeaderAmong(s.outstanding) == multiset{}
    ensures LeaderAmong(Enter(s, config).outstanding) == multiset{s.entries}
  {
    assert s.outstanding == map[];
    var calls := Enter(s, config).outstanding;
    assert calls[s.calls].Reactive?;
  }

  lemma OneMoreEntry(es: seq<Entry>, e: Entry)
    ensures multiset(es + [e]) == multiset(es) + multiset{e}
  {
  }

  lemma AddToFirst(
    a: multiset<Entry>, b: multiset<Entry>, c: multiset<Entry>, d: multiset<Entry>, e: multiset<Entry>,
    x: multiset<Entry>)
    ensures (a + x) + b + c + d + e == (a + b + c + d + e) + x
  {
  }

  lemma AddToLast(
    a: multiset<Entry>, b: multiset<Entry>, c: multiset<Entry>, d: multiset<Entry>, e: multiset<Entry>,
    x: multiset<Entry>)
    ensures a + b + c + d + (e + x) == (a + b + c + d + e) + x
  {
  }

  lemma ThrownAppend(ts: seq<Thrown>, t: Thrown)
    ensures multiset(ThrownEntries(ts + [t])) == multiset(ThrownEntries(ts)) + multiset{t.entry}
  {
    assert ThrownEntries(ts + [t]) == ThrownEntries(ts) + [t.entry];
    OneMoreEntry(ThrownEntries(ts), t.entry);
  }

  lemma ThrowAccounts(s: State, s': State, t: Thrown)
    requires EachEntryOnce(s) && t.entry == s.entries && s'.entries == s.entries + 1
    requires s'.thrown == s.thrown + [t] && s'.outstanding == s.outstanding && s'.led == s.led
    requires s'.settled == s.settled && s'.failedQueue == s.failedQueue
    ensures EachEntryOnce(s')
  {
    UptoNext(s.entries);
    ThrownAppend(s.thrown, t);
    AddToFirst(multiset(ThrownEntries(s.thrown)), LeaderAmong(s.outstanding), multiset(SettledEntries(s.led)),
               multiset(SettledEntries(s.settled)), multiset(QueuedEntries(s.failedQueue)), multiset{s.entries});
  }

  lemma QueuedAppend(qs: seq<QueuedRequest>, q: QueuedRequest)
    ensures multiset(QueuedEntries(qs + [q])) == multiset(QueuedEntries(qs)) + multiset{q.entry}
  {
    assert QueuedEntries(qs + [q]) == QueuedEntries(qs) + [q.entry];
    OneMoreEntry(QueuedEntries(qs), q.entry);
  }

  lemma QueueAccounts(s: State, s': State, q: QueuedRequest)
    requires EachEntryOnce(s) && q.entry == s.entries && s'.entries == s.entries + 1
    requires s'.failedQueue == s.failedQueue + [q] && s'.outstanding == s.outstanding && s'.led == s.led
    requires s'.settled == s.settled && s'.thrown == s.thrown
    ensures EachEntryOnce(s')
  {
    UptoNext(s.entries);
    QueuedAppend(s.failedQueue, q);
    AddToLast(multiset(ThrownEntries(s.thrown)), LeaderAmong(s.outstanding), multiset(SettledEntries(s.led)),
              multiset(SettledEntries(s.settled)), multiset(QueuedEntries(s.failedQueue)), multiset{s.entries});
  }

  lemma LeadAccounts(s: State, config: Config)
    requires SingleFlight(s) && EachEntryOnce(s) && EnterOutcome(s).Leads?
    ensures EachEntryOnce(Enter(s, config))
  {
    UptoNext(s.entries);
    EnterLeads(s, config);
  }

  lemma EnterAccounts(s: State, config: Config)
    requires SingleFlight(s) && EachEntryOnce(s)
    ensures EachEntryOnce(Enter(s, config))
  {
    match EnterOutcome(s)
    case Threw(error) => ThrowAccounts(s, Enter(s, config), Thrown(s.entries, error));
    case Queued => QueueAccounts(s, Enter(s, config), QueuedRequest(s.entries, config));
    case Leads(_) => LeadAccounts(s, config);
  }

  // Draining moves the queued entries to the settled ones.
  lemma DrainAccounts(settled: seq<Settlement>, queue: seq<QueuedRequest>, error: Option<RefreshError>)
    ensures multiset(SettledEntries(settled + SettleAll(queue, error))) + multiset(QueuedEntries([]))
            == multiset(SettledEntries(settled)) + multiset(QueuedEntries(queue))
  {
    assert SettledEntries(settled + SettleAll(queue, error)) == SettledEntries(settled) + QueuedEntries(queue);
    assert QueuedEntries([]) == [];
  }

  lemma SettledAppend(ss: seq<Settlement>, x: Settlement)
    ensures multiset(SettledEntries(ss + [x])) == multiset(SettledEntries(ss)) + multiset{x.entry}
  {
    assert SettledEntries(ss + [x]) == SettledEntries(ss) + [x.entry];
    OneMoreEntry(SettledEntries(ss), x.entry);
  }

  lemma LeaderEnds(s: State, s': State, call: CallId, own: Settlement, error: Option<RefreshError>)
    requires SingleFlight(s) && EachEntryOnce(s) && call in s.outstanding && s.outstanding[call].Reactive?
    requires s'.entries == s.entries && s'.thrown == s.thrown && s'.outstanding == s.outstanding - {call}
    requires s'.led == s.led + [own] && own.entry == s.outstanding[call].entry
    requires s'.settled == s.settled + SettleAll(s.failedQueue, error) && s'.failedQueue == []
    ensures EachEntryOnce(s')
  {
    OnlyCall(s, call);
    LeaderIs(s, call);
    assert LeaderAmong(s'.outstanding) == multiset{};
    DrainAccounts(s.settled, s.failedQueue, error);
    SettledAppend(s.led, own);
    var e := own.entry;
    var t, l := multiset(ThrownEntries(s.thrown)), multiset(SettledEntries(s.led));
    var settled, queued := multiset(SettledEntries(s.settled)), multiset(QueuedEntries(s.failedQueue));
    assert multiset(QueuedEntries(s'.failedQueue)) == multiset{};
    assert multiset(SettledEntries(s'.settled)) == settled + queued;
    assert Accounted(s') == t + multiset{} + (l + multiset{e}) + (settled + queued) + multiset{};
    assert Accounted(s) == t + multiset{e} + l + settled + queued;
  }

  lemma ProactiveEnds(s: State, s': State, call: CallId)
    requires SingleFlight(s) && EachEntryOnce(s) && call in s.outstanding && s.outstanding[call].Proactive?
    requires s'.entries == s.entries && s'.thrown == s.thrown && s'.outstanding == s.outstanding - {call}
    requires s'.led == s.led && s'.settled == s.settled && s'.failedQueue == s.failedQueue
    ensures EachEntryOnce(s')
  {
    OnlyCall(s, call);
    assert LeaderAmong(s'.outstanding) == multiset{} == LeaderAmong(s.outstanding);
  }

  lemma AnswerAccounts(s: State, call: CallId, expiresIn: nat)
    requires SingleFlight(s) && EachEntryOnce(s) && call in s.outstanding
    ensures EachEntryOnce(Succeed(s, call, expiresIn))
  {
    if s.outstanding[call].Reactive? {
      LeaderEnds(s, Succeed(s, call, expiresIn), call, Replayed(s.outstanding[call].entry, s.outstanding[call].config), None);
    } else {
      ProactiveEnds(s, Succeed(s, call, expiresIn), call);
    }
  }

  lemma FailureAccounts(s: State, call: CallId, error: RefreshError)
    requires SingleFlight(s) && EachEntryOnce(s) && call in s.outstanding
    ensures EachEntryOnce(Fail(s, call, error))
  {
    if s.outstanding[call].Reactive? {
      LeaderEnds(s, Fail(s, call, error), call, Rejected(s.outstanding[call].entry, error), s.lastRefreshError);
    } else {
      ProactiveEnds(s, Fail(s, call, error), call);
    }
  }

  lemma TimerAccounts(s: State, t: TimerId)
    requires SingleFlight(s) && EachEntryOnce(s)
    ensures EachEntryOnce(FireTimer(s, t))
  {
    if !s.hasRefreshFailed && !s.isRefreshing {
      assert LeaderAmong(FireTimer(s, t).outstanding) == multiset{} == LeaderAmong(s.outstanding);
    }
  }

  lemma StepAccounts(s: State, e: Event)
    requires SingleFlight(s) && EachEntryOnce(s) && Enabled(s, e)
    ensures EachEntryOnce(Step(s, e))
  {
    match e
    case Unauthorized(config) => EnterAccounts(s, config);
    case RefreshAnswered(c, expiresIn) => AnswerAccounts(s, c, expiresIn);
    case RefreshFailed(c, error) => FailureAccounts(s, c, error);
    case TimerFires(t) => TimerAccounts(s, t);
    case UserDataSet(user, grant) => UserDataKeepsRequests(s, user, grant);
    case InterceptorCatches => UserDataKeepsRequests(s, None, None);
    case Tick(ms) =>
  }

  // ---- every reachable state --------------------------------------------------------------------------

  lemma StepKeepsInv(s: State, e: Event)
    requires Inv(s) && Enabled(s, e)
    ensures Inv(Step(s, e))
  {
    StepKeepsFlags(s, e);
    StepKeepsQueues(s, e);
    StepAccounts(s, e);
  }

  lemma {:induction false} RunKeepsInv(s: State, es: seq<Event>)
    requires Inv(s) && Run(s, es)
    ensures Inv(After(s, es))
    decreases |es|
  {
    if es != [] {
      StepKeepsInv(s, es[0]);
      RunKeepsInv(Step(s, es[0]), es[1..]);
    }
  }

  lemma InitInv()
    ensures Inv(INIT)
  {
    assert Upto(0) == [];
  }

  // One refresh call at a time; the latch and the flight never hold together.
  lemma SingleFlightAndLatch(es: seq<Event>)
    requires Run(INIT, es)
    ensures var s := After(INIT, es);
            && |s.outstanding| == (if s.isRefreshing then 1 else 0)
            && (s.hasRefreshFailed <==> s.lastRefreshError.Some?)
            && !(s.isRefreshing && s.hasRefreshFailed)
  {
    InitInv();
    RunKeepsInv(INIT, es);
    var s := After(INIT, es);
    if s.isRefreshing {
      var c :| c in s.outstanding;
      assert s.outstanding.Keys == {c};
      assert |s.outstanding| == |s.outstanding.Keys|;
    }
  }

  // Every entry is thrown at once, leading, led to its end, queued or settled: exactly one of them.
  lemma RequestsConserved(es: seq<Event>)
    requires Run(INIT, es)
    ensures Accounted(After(INIT, es)) == multiset(Upto(After(INIT, es).entries))
  {
    InitInv();
    RunKeepsInv(INIT, es);
  }

  // Queued requests are replayed in arrival order, none twice, none dropped, none rejected.
  lemma RepliesInArrivalOrder(es: seq<Event>)
    requires Run(INIT, es)
    ensures var s := After(INIT, es);
            && |s.settled| <= |s.arrivals|
            && (forall i :: 0 <= i < |s.settled| ==> s.settled[i] == Replayed(s.arrivals[i].entry, s.arrivals[i].config))
            && s.failedQueue == s.arrivals[|s.settled|..]
  {
    InitInv();
    RunKeepsInv(INIT, es);
  }

  // A reactive refresh that ends, either way, leaves no request waiting.
  lemma ReactiveEndEmptiesQueue(es: seq<Event>, call: CallId, expiresIn: nat, error: RefreshError)
    requires Run(INIT, es)
    requires call in After(INIT, es).outstanding && After(INIT, es).outstanding[call].Reactive?
    ensures var s := After(INIT, es);
            && Succeed(s, call, expiresIn).failedQueue == [] == Fail(s, call, error).failedQueue
            && Succeed(s, call, expiresIn).settled == Fail(s, call, error).settled
            == s.settled + SettleAll(s.failedQueue, None)
  {
    InitInv();
    RunKeepsInv(INIT, es);
    OnlyCall(After(INIT, es), call);
  }

  // Read off the events of a run: the requests answered 401 during a proactive refresh
  // since a reactive refresh last ended.
  function StrandedBy(s: State, es: seq<Event>, before: seq<QueuedRequest>): seq<QueuedRequest>
    requires Run(s, es)
    decreases |es|
  {
    if es == [] then before
    else StrandedBy(Step(s, es[0]), es[1..], StrandedByStep(s, es[0], before))
  }

  function StrandedByStep(s: State, e: Event, before: seq<QueuedRequest>): seq<QueuedRequest>
    requires Enabled(s, e)
  {
    if e.Unauthorized? && ProactiveOut(s) then before + [QueuedRequest(s.entries, e.config)]
    else if (e.RefreshAnswered? || e.RefreshFailed?) && s.outstanding[e.call].Reactive? then []
    else before
  }

  lemma StepLogsStranded(s: State, e: Event)
    requires Inv(s) && Enabled(s, e)
    ensures Step(s, e).missed == StrandedByStep(s, e, s.missed)
  {
    match e
    case UserDataSet(user, grant) => UserDataKeepsRequests(s, user, grant);
    case InterceptorCatches => UserDataKeepsRequests(s, None, None);
    case _ =>
  }

  lemma {:induction false} RunLogsStranded(s: State, es: seq<Event>)
    requires Inv(s) && Run(s, es)
    ensures After(s, es).missed == StrandedBy(s, es, s.missed)
    decreases |es|
  {
    if es != [] {
      StepLogsStranded(s, es[0]);
      StepKeepsInv(s, es[0]);
      RunLogsStranded(Step(s, es[0]), es[1..]);
    }
  }

  // When no refresh is under way, what waits is what arrived during a proactive
  // refresh since the queue was last drained: nothing else, and all of it.
  lemma IdleQueueIsWhatProactiveRefreshesMissed(es: seq<Event>)
    requires Run(INIT, es) && !After(INIT, es).isRefreshing
    ensures After(INIT, es).failedQueue == After(INIT, es).missed
    ensures After(INIT, es).failedQueue == StrandedBy(INIT, es, [])
  {
    InitInv();
    RunKeepsInv(INIT, es);
    RunLogsStranded(INIT, es);
  }

  // No 401 arrives while a proactive refresh is out.
  predicate NoneDuringProactive(s: State, es: seq<Event>)
    requires Run(s, es)
    decreases |es|
  {
    es == [] || (!(es[0].Unauthorized? && ProactiveOut(s)) && NoneDuringProactive(Step(s, es[0]), es[1..]))
  }

  lemma {:induction false} NoneStranded(s: State, es: seq<Event>)
    requires Run(s, es) && NoneDuringProactive(s, es)
    ensures StrandedBy(s, es, []) == []
    decreases |es|
  {
    if es != [] {
      NoneStranded(Step(s, es[0]), es[1..]);
    }
  }

  // If nothing arrived during a proactive refresh, nothing waits when none is under way.
  lemma IdleQueueIsEmpty(es: seq<Event>)
    requires Run(INIT, es) && NoneDuringProactive(INIT, es) && !After(INIT, es).isRefreshing
    ensures After(INIT, es).failedQueue == []
  {
    IdleQueueIsWhatProactiveRefreshesMissed(es);
    NoneStranded(INIT, es);
  }

  // Nothing but the end of a reactive refresh settles a queued request.
  lemma OnlyReactiveEndsSettle(s: State, e: Event)
    requires Inv(s) && Enabled(s, e)
    requires Step(s, e).settled != s.settled
    ensures e.RefreshAnswered? || e.RefreshFailed?
    ensures s.outstanding[e.call].Reactive?
  {
    match e
    case UserDataSet(user, grant) => UserDataKeepsRequests(s, user, grant);
    case InterceptorCatches => UserDataKeepsRequests(s, None, None);
    case _ =>
  }

  // So a request can be stranded: one that meets a proactive refresh still waits
  // after that refresh succeeded.
  lemma ProactiveRefreshStrandsRequest() returns (es: seq<Event>)
    ensures Run(INIT, es) && !After(INIT, es).isRefreshing && !After(INIT, es).hasRefreshFailed
    ensures After(INIT, es).failedQueue == [QueuedRequest(0, 7)]
  {
    var signIn, wait, fires := UserDataSet(Some(1), Some(900)), Tick(890_000), TimerFires(0);
    var arrives, answered := Unauthorized(7), RefreshAnswered(0, 900);
    var s1 := Step(INIT, signIn);
    var s2 := Step(s1, wait);
    assert s2.timers == map[0 := 890_000];
    var s3 := Step(s2, fires);
    assert s3.outstanding == map[0 := Proactive];
    var s4 := Step(s3, arrives);
    assert s3.outstanding[0].Proactive? && s4.failedQueue == [QueuedRequest(0, 7)];
    RunCons(s4, answered, []);
    RunCons(s3, arrives, [answered] + []);
    RunCons(s2, fires, [arrives] + ([answered] + []));
    RunCons(s1, wait, [fires] + ([arrives] + ([answered] + [])));
    RunCons(INIT, signIn, [wait] + ([fires] + ([arrives] + ([answered] + []))));
    es := [signIn] + ([wait] + ([fires] + ([arrives] + ([answered] + []))));
  }

  lemma RunCons(s: State, e: Event, rest: seq<Event>)
    requires Enabled(s, e) && Run(Step(s, e), rest)
    ensures Run(s, [e] + rest) && After(s, [e] + rest) == After(Step(s, e), rest)
  {
    assert ([e] + rest)[1..] == rest;
  }

  // ---- the latch ---------------------------------------------------------------------------------------

  // Nobody signs in: the only caller of resetRefreshFailureState is setUserData with a user.
  predicate NobodySignsIn(es: seq<Event>) {
    forall i :: 0 <= i < |es| ==> !(es[i].UserDataSet? && es[i].user.Some?)
  }

  function Count401(es: seq<Event>): nat {
    if es == [] then 0 else (if es[0].Unauthorized? then 1 else 0) + Count401(es[1..])
  }

  // What the next n requests get.
  function AllThrown(first: Entry, n: nat, error: Option<RefreshError>): seq<Thrown> {
    seq(n, i requires 0 <= i < n => Thrown(first + i, error))
  }

  // No call was issued, nothing was settled, and n more requests were thrown the stored error.
  ghost predicate StillLatched(s: State, s': State, n: nat) {
    && s'.hasRefreshFailed && s'.lastRefreshError == s.lastRefreshError
    && s'.calls == s.calls && s'.outstanding == map[]
    && s'.settled == s.settled && s'.failedQueue == s.failedQueue && s'.led == s.led
    && s'.entries == s.entries + n
    && s'.thrown == s.thrown + AllThrown(s.entries, n, s.lastRefreshError)
  }

  lemma LatchedStep(s: State, e: Event)
    requires SingleFlight(s) && Latch(s) && s.hasRefreshFailed && Enabled(s, e) && NobodySignsIn([e])
    ensures StillLatched(s, Step(s, e), if e.Unauthorized? then 1 else 0)
  {
    assert !([e][0].UserDataSet? && [e][0].user.Some?);
    assert AllThrown(s.entries, 1, s.lastRefreshError) == [Thrown(s.entries, s.lastRefreshError)];
    assert s.thrown + AllThrown(s.entries, 0, s.lastRefreshError) == s.thrown;
  }

  lemma StillLatchedTransitive(a: State, b: State, c: State, m: nat, n: nat)
    requires StillLatched(a, b, m) && StillLatched(b, c, n)
    ensures StillLatched(a, c, m + n)
  {
    assert AllThrown(a.entries, m + n, a.lastRefreshError) ==
           AllThrown(a.entries, m, a.lastRefreshError) + AllThrown(b.entries, n, a.lastRefreshError);
  }

  // While latched, every 401 is thrown back with the stored error and no 401 and no
  // left-over timer issues a refresh.
  lemma {:induction false} LatchHolds(s: State, es: seq<Event>)
    requires Inv(s) && s.hasRefreshFailed && Run(s, es) && NobodySignsIn(es)
    ensures StillLatched(s, After(s, es), Count401(es))
    decreases |es|
  {
    if es == [] {
      assert s.thrown + AllThrown(s.entries, 0, s.lastRefreshError) == s.thrown;
    } else {
      assert NobodySignsIn([es[0]]) && NobodySignsIn(es[1..]);
      LatchedStep(s, es[0]);
      StepKeepsInv(s, es[0]);
      LatchHolds(Step(s, es[0]), es[1..]);
      StillLatchedTransitive(s, Step(s, es[0]), After(s, es), if es[0].Unauthorized? then 1 else 0, Count401(es[1..]));
    }
  }

  lemma FailedIsLatched(s: State, call: CallId, error: RefreshError)
    requires Inv(s) && call in s.outstanding
    ensures var failed := Step(s, RefreshFailed(call, error));
            && failed.hasRefreshFailed && failed.lastRefreshError == Some(error)
            && !failed.isRefreshing && failed.outstanding == map[] && Inv(failed)
  {
    OnlyCall(s, call);
    StepKeepsInv(s, RefreshFailed(call, error));
  }

  // A failed refresh, reactive or proactive, latches its error; until someone signs in
  // no refresh is issued and every request answered 401 is thrown exactly that error.
  lemma FailureLatches(before: seq<Event>, call: CallId, error: RefreshError, after: seq<Event>)
    requires Run(INIT, before) && call in After(INIT, before).outstanding
    requires Run(Step(After(INIT, before), RefreshFailed(call, error)), after) && NobodySignsIn(after)
    ensures var failed := Step(After(INIT, before), RefreshFailed(call, error));
            && failed.hasRefreshFailed && failed.lastRefreshError == Some(error)
            && !failed.isRefreshing && failed.outstanding == map[]
    ensures var failed := Step(After(INIT, before), RefreshFailed(call, error));
            var s' := After(failed, after);
            && s'.hasRefreshFailed && s'.calls == failed.calls && s'.outstanding == map[]
            && s'.settled == failed.settled
            && |s'.thrown| == |failed.thrown| + Count401(after)
            && forall i :: |failed.thrown| <= i < |s'.thrown| ==>
                 s'.thrown[i] == Thrown(failed.entries + (i - |failed.thrown|), Some(error))
  {
    InitInv();
    RunKeepsInv(INIT, before);
    var failed := Step(After(INIT, before), RefreshFailed(call, error));
    FailedIsLatched(After(INIT, before), call, error);
    LatchHolds(failed, after);
    ThrownAfterwards(failed, After(failed, after), Count401(after), error);
  }

  lemma ThrownAfterwards(s: State, s': State, n: nat, error: RefreshError)
    requires StillLatched(s, s', n) && s.lastRefreshError == Some(error)
    ensures |s'.thrown| == |s.thrown| + n
    ensures forall i :: |s.thrown| <= i < |s'.thrown| ==> s'.thrown[i] == Thrown(s.entries + (i - |s.thrown|), Some(error))
  {
  }

  // The leader's request is rejected with the error, everyone queued behind it is replayed.
  ghost predicate FollowersReplayed(s: State, failed: State, call: CallId, error: RefreshError)
    requires call in s.outstanding && s.outstanding[call].Reactive?
  {
    && failed.led == s.led + [Rejected(s.outstanding[call].entry, error)]
    && |failed.settled| == |s.settled| + |s.failedQueue|
    && (forall i :: 0 <= i < |s.settled| ==> failed.settled[i] == s.settled[i])
    && (forall i :: 0 <= i < |s.failedQueue| ==>
          failed.settled[|s.settled| + i] == Replayed(s.failedQueue[i].entry, s.failedQueue[i].config))
  }

  lemma LeaderFails(s: State, call: CallId, error: RefreshError)
    requires SingleFlight(s) && Latch(s) && call in s.outstanding && s.outstanding[call].Reactive?
    ensures FollowersReplayed(s, Step(s, RefreshFailed(call, error)), call, error)
  {
    OnlyCall(s, call);
  }

  // The followers of a failed leader are all replayed, not rejected, and the leader alone
  // gets the error; a replay that is answered 401 again gets exactly that error.
  lemma FollowersOfFailedLeader(before: seq<Event>, call: CallId, error: RefreshError, after: seq<Event>)
    requires Run(INIT, before) && call in After(INIT, before).outstanding
    requires After(INIT, before).outstanding[call].Reactive?
    requires Run(Step(After(INIT, before), RefreshFailed(call, error)), after) && NobodySignsIn(after)
    ensures FollowersReplayed(After(INIT, before), Step(After(INIT, before), RefreshFailed(call, error)), call, error)
    ensures var failed := Step(After(INIT, before), RefreshFailed(call, error));
            var s' := After(failed, after);
            && s'.calls == failed.calls
            && forall i :: |failed.thrown| <= i < |s'.thrown| ==> s'.thrown[i].error == Some(error)
  {
    InitInv();
    RunKeepsInv(INIT, before);
    LeaderFails(After(INIT, before), call, error);
    FailureLatches(before, call, error, after);
  }

  // ---- what each step does, in every reachable state --------------------------------------------------

  // A request answered 401 is thrown back, queued or leads a new refresh, and nothing else changes.
  lemma UnauthorizedDecides(s: State, config: Config)
    ensures var s', q := Step(s, Unauthorized(config)), QueuedRequest(s.entries, config);
            if s.hasRefreshFailed then
              s' == s.(entries := s.entries + 1, thrown := s.thrown + [Thrown(s.entries, s.lastRefreshError)])
            else if s.isRefreshing then
              s' == s.(entries := s.entries + 1, failedQueue := s.failedQueue + [q], arrivals := s.arrivals + [q], missed := s'.missed)
            else
              s' == s.(entries := s.entries + 1, isRefreshing := true, calls := s.calls + 1,
                       outstanding := s.outstanding[s.calls := Reactive(s.entries, config)])
  {
  }

  // A refresh that answers replays the leader and everyone queued behind it, sets the
  // next timer ten seconds before the end, one second from now at the earliest, and
  // leaves the latch open.
  lemma AnswerDecides(before: seq<Event>, call: CallId, expiresIn: nat)
    requires Run(INIT, before) && call in After(INIT, before).outstanding
    ensures var s := After(INIT, before);
            var s', delay := Step(s, RefreshAnswered(call, expiresIn)), expiresIn * 1000 - 10_000;
            && !s'.hasRefreshFailed && !s'.isRefreshing && s'.outstanding == map[]
            && s'.timers == s.timers[s.timersMade := s.now + if delay < 1000 then 1000 else delay]
            && s'.proactiveRefreshInterval == Some(s.timersMade)
            && s'.thrown == s.thrown && s'.calls == s.calls
            && match s.outstanding[call]
               case Proactive => s'.failedQueue == s.failedQueue && s'.settled == s.settled && s'.led == s.led
               case Reactive(entry, config) =>
                 && s'.failedQueue == [] && s'.led == s.led + [Replayed(entry, config)]
                 && |s'.settled| == |s.settled| + |s.failedQueue|
                 && forall i :: 0 <= i < |s.failedQueue| ==>
                      s'.settled[|s.settled| + i] == Replayed(s.failedQueue[i].entry, s.failedQueue[i].config)
  {
    InitInv();
    RunKeepsInv(INIT, before);
    OnlyCall(After(INIT, before), call);
  }

  // A timer that fires refreshes iff the latch is open and no refresh is out.
  lemma TimerDecides(s: State, t: TimerId)
    requires t in s.timers && s.timers[t] <= s.now
    ensures var s' := Step(s, TimerFires(t));
            if s.hasRefreshFailed || s.isRefreshing then s' == s.(timers := s.timers - {t})
            else s' == s.(timers := s.timers - {t}, isRefreshing := true, calls := s.calls + 1,
                          outstanding := s.outstanding[s.calls := Proactive])
  {
  }

  // Setting user data opens the latch iff there is a user; the pending timer is replaced
  // when a lifetime is known, stopped when there is no user, and left otherwise.
  lemma UserDataDecides(s: State, user: Option<User>, grant: Option<nat>)
    ensures var s' := Step(s, UserDataSet(user, grant));
            var known := grant.Some? && grant.value != 0;
            var stopped := if s.proactiveRefreshInterval.Some? then s.timers - {s.proactiveRefreshInterval.value} else s.timers;
            && SameRequests(s, s') && s'.now == s.now
            && s'.hasRefreshFailed == (s.hasRefreshFailed && user.None?)
            && s'.lastRefreshError == (if user.Some? then None else s.lastRefreshError)
            && (user.None? ==> s'.timers == stopped && s'.proactiveRefreshInterval == None)
            && (user.Some? && !known ==> s'.timers == s.timers && s'.proactiveRefreshInterval == s.proactiveRefreshInterval)
            && (user.Some? && known ==>
                  && s'.proactiveRefreshInterval == Some(s.timersMade)
                  && s'.timers == stopped[s.timersMade :=
                       s.now + if grant.value * 1000 - 10_000 < 1000 then 1000 else grant.value * 1000 - 10_000])
    ensures Step(s, InterceptorCatches) == Step(s, UserDataSet(None, None))
  {
    UserDataKeepsRequests(s, user, grant);
  }

  // It happens: a follower queues, the leader fails, the follower is replayed.
  lemma FollowerOfFailedLeaderIsReplayed() returns (es: seq<Event>)
    ensures Run(INIT, es) && es != [] && es[|es| - 1] == RefreshFailed(0, 5)
    ensures var s := After(INIT, es);
            && s.thrown == [] && s.led == [Rejected(0, 5)] && s.lastRefreshError == Some(5)
            && s.settled == [Replayed(1, 8)]
  {
    var leader, follower, failed := Unauthorized(7), Unauthorized(8), RefreshFailed(0, 5);
    var s1 := Step(INIT, leader);
    var s2 := Step(s1, follower);
    assert s2.failedQueue == [QueuedRequest(1, 8)] && s2.outstanding == map[0 := Reactive(0, 7)];
    var s3 := Step(s2, failed);
    assert s3.settled == [Replayed(1, 8)];
    RunCons(s2, failed, []);
    RunCons(s1, follower, [failed] + []);
    RunCons(INIT, leader, [follower] + ([failed] + []));
    es := [leader] + ([follower] + ([failed] + []));
  }

  // ---- the keep-alive chain ----------------------------------------------------------------------------

  // No sign-out, no failure, and every granted lifetime lasts at least two seconds.
  predicate Undisturbed(es: seq<Event>) {
    forall i :: 0 <= i < |es| ==> KeepsChain(es[i])
  }

  predicate KeepsChain(e: Event) {
    match e
    case UserDataSet(user, grant) => user.Some? && (grant.Some? && grant.value != 0 ==> grant.value >= 2)
    case RefreshAnswered(_, expiresIn) => expiresIn >= 2
    case RefreshFailed(_, _) => false
    case InterceptorCatches => false
    case _ => true
  }

  lemma {:induction false} ChainLasts(s: State, es: seq<Event>)
    requires s.keepAlive && Run(s, es) && Undisturbed(es)
    ensures After(s, es).keepAlive
    decreases |es|
  {
    if es != [] {
      assert KeepsChain(es[0]) && Undisturbed(es[1..]);
      ChainLasts(Step(s, es[0]), es[1..]);
    }
  }

  // From a sign-in on, whenever no refresh is out a timer is pending that is due before
  // the last granted token expires, whatever older timers still fire.  So as long as
  // timers are not late, the token has not expired.
  lemma KeepAlive(before: seq<Event>, user: User, expiresIn: nat, after: seq<Event>)
    requires Run(INIT, before) && expiresIn >= 2
    requires var started := SetUserData(After(INIT, before), Some(user), Some(expiresIn));
             Run(started, after) && Undisturbed(after)
    ensures var s := After(SetUserData(After(INIT, before), Some(user), Some(expiresIn)), after);
            s.outstanding == map[] ==>
              && (exists t :: t in s.timers && s.timers[t] < s.grantedUntil)
              && ((forall t :: t in s.timers ==> s.now <= s.timers[t]) ==> s.now < s.grantedUntil)
  {
    InitInv();
    RunKeepsInv(INIT, before);
    var s := After(INIT, before);
    var e := UserDataSet(Some(user), Some(expiresIn));
    StepKeepsInv(s, e);
    assert Step(s, e).keepAlive;
    RunKeepsInv(Step(s, e), after);
    ChainLasts(Step(s, e), after);
  }

  // ---- after a sign-out -----------------------------------------------------------------------------------

  // What happens without a user or a server pushing a request: time, timers, answers.
  predicate OnItsOwn(e: Event) {
    e.Tick? || e.TimerFires? || e.RefreshAnswered? || e.RefreshFailed?
  }

  predicate AllOnTheirOwn(es: seq<Event>) {
    forall i :: 0 <= i < |es| ==> OnItsOwn(es[i])
  }

  // Left alone, the refresher never issues another refresh.
  ghost predicate Quiet(s: State) {
    forall es :: Run(s, es) && AllOnTheirOwn(es) ==> After(s, es).calls == s.calls
  }

  predicate NothingPending(s: State) {
    s.outstanding == map[] && s.timers == map[]
  }

  lemma {:induction false} NothingPendingStays(s: State, es: seq<Event>)
    requires NothingPending(s) && Run(s, es) && AllOnTheirOwn(es)
    ensures After(s, es).calls == s.calls
    decreases |es|
  {
    if es != [] {
      assert OnItsOwn(es[0]) && AllOnTheirOwn(es[1..]);
      NothingPendingStays(Step(s, es[0]), es[1..]);
    }
  }

  lemma LatchedIsQuiet(s: State)
    requires Inv(s) && s.hasRefreshFailed
    ensures Quiet(s)
  {
    forall es | Run(s, es) && AllOnTheirOwn(es)
      ensures After(s, es).calls == s.calls
    {
      assert forall i :: 0 <= i < |es| ==> OnItsOwn(es[i]);
      LatchHolds(s, es);
    }
  }

  lemma PendingTimerRefreshes(s: State, t: TimerId)
    requires SingleFlight(s) && !s.hasRefreshFailed && s.outstanding == map[] && t in s.timers
    ensures !Quiet(s)
  {
    var wait := Tick(s.timers[t]);
    var later := Step(s, wait);
    RunCons(later, TimerFires(t), []);
    RunCons(s, wait, [TimerFires(t)] + []);
    var es := [wait] + ([TimerFires(t)] + []);
    assert AllOnTheirOwn(es) && After(s, es).calls == s.calls + 1;
  }

  lemma OutstandingCallRefreshes(s: State, call: CallId)
    requires SingleFlight(s) && Latch(s) && call in s.outstanding
    ensures !Quiet(s)
  {
    OnlyCall(s, call);
    var answered := Step(s, RefreshAnswered(call, 0));
    var t := s.timersMade;
    var later := Step(answered, Tick(1000));
    assert t in later.timers && later.timers[t] == later.now;
    RunCons(later, TimerFires(t), []);
    RunCons(answered, Tick(1000), [TimerFires(t)] + []);
    RunCons(s, RefreshAnswered(call, 0), [Tick(1000)] + ([TimerFires(t)] + []));
    var es := [RefreshAnswered(call, 0)] + ([Tick(1000)] + ([TimerFires(t)] + []));
    assert AllOnTheirOwn(es) && After(s, es).calls == s.calls + 1;
  }

  lemma QuietIff(s: State)
    requires Inv(s)
    ensures Quiet(s) <==> s.hasRefreshFailed || NothingPending(s)
  {
    if s.hasRefreshFailed {
      LatchedIsQuiet(s);
    } else if call :| call in s.outstanding {
      OutstandingCallRefreshes(s, call);
    } else if t :| t in s.timers {
      PendingTimerRefreshes(s, t);
    } else {
      assert NothingPending(s);
      forall es | Run(s, es) && AllOnTheirOwn(es)
        ensures After(s, es).calls == s.calls
      {
        NothingPendingStays(s, es);
      }
    }
  }

  lemma StopLeaves(s: State)
    requires SingleFlight(s)
    ensures var s' := SetUserData(s, None, None);
            && s'.hasRefreshFailed == s.hasRefreshFailed
            && (NothingPending(s') <==>
                !s.isRefreshing && forall t :: t in s.timers ==> s.proactiveRefreshInterval == Some(t))
  {
    var s' := SetUserData(s, None, None);
    if t :| t in s.timers && s.proactiveRefreshInterval != Some(t) {
      assert t in s'.timers;
    }
  }

  // Signing out stops the refreshing exactly when the latch is set, or no refresh is
  // out and no timer but the last one is pending: a refresh that answers after the
  // sign-out arms a new timer, and a timer that a later one replaced still fires.
  lemma SignOutStopsRefreshingIff(before: seq<Event>)
    requires Run(INIT, before)
    ensures var s := After(INIT, before);
            Quiet(SetUserData(s, None, None)) <==>
            || s.hasRefreshFailed
            || (!s.isRefreshing && forall t :: t in s.timers ==> s.proactiveRefreshInterval == Some(t))
  {
    InitInv();
    RunKeepsInv(INIT, before);
    var s := After(INIT, before);
    StepKeepsInv(s, UserDataSet(None, None));
    QuietIff(SetUserData(s, None, None));
    StopLeaves(s);
  }

  // A sign-in and a reactive refresh leave two timers, of which a sign-out clears one.
  lemma TwoTimers() returns (es: seq<Event>)
    ensures Run(INIT, es)
    ensures var s := After(INIT, es);
            && !s.isRefreshing && !s.hasRefreshFailed && s.outstanding == map[]
            && s.timers == map[0 := 890_000, 1 := 890_000] && s.proactiveRefreshInterval == Some(1)
  {
    var signIn, arrives, answered := UserDataSet(Some(1), Some(900)), Unauthorized(7), RefreshAnswered(0, 900);
    var s1 := Step(INIT, signIn);
    var s2 := Step(s1, arrives);
    RunCons(s2, answered, []);
    RunCons(s1, arrives, [answered] + []);
    RunCons(INIT, signIn, [arrives] + ([answered] + []));
    es := [signIn] + ([arrives] + ([answered] + []));
  }

  // It happens: the timer of the sign-in is replaced, not cleared, when a reactive
  // refresh answers; signing out clears the later timer, and the first one refreshes.
  lemma LeakedTimerRefreshesAfterSignOut() returns (before: seq<Event>, after: seq<Event>)
    ensures Run(INIT, before) && !After(INIT, before).isRefreshing && !After(INIT, before).hasRefreshFailed
    ensures var out := SetUserData(After(INIT, before), None, None);
            && Run(out, after) && AllOnTheirOwn(after)
            && After(out, after).calls == out.calls + 1
  {
    before := TwoTimers();
    var out := SetUserData(After(INIT, before), None, None);
    assert out.timers == map[0 := 890_000];
    var wait, fires := Tick(890_000), TimerFires(0);
    var later := Step(out, wait);
    RunCons(later, fires, []);
    RunCons(out, wait, [fires] + []);
    after := [wait] + ([fires] + []);
  }
}
