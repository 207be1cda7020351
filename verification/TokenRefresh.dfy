/**
 The client's single-flight token refresher: a leader refreshes, followers queue,
 a failure latches, and timers refresh ahead of expiry.  Every synchronous section
 between two awaits is one step; refresh calls on the network and pending timers
 are part of the state, and what became of each request is recorded.
 */
module TokenRefresh {
  import opened Wrappers

  type Config = nat       // an axios request configuration
  type Entry = nat        // one call of handleTokenRefresh
  type CallId = nat
  type TimerId = nat
  type RefreshError = nat
  type User = nat

  const REFRESH_BUFFER_MS: int := 10 * 1000

  // A queued request: its promise (named by the entry) and its configuration.
  datatype QueuedRequest = QueuedRequest(entry: Entry, config: Config)

  datatype Call = Reactive(entry: Entry, config: Config) | Proactive

  datatype Settlement =
    | Replayed(entry: Entry, config: Config)
    | Rejected(entry: Entry, error: RefreshError)

  datatype Thrown = Thrown(entry: Entry, error: Option<RefreshError>)

  datatype State = State(
    // fields of the refresher
    isRefreshing: bool,
    failedQueue: seq<QueuedRequest>,
    hasRefreshFailed: bool,
    lastRefreshError: Option<RefreshError>,
    proactiveRefreshInterval: Option<TimerId>,
    // the browser around it
    outstanding: map<CallId, Call>,
    timers: map<TimerId, nat>,
    now: nat,
    calls: nat,
    timersMade: nat,
    // what happened so far
    entries: nat,
    thrown: seq<Thrown>,
    led: seq<Settlement>,          // how the leaders' own requests ended
    arrivals: seq<QueuedRequest>,
    settled: seq<Settlement>,
    missed: seq<QueuedRequest>,
    grantedUntil: nat,
    keepAlive: bool)

  const INIT := State(false, [], false, None, None, map[], map[], 0, 0, 0, 0, [], [], [], [], [], 0, false)

  // ---- the methods of the refresher ---------------------------------------------

  function Max(a: int, b: int): int {
    if a < b then b else a
  }

  function RefreshIntervalMs(expiresInSeconds: nat): nat {
    Max(expiresInSeconds * 1000 - REFRESH_BUFFER_MS, 1000)
  }

  // The timer just made becomes the one that stop can clear; an earlier one stays pending.
  function Schedule(s: State, expiresInSeconds: nat): State {
    s.(timers := s.timers[s.timersMade := s.now + RefreshIntervalMs(expiresInSeconds)],
       proactiveRefreshInterval := Some(s.timersMade),
       timersMade := s.timersMade + 1,
       grantedUntil := s.now + expiresInSeconds * 1000,
       keepAlive := expiresInSeconds >= 2)
  }

  function Settle(q: QueuedRequest, error: Option<RefreshError>): Settlement {
    if error.Some? then Rejected(q.entry, error.value) else Replayed(q.entry, q.config)
  }

  function SettleAll(queue: seq<QueuedRequest>, error: Option<RefreshError>): seq<Settlement> {
    seq(|queue|, i requires 0 <= i < |queue| => Settle(queue[i], error))
  }

  function ProcessQueue(s: State, error: Option<RefreshError>): State {
    s.(settled := s.settled + SettleAll(s.failedQueue, error), failedQueue := [], missed := [])
  }

  function HandleRefreshFailure(s: State, error: RefreshError): State {
    s.(hasRefreshFailed := true, lastRefreshError := Some(error), keepAlive := false)
  }

  datatype Entered = Threw(error: Option<RefreshError>) | Queued | Leads(call: CallId)

  function EnterOutcome(s: State): Entered {
    if s.hasRefreshFailed then Threw(s.lastRefreshError)
    else if s.isRefreshing then Queued
    else Leads(s.calls)
  }

  // handleTokenRefresh up to its first await.
  function Enter(s: State, config: Config): State {
    var e := s.entries;
    match EnterOutcome(s)
    case Threw(error) => s.(entries := e + 1, thrown := s.thrown + [Thrown(e, error)])
    case Queued =>
      var q := QueuedRequest(e, config);
      s.(entries := e + 1,
         failedQueue := s.failedQueue + [q],
         arrivals := s.arrivals + [q],
         missed := if ProactiveOut(s) then s.missed + [q] else s.missed)
    case Leads(call) =>
      s.(entries := e + 1,
         isRefreshing := true,
         outstanding := s.outstanding[call := Reactive(e, config)],
         calls := call + 1)
  }

  predicate ProactiveOut(s: State) {
    exists c :: c in s.outstanding && s.outstanding[c].Proactive?
  }

  // The section after the await, when the refresh call answered.
  function Succeed(s: State, call: CallId, expiresInSeconds: nat): State
    requires call in s.outstanding
  {
    var back := s.(outstanding := s.outstanding - {call});
    match s.outstanding[call]
    case Reactive(e, config) =>
      Schedule(ProcessQueue(back, None), expiresInSeconds).(isRefreshing := false, led := s.led + [Replayed(e, config)])
    case Proactive =>
      Schedule(back, expiresInSeconds).(isRefreshing := false)
  }

  // The section after the await, when the refresh call failed.
  function Fail(s: State, call: CallId, error: RefreshError): State
    requires call in s.outstanding
  {
    var back := s.(outstanding := s.outstanding - {call});
    match s.outstanding[call]
    case Reactive(e, _) =>
      HandleRefreshFailure(ProcessQueue(back, s.lastRefreshError), error).(isRefreshing := false, led := s.led + [Rejected(e, error)])
    case Proactive =>
      HandleRefreshFailure(back, error).(isRefreshing := false)
  }

  function FireTimer(s: State, t: TimerId): State {
    var gone := s.(timers := s.timers - {t});
    if !s.hasRefreshFailed && !s.isRefreshing then
      gone.(isRefreshing := true, outstanding := s.outstanding[s.calls := Proactive], calls := s.calls + 1)
    else gone
  }

  function ResetRefreshFailureState(s: State): State {
    s.(hasRefreshFailed := false, lastRefreshError := None)
  }

  function StopProactiveRefresh(s: State): State {
    match s.proactiveRefreshInterval
    case Some(t) => s.(timers := s.timers - {t}, proactiveRefreshInterval := None, keepAlive := false)
    case None => s.(keepAlive := false)
  }

  function StartProactiveRefresh(s: State, expiresInSeconds: nat): State {
    Schedule(StopProactiveRefresh(s), expiresInSeconds)
  }

  // UserManager.setUserData, as far as the refresher is concerned.
  function SetUserData(s: State, user: Option<User>, expiresInSeconds: Option<nat>): State {
    if user.Some? then
      var reset := ResetRefreshFailureState(s);
      if expiresInSeconds.Some? && expiresInSeconds.value != 0
      then StartProactiveRefresh(reset, expiresInSeconds.value)
      else reset
    else StopProactiveRefresh(s)
  }

  // ---- the event loop --------------------------------------------------------------

  datatype Event =
    // a response 401 whose request does not skip the refresh reaches the interceptor
    | Unauthorized(config: Config)
    | RefreshAnswered(call: CallId, expiresInSeconds: nat)
    | RefreshFailed(call: CallId, error: RefreshError)
    | TimerFires(timer: TimerId)
    | UserDataSet(user: Option<User>, grant: Option<nat>)
    // the promise the interceptor awaits rejects: handleTokenRefreshFailure
    | InterceptorCatches
    | Tick(ms: nat)

  predicate Enabled(s: State, e: Event) {
    match e
    case RefreshAnswered(c, _) => c in s.outstanding
    case RefreshFailed(c, _) => c in s.outstanding
    case TimerFires(t) => t in s.timers && s.timers[t] <= s.now
    case _ => true
  }

  function Step(s: State, e: Event): State
    requires Enabled(s, e)
  {
    match e
    case Unauthorized(config) => Enter(s, config)
    case RefreshAnswered(c, expiresIn) => Succeed(s, c, expiresIn)
    case RefreshFailed(c, error) => Fail(s, c, error)
    case TimerFires(t) => FireTimer(s, t)
    case UserDataSet(user, grant) => SetUserData(s, user, grant)
    case InterceptorCatches => SetUserData(s, None, None)
    case Tick(ms) => s.(now := s.now + ms)
  }

  predicate Run(s: State, es: seq<Event>)
    decreases |es|
  {
    es == [] || (Enabled(s, es[0]) && Run(Step(s, es[0]), es[1..]))
  }

  function After(s: State, es: seq<Event>): State
    requires Run(s, es)
    decreases |es|
  {
    if es == [] then s else After(Step(s, es[0]), es[1..])
  }
}
