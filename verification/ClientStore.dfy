/**
 The client's classes in the source's own form: a refresher whose methods assign
 its fields, the user manager that drives it and the response interceptor.  Each
 method is proved to do what the corresponding function of TokenRefresh says.
 */
module ClientStore {
  import opened Wrappers
  import opened TokenRefresh

  class RefreshTokenManager {
    // fields of the source's class
    var isRefreshing: bool
    var failedQueue: seq<QueuedRequest>
    var hasRefreshFailed: bool
    var lastRefreshError: Option<RefreshError>
    var proactiveRefreshInterval: Option<TimerId>

    // the browser: refresh calls on the network, pending timers, the clock
    var outstanding: map<CallId, Call>
    var timers: map<TimerId, nat>
    var now: nat
    var calls: nat
    var timersMade: nat

    // what became of the requests
    var entries: nat
    ghost var thrown: seq<Thrown>
    ghost var led: seq<Settlement>
    ghost var arrivals: seq<QueuedRequest>
    ghost var settled: seq<Settlement>
    ghost var missed: seq<QueuedRequest>
    ghost var grantedUntil: nat
    ghost var keepAlive: bool

    ghost function Abs(): State
      reads this
    {
      State(isRefreshing, failedQueue, hasRefreshFailed, lastRefreshError, proactiveRefreshInterval,
            outstanding, timers, now, calls, timersMade,
            entries, thrown, led, arrivals, settled, missed, grantedUntil, keepAlive)
    }

    constructor ()
      ensures Abs() == INIT
    {
      isRefreshing, failedQueue, hasRefreshFailed, lastRefreshError := false, [], false, None;
      proactiveRefreshInterval := None;
      outstanding, timers, now, calls, timersMade := map[], map[], 0, 0, 0;
      entries, thrown, led, arrivals, settled, missed := 0, [], [], [], [], [];
      grantedUntil, keepAlive := 0, false;
    }

    // handleTokenRefresh up to its first await.
    method HandleTokenRefresh(originalRequest: Config) returns (outcome: Entered)
      modifies this
      ensures Abs() == Enter(old(Abs()), originalRequest)
      ensures outcome == EnterOutcome(old(Abs()))
    {
      if hasRefreshFailed {
        outcome := Throw();
      } else if isRefreshing {
        Enqueue(originalRequest);
        outcome := Queued;
      } else {
        outcome := Lead(originalRequest);
      }
    }

    method Throw() returns (outcome: Entered)
      modifies `entries, `thrown
      ensures entries == old(entries) + 1
      ensures thrown == old(thrown) + [Thrown(old(entries), lastRefreshError)]
      ensures outcome == Threw(lastRefreshError)
    {
      thrown := thrown + [Thrown(entries, lastRefreshError)];
      entries := entries + 1;
      if lastRefreshError.Some? {
        return Threw(lastRefreshError);
      }
      return Threw(None);
    }

    method Enqueue(originalRequest: Config)
      modifies `entries, `failedQueue, `arrivals, `missed
      ensures entries == old(entries) + 1
      ensures failedQueue == old(failedQueue) + [QueuedRequest(old(entries), originalRequest)]
      ensures arrivals == old(arrivals) + [QueuedRequest(old(entries), originalRequest)]
      ensures missed == if ProactiveOut(old(Abs())) then old(missed) + [QueuedRequest(old(entries), originalRequest)] else old(missed)
    {
      var queued := QueuedRequest(entries, originalRequest);
      missed := if ProactiveOut(Abs()) then missed + [queued] else missed;
      arrivals := arrivals + [queued];
      failedQueue := failedQueue + [queued];
      entries := entries + 1;
    }

    method Lead(originalRequest: Config) returns (outcome: Entered)
      modifies `entries, `isRefreshing, `outstanding, `calls
      ensures entries == old(entries) + 1 && isRefreshing && calls == old(calls) + 1
      ensures outstanding == old(outstanding)[old(calls) := Reactive(old(entries), originalRequest)]
      ensures outcome == Leads(old(calls))
    {
      isRefreshing := true;
      outcome := Leads(calls);
      outstanding := outstanding[calls := Reactive(entries, originalRequest)];
      calls := calls + 1;
      entries := entries + 1;
    }

    // The response of a leader's call has arrived, and its own request ends with it.
    method TakeOff(call: CallId, outcome: Settlement)
      requires call in outstanding
      modifies `outstanding, `led
      ensures Abs() == old(Abs()).(outstanding := old(outstanding) - {call}, led := old(led) + [outcome])
    {
      led := led + [outcome];
      outstanding := outstanding - {call};
    }

    // handleTokenRefresh after its await: the try block, which sends the request again ...
    method LeaderAnswered(call: CallId, accessTokenExpiresIn: nat) returns (outcome: Settlement)
      requires call in outstanding && outstanding[call].Reactive?
      modifies this
      ensures Abs() == Succeed(old(Abs()), call, accessTokenExpiresIn)
      ensures outcome == Replayed(old(outstanding)[call].entry, old(outstanding)[call].config)
    {
      outcome := Replayed(outstanding[call].entry, outstanding[call].config);
      TakeOff(call, outcome);
      ProcessQueue(None);
      ScheduleNextProactiveRefresh(accessTokenExpiresIn);
      isRefreshing := false;
    }

    // ... and the catch block, which throws the error; both followed by finally.
    method LeaderRejected(call: CallId, error: RefreshError) returns (outcome: Settlement)
      requires call in outstanding && outstanding[call].Reactive?
      modifies this
      ensures Abs() == Fail(old(Abs()), call, error)
      ensures outcome == Rejected(old(outstanding)[call].entry, error)
    {
      outcome := Rejected(outstanding[call].entry, error);
      TakeOff(call, outcome);
      ProcessQueue(lastRefreshError);
      HandleRefreshFailure(error);
      isRefreshing := false;
    }

    // performProactiveRefresh after its await: it leaves the queue alone.
    method ProactiveAnswered(call: CallId, accessTokenExpiresIn: nat)
      requires call in outstanding && outstanding[call].Proactive?
      modifies this
      ensures Abs() == Succeed(old(Abs()), call, accessTokenExpiresIn)
    {
      outstanding := outstanding - {call};
      ScheduleNextProactiveRefresh(accessTokenExpiresIn);
      isRefreshing := false;
    }

    method ProactiveRejected(call: CallId, error: RefreshError)
      requires call in outstanding && outstanding[call].Proactive?
      modifies this
      ensures Abs() == Fail(old(Abs()), call, error)
    {
      outstanding := outstanding - {call};
      HandleRefreshFailure(error);
      isRefreshing := false;
    }

    method ResetRefreshFailureState()
      modifies this
      ensures Abs() == TokenRefresh.ResetRefreshFailureState(old(Abs()))
    {
      hasRefreshFailed := false;
      lastRefreshError := None;
    }

    method StartProactiveRefresh(expiresInSeconds: nat)
      modifies this
      ensures Abs() == TokenRefresh.StartProactiveRefresh(old(Abs()), expiresInSeconds)
    {
      StopProactiveRefresh();
      ScheduleNextProactiveRefresh(expiresInSeconds);
    }

    method StopProactiveRefresh()
      modifies this
      ensures Abs() == TokenRefresh.StopProactiveRefresh(old(Abs()))
    {
      if proactiveRefreshInterval.Some? {
        timers := timers - {proactiveRefreshInterval.value};
        proactiveRefreshInterval := None;
      }
      keepAlive := false;
    }

    method ScheduleNextProactiveRefresh(expiresInSeconds: nat)
      modifies `timers, `proactiveRefreshInterval, `timersMade, `grantedUntil, `keepAlive
      ensures Abs() == Schedule(old(Abs()), expiresInSeconds)
    {
      var expiresInMs := expiresInSeconds * 1000;
      var refreshIntervalMs := Max(expiresInMs - REFRESH_BUFFER_MS, 1000);
      var timer := SetTimeout(refreshIntervalMs);
      proactiveRefreshInterval := Some(timer);
      NoteGrant(now + expiresInMs, expiresInSeconds >= 2);
    }

    ghost method NoteGrant(until: nat, longEnough: bool)
      modifies `grantedUntil, `keepAlive
      ensures grantedUntil == until && keepAlive == longEnough
    {
      grantedUntil, keepAlive := until, longEnough;
    }

    // The browser's setTimeout.
    method SetTimeout(delayMs: nat) returns (timer: TimerId)
      modifies `timers, `timersMade
      ensures timer == old(timersMade) && timersMade == timer + 1
      ensures timers == old(timers)[timer := now + delayMs]
    {
      timer := timersMade;
      timers := timers[timer := now + delayMs];
      timersMade := timersMade + 1;
    }

    // The callback given to setTimeout, up to the await in performProactiveRefresh.
    method TimerFires(timer: TimerId)
      modifies `timers, `isRefreshing, `outstanding, `calls
      ensures Abs() == FireTimer(old(Abs()), timer)
    {
      timers := timers - {timer};
      if !hasRefreshFailed && !isRefreshing {
        isRefreshing := true;
        outstanding := outstanding[calls := Proactive];
        calls := calls + 1;
      }
    }

    method HandleRefreshFailure(error: RefreshError)
      modifies `hasRefreshFailed, `lastRefreshError, `keepAlive
      ensures Abs() == TokenRefresh.HandleRefreshFailure(old(Abs()), error)
    {
      hasRefreshFailed := true;
      lastRefreshError := Some(error);
      keepAlive := false;
    }

    // Settles the queued promises one by one, in the order they were queued.
    method ProcessQueue(error: Option<RefreshError>)
      modifies `failedQueue, `settled, `missed
      ensures Abs() == TokenRefresh.ProcessQueue(old(Abs()), error)
    {
      ghost var before := settled;
      var i := 0;
      while i < |failedQueue|
        invariant 0 <= i <= |failedQueue|
        invariant settled == before + SettleAll(failedQueue[..i], error)
        invariant failedQueue == old(failedQueue) && missed == old(missed)
      {
        if error.Some? {
          settled := settled + [Rejected(failedQueue[i].entry, error.value)];
        } else {
          settled := settled + [Replayed(failedQueue[i].entry, failedQueue[i].config)];
        }
        assert SettleAll(failedQueue[..i + 1], error) == SettleAll(failedQueue[..i], error) + [Settle(failedQueue[i], error)];
        i := i + 1;
      }
      assert failedQueue[..|failedQueue|] == failedQueue;
      failedQueue := [];
      missed := [];
    }
  }

  class UserManager {
    const refreshTokenManager: RefreshTokenManager
    var userProfileData: Option<User>

    constructor (refreshTokenManager: RefreshTokenManager)
      ensures this.refreshTokenManager == refreshTokenManager && userProfileData == None
    {
      this.refreshTokenManager := refreshTokenManager;
      userProfileData := None;
    }

    method SetUserData(userData: Option<User>, expiresInSeconds: Option<nat>)
      modifies this, refreshTokenManager
      ensures userProfileData == userData
      ensures refreshTokenManager.Abs() == TokenRefresh.SetUserData(old(refreshTokenManager.Abs()), userData, expiresInSeconds)
    {
      userProfileData := userData;
      if userData.Some? {
        refreshTokenManager.ResetRefreshFailureState();
        if expiresInSeconds.Some? && expiresInSeconds.value != 0 {
          refreshTokenManager.StartProactiveRefresh(expiresInSeconds.value);
        }
      } else {
        refreshTokenManager.StopProactiveRefresh();
      }
    }

    // logout, once the server has answered.
    method Logout()
      modifies this, refreshTokenManager
      ensures userProfileData == None
      ensures refreshTokenManager.Abs() == TokenRefresh.SetUserData(old(refreshTokenManager.Abs()), None, None)
    {
      SetUserData(None, None);
    }

    method HandleTokenRefreshFailure()
      modifies this, refreshTokenManager
      ensures userProfileData == None
      ensures refreshTokenManager.Abs() == Step(old(refreshTokenManager.Abs()), InterceptorCatches)
    {
      SetUserData(None, None);
    }
  }

  // What the response interceptor does with an error response.
  datatype Interception = PassedOn | Refreshing(outcome: Entered)

  class AuthInterceptorService {
    const refreshTokenManager: RefreshTokenManager
    const userManager: UserManager

    constructor (refreshTokenManager: RefreshTokenManager, userManager: UserManager)
      requires userManager.refreshTokenManager == refreshTokenManager
      ensures this.refreshTokenManager == refreshTokenManager && this.userManager == userManager
    {
      this.refreshTokenManager := refreshTokenManager;
      this.userManager := userManager;
    }

    method OnErrorResponse(status: int, config: Config, skipAuthRefresh: bool) returns (r: Interception)
      modifies refreshTokenManager
      ensures status == 401 && !skipAuthRefresh ==>
                r == Refreshing(EnterOutcome(old(refreshTokenManager.Abs())))
                && refreshTokenManager.Abs() == Step(old(refreshTokenManager.Abs()), Unauthorized(config))
      ensures !(status == 401 && !skipAuthRefresh) ==> r == PassedOn && refreshTokenManager.Abs() == old(refreshTokenManager.Abs())
    {
      if status == 401 && !skipAuthRefresh {
        var outcome := refreshTokenManager.HandleTokenRefresh(config);
        return Refreshing(outcome);
      }
      return PassedOn;
    }

    // The catch block around `await handleTokenRefresh`.
    method OnRefreshPromiseRejected()
      requires userManager.refreshTokenManager == refreshTokenManager
      modifies userManager, refreshTokenManager
      ensures userManager.userProfileData == None
      ensures refreshTokenManager.Abs() == Step(old(refreshTokenManager.Abs()), InterceptorCatches)
    {
      userManager.HandleTokenRefreshFailure();
    }
  }
}
