/**
 * The side effects the account screen requests, as an ordered trace. The
 * network calls behind them (`BlockchainAPIInteractor.getBalance`,
 * `getIdentity`, `SignInteractor.disconnect`) stay abstract: each is a
 * `Request` in the trace, and how it ends is an `Outcome` handed in from
 * outside. A failed call is caught where it is made and only logged.
 */
module Effects {
  import opened Wrappers
  import opened Store

  /** The routes of the `Router` that the screen names. */
  datatype Route = ConnectWallet | SelectChain | Other(name: Text)

  /** The interactor calls the screen can start. */
  datatype Call = GetBalance | GetIdentity | SignDisconnect

  /** How an awaited interactor call ends: normally, or by throwing an error. */
  datatype Outcome = Succeeded | Failed(description: Text)

  datatype Effect =
    | Request(call: Call)     // an interactor call is started
    | Navigate(route: Route)  // `router.setRoute(route)`
    | Log(message: Text)      // `print(error.localizedDescription)`

  /**
   * One `Task { do { try await call } catch { print(...) } }`: the call is
   * requested, and a failure adds one log line and nothing else.
   */
  function TaskEffects(call: Call, outcome: Outcome): (r: seq<Effect>)
    ensures 1 <= |r| <= 2 && r[0] == Request(call)
    ensures |r| == 2 <==> outcome.Failed?
    ensures outcome.Failed? ==> r[1] == Log(outcome.description)
  {
    match outcome
    case Succeeded => [Request(call)]
    case Failed(description) => [Request(call), Log(description)]
  }

  /**
   * The `onAppear` block: the balance task always, then the identity task only
   * when no identity is cached. Each task is taken to run to completion in the
   * order it is started.
   */
  function AppearEffects(cachedIdentity: Option<Identity>, balanceOutcome: Outcome,
                         identityOutcome: Outcome): (r: seq<Effect>)
    ensures |r| >= 1 && r[0] == Request(GetBalance)
    ensures cachedIdentity.Some? ==> r == TaskEffects(GetBalance, balanceOutcome)
  {
    TaskEffects(GetBalance, balanceOutcome) +
    (if cachedIdentity.Some? then [] else TaskEffects(GetIdentity, identityOutcome))
  }

  /** `disconnect()`: the route change, then the teardown task. */
  function DisconnectEffects(teardownOutcome: Outcome): (r: seq<Effect>)
    ensures |r| >= 2 && r[0] == Navigate(ConnectWallet) && r[1] == Request(SignDisconnect)
  {
    [Navigate(ConnectWallet)] + TaskEffects(SignDisconnect, teardownOutcome)
  }

  /** How many times `e` occurs in `effects`. */
  function Count(effects: seq<Effect>, e: Effect): nat
  {
    if effects == [] then 0
    else (if effects[0] == e then 1 else 0) + Count(effects[1..], e)
  }

  /** The interactor calls requested, in order. */
  function Requests(effects: seq<Effect>): seq<Call>
  {
    if effects == [] then []
    else (if effects[0].Request? then [effects[0].call] else []) + Requests(effects[1..])
  }

  /** The trace with its log lines removed. */
  function WithoutLogs(effects: seq<Effect>): seq<Effect>
  {
    if effects == [] then []
    else (if effects[0].Log? then [] else [effects[0]]) + WithoutLogs(effects[1..])
  }

  /** The messages logged, in order. */
  function Logs(effects: seq<Effect>): seq<Text>
  {
    if effects == [] then []
    else (if effects[0].Log? then [effects[0].message] else []) + Logs(effects[1..])
  }

  /** The router's route after `effects`, starting from `route`: the last `Navigate` wins. */
  function RouteAfter(route: Route, effects: seq<Effect>): Route
    decreases effects
  {
    if effects == [] then route
    else RouteAfter(if effects[0].Navigate? then effects[0].route else route, effects[1..])
  }

  lemma {:induction false} CountAppend(a: seq<Effect>, b: seq<Effect>, e: Effect)
    ensures Count(a + b, e) == Count(a, e) + Count(b, e)
  {
    if a == [] {
      assert a + b == b;
    } else {
      assert (a + b)[0] == a[0] && (a + b)[1..] == a[1..] + b;
      CountAppend(a[1..], b, e);
    }
  }

  lemma {:induction false} RequestsAppend(a: seq<Effect>, b: seq<Effect>)
    ensures Requests(a + b) == Requests(a) + Requests(b)
  {
    if a == [] {
      assert a + b == b;
    } else {
      assert (a + b)[0] == a[0] && (a + b)[1..] == a[1..] + b;
      RequestsAppend(a[1..], b);
    }
  }

  lemma {:induction false} WithoutLogsAppend(a: seq<Effect>, b: seq<Effect>)
    ensures WithoutLogs(a + b) == WithoutLogs(a) + WithoutLogs(b)
  {
    if a == [] {
      assert a + b == b;
    } else {
      assert (a + b)[0] == a[0] && (a + b)[1..] == a[1..] + b;
      WithoutLogsAppend(a[1..], b);
    }
  }

  lemma {:induction false} LogsAppend(a: seq<Effect>, b: seq<Effect>)
    ensures Logs(a + b) == Logs(a) + Logs(b)
  {
    if a == [] {
      assert a + b == b;
    } else {
      assert (a + b)[0] == a[0] && (a + b)[1..] == a[1..] + b;
      LogsAppend(a[1..], b);
    }
  }

  lemma {:induction false} RouteAfterAppend(route: Route, a: seq<Effect>, b: seq<Effect>)
    ensures RouteAfter(route, a + b) == RouteAfter(RouteAfter(route, a), b)
    decreases a
  {
    if a == [] {
      assert a + b == b;
    } else {
      assert (a + b)[0] == a[0] && (a + b)[1..] == a[1..] + b;
      RouteAfterAppend(if a[0].Navigate? then a[0].route else route, a[1..], b);
    }
  }

  /** A trace without navigation leaves the route where it was. */
  lemma {:induction false} RouteAfterNoNavigation(route: Route, effects: seq<Effect>)
    requires forall i :: 0 <= i < |effects| ==> !effects[i].Navigate?
    ensures RouteAfter(route, effects) == route
  {
    if effects != [] {
      RouteAfterNoNavigation(route, effects[1..]);
    }
  }

  /** A task's trace, logs removed, is its request alone, whatever the outcome. */
  lemma TaskEffectsWithoutLogs(call: Call, outcome: Outcome)
    ensures WithoutLogs(TaskEffects(call, outcome)) == [Request(call)]
    ensures Requests(TaskEffects(call, outcome)) == [call]
  {
    var t := TaskEffects(call, outcome);
    assert WithoutLogs(t[1..]) == [] && Requests(t[1..]) == [] by {
      if outcome.Failed? {
        assert t[1..][1..] == [];
      }
    }
  }

  /** A task logs its error's description exactly when its call fails. */
  lemma TaskEffectsLogs(call: Call, outcome: Outcome)
    ensures Logs(TaskEffects(call, outcome)) ==
      if outcome.Failed? then [outcome.description] else []
  {
    var t := TaskEffects(call, outcome);
    if outcome.Failed? {
      assert t[1..][1..] == [];
      assert Logs(t[1..]) == [outcome.description];
    } else {
      assert t[1..] == [];
    }
  }

  /**
   * On appear, every failed fetch is logged, the identity error only when the
   * identity fetch was started. The balance error comes first because the
   * trace runs each task to completion in the order it starts.
   */
  lemma AppearLogs(cachedIdentity: Option<Identity>, balanceOutcome: Outcome,
                   identityOutcome: Outcome)
    ensures Logs(AppearEffects(cachedIdentity, balanceOutcome, identityOutcome)) ==
      (if balanceOutcome.Failed? then [balanceOutcome.description] else []) +
      (if cachedIdentity.None? && identityOutcome.Failed? then [identityOutcome.description] else [])
  {
    TaskEffectsLogs(GetBalance, balanceOutcome);
    TaskEffectsLogs(GetIdentity, identityOutcome);
    LogsAppend(TaskEffects(GetBalance, balanceOutcome),
               if cachedIdentity.Some? then [] else TaskEffects(GetIdentity, identityOutcome));
  }

  /**
   * On appear, the errors logged are those of the failed fetches, each once,
   * in whichever order the two tasks finish.
   */
  lemma AppearLoggedErrors(cachedIdentity: Option<Identity>, balanceOutcome: Outcome,
                           identityOutcome: Outcome)
    ensures multiset(Logs(AppearEffects(cachedIdentity, balanceOutcome, identityOutcome))) ==
      multiset(if balanceOutcome.Failed? then [balanceOutcome.description] else []) +
      multiset(if cachedIdentity.None? && identityOutcome.Failed? then [identityOutcome.description] else [])
  {
    AppearLogs(cachedIdentity, balanceOutcome, identityOutcome);
  }

  /** A failed teardown is logged, and it is the only thing `disconnect()` logs. */
  lemma DisconnectLogs(teardownOutcome: Outcome)
    ensures Logs(DisconnectEffects(teardownOutcome)) ==
      if teardownOutcome.Failed? then [teardownOutcome.description] else []
  {
    TaskEffectsLogs(SignDisconnect, teardownOutcome);
    LogsAppend([Navigate(ConnectWallet)], TaskEffects(SignDisconnect, teardownOutcome));
  }

  /**
   * On appear, the balance is requested first and exactly once, and the
   * identity after it exactly when none is cached; the outcomes of the calls
   * play no part.
   */
  lemma AppearRequests(cachedIdentity: Option<Identity>, balanceOutcome: Outcome,
                       identityOutcome: Outcome)
    ensures Requests(AppearEffects(cachedIdentity, balanceOutcome, identityOutcome)) ==
      if cachedIdentity.None? then [GetBalance, GetIdentity] else [GetBalance]
  {
    TaskEffectsWithoutLogs(GetBalance, balanceOutcome);
    TaskEffectsWithoutLogs(GetIdentity, identityOutcome);
    RequestsAppend(TaskEffects(GetBalance, balanceOutcome),
                   if cachedIdentity.Some? then [] else TaskEffects(GetIdentity, identityOutcome));
  }

  /** Exactly one balance fetch per appearance, whatever is cached and however the calls end. */
  lemma AppearFetchesBalanceOnce(cachedIdentity: Option<Identity>, balanceOutcome: Outcome,
                                 identityOutcome: Outcome)
    ensures Count(AppearEffects(cachedIdentity, balanceOutcome, identityOutcome), Request(GetBalance)) == 1
  {
    var b := TaskEffects(GetBalance, balanceOutcome);
    var i := if cachedIdentity.Some? then [] else TaskEffects(GetIdentity, identityOutcome);
    CountAppend(b, i, Request(GetBalance));
    CountAppend([b[0]], b[1..], Request(GetBalance));
    assert [b[0]] + b[1..] == b;
    if i != [] {
      CountAppend([i[0]], i[1..], Request(GetBalance));
      assert [i[0]] + i[1..] == i;
    }
  }

  /** One identity fetch when no identity is cached, none when one is. */
  lemma AppearFetchesIdentityIffUncached(cachedIdentity: Option<Identity>, balanceOutcome: Outcome,
                                         identityOutcome: Outcome)
    ensures Count(AppearEffects(cachedIdentity, balanceOutcome, identityOutcome), Request(GetIdentity)) ==
      if cachedIdentity.None? then 1 else 0
  {
    var b := TaskEffects(GetBalance, balanceOutcome);
    var i := if cachedIdentity.Some? then [] else TaskEffects(GetIdentity, identityOutcome);
    CountAppend(b, i, Request(GetIdentity));
    CountAppend([b[0]], b[1..], Request(GetIdentity));
    assert [b[0]] + b[1..] == b;
    if i != [] {
      CountAppend([i[0]], i[1..], Request(GetIdentity));
      assert [i[0]] + i[1..] == i;
    }
  }

  /**
   * Errors are swallowed: a failing fetch adds only log lines, so the trace
   * without logs is the one of an appearance where both calls succeed.
   */
  lemma AppearFailuresOnlyLog(cachedIdentity: Option<Identity>, balanceOutcome: Outcome,
                              identityOutcome: Outcome)
    ensures WithoutLogs(AppearEffects(cachedIdentity, balanceOutcome, identityOutcome)) ==
            AppearEffects(cachedIdentity, Succeeded, Succeeded)
  {
    TaskEffectsWithoutLogs(GetBalance, balanceOutcome);
    TaskEffectsWithoutLogs(GetIdentity, identityOutcome);
    WithoutLogsAppend(TaskEffects(GetBalance, balanceOutcome),
                      if cachedIdentity.Some? then [] else TaskEffects(GetIdentity, identityOutcome));
  }

  /** Appearing never navigates and never tears the session down. */
  lemma AppearKeepsRoute(route: Route, cachedIdentity: Option<Identity>, balanceOutcome: Outcome,
                         identityOutcome: Outcome)
    ensures RouteAfter(route, AppearEffects(cachedIdentity, balanceOutcome, identityOutcome)) == route
    ensures SignDisconnect !in Requests(AppearEffects(cachedIdentity, balanceOutcome, identityOutcome))
  {
    RouteAfterNoNavigation(route, AppearEffects(cachedIdentity, balanceOutcome, identityOutcome));
    AppearRequests(cachedIdentity, balanceOutcome, identityOutcome);
  }

  /**
   * `disconnect()` navigates to `connectWallet` and only then starts the
   * teardown, which is its one request; a failing teardown only adds a log line.
   */
  lemma DisconnectOrder(teardownOutcome: Outcome)
    ensures DisconnectEffects(teardownOutcome)[..2] == [Navigate(ConnectWallet), Request(SignDisconnect)]
    ensures Requests(DisconnectEffects(teardownOutcome)) == [SignDisconnect]
    ensures WithoutLogs(DisconnectEffects(teardownOutcome)) == DisconnectEffects(Succeeded)
  {
    var t := TaskEffects(SignDisconnect, teardownOutcome);
    TaskEffectsWithoutLogs(SignDisconnect, teardownOutcome);
    RequestsAppend([Navigate(ConnectWallet)], t);
    WithoutLogsAppend([Navigate(ConnectWallet)], t);
  }

  /** The route change stands whatever the teardown does: there is no rollback. */
  lemma DisconnectRouteStands(route: Route, teardownOutcome: Outcome)
    ensures RouteAfter(route, DisconnectEffects(teardownOutcome)) == ConnectWallet
  {
    var t := TaskEffects(SignDisconnect, teardownOutcome);
    RouteAfterAppend(route, [Navigate(ConnectWallet)], t);
    RouteAfterNoNavigation(ConnectWallet, t);
  }
}
