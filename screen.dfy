/**
 * The account screen as an object: the store fields it reads, the router's
 * route it changes, and the trace of effects it has requested so far.
 */
module Screen {
  import opened Wrappers
  import opened Store
  import opened Effects

  class AccountView {
    var session: Option<Session>
    var identity: Option<Identity>
    /** `store.balance`; carried unchanged, the balance text is not modelled. */
    var balance: Option<real>
    var route: Route
    var effects: seq<Effect>

    /** The route the router had before the screen requested anything. */
    ghost var initialRoute: Route

    /**
     * Consistency invariant: the route field is always the one the recorded
     * navigations lead to, so what is proved of a trace with `RouteAfter`
     * holds of the field too. The methods' own route postconditions do not
     * depend on it.
     */
    ghost predicate Valid()
      reads this
    {
      route == RouteAfter(initialRoute, effects)
    }

    constructor (session: Option<Session>, identity: Option<Identity>, balance: Option<real>,
                 route: Route)
      ensures Valid()
      ensures this.session == session && this.identity == identity
      ensures this.balance == balance && this.route == route && effects == []
    {
      this.session := session;
      this.identity := identity;
      this.balance := balance;
      this.route := route;
      effects := [];
      initialRoute := route;
    }

    /** `router.setRoute(route)`. */
    method SetRoute(route: Route)
      requires Valid()
      modifies this
      ensures Valid()
      ensures this.route == route && effects == old(effects) + [Navigate(route)]
      ensures session == old(session) && identity == old(identity) && balance == old(balance)
      ensures initialRoute == old(initialRoute)
    {
      RouteAfterAppend(initialRoute, effects, [Navigate(route)]);
      this.route := route;
      effects := effects + [Navigate(route)];
    }

    /** A fire-and-forget task running one interactor call whose error is caught and logged. */
    method RunTask(call: Call, outcome: Outcome)
      requires Valid()
      modifies this
      ensures Valid()
      ensures effects == old(effects) + TaskEffects(call, outcome)
      ensures route == old(route)
      ensures session == old(session) && identity == old(identity) && balance == old(balance)
      ensures initialRoute == old(initialRoute)
    {
      ghost var before := effects;
      RouteAfterAppend(initialRoute, before, TaskEffects(call, outcome));
      RouteAfterNoNavigation(route, TaskEffects(call, outcome));
      effects := effects + [Request(call)];
      match outcome
      case Succeeded =>
      case Failed(description) =>
        effects := effects + [Log(description)];
        assert effects == before + [Request(call), Log(description)];
    }

    /** The `onAppear` block. */
    method OnAppear(balanceOutcome: Outcome, identityOutcome: Outcome)
      requires Valid()
      modifies this
      ensures Valid()
      ensures effects == old(effects) + AppearEffects(old(identity), balanceOutcome, identityOutcome)
      ensures route == old(route)
      ensures session == old(session) && identity == old(identity) && balance == old(balance)
      ensures initialRoute == old(initialRoute)
    {
      RunTask(GetBalance, balanceOutcome);
      if identity != None {
        return;
      }
      RunTask(GetIdentity, identityOutcome);
    }

    /** `disconnect()`. */
    method Disconnect(teardownOutcome: Outcome)
      requires Valid()
      modifies this
      ensures Valid()
      ensures route == ConnectWallet
      ensures effects == old(effects) + DisconnectEffects(teardownOutcome)
      ensures session == old(session) && identity == old(identity) && balance == old(balance)
      ensures initialRoute == old(initialRoute)
    {
      SetRoute(ConnectWallet);
      RunTask(SignDisconnect, teardownOutcome);
    }
  }
}
