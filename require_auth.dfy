/** The session gate around the owner's pages (RequireAuth): it starts
    loading with no session, subscribes to session changes, and renders a
    placeholder while loading, a redirect to the login page when there is no
    session, and the protected page otherwise. */
module RequireAuthGate {
  import opened Util
  import opened Records

  /** What the gate renders. */
  datatype View = Loading | RedirectToLogin | Children

  /** The gate's state; `subscribed` is true from mount until teardown. */
  datatype Gate = Gate(loading: bool, session: Option<Session>, subscribed: bool)

  /** The callbacks that reach the gate. */
  datatype Event =
    | SessionLoaded(loaded: Option<Session>)   // getSession() resolved
    | AuthChanged(changed: Option<Session>)    // onAuthStateChange fired
    | Teardown                                 // the effect's cleanup ran

  /** Right after mount: loading, no session, subscribed. */
  const Mounted: Gate := Gate(true, None, true)

  /** One callback. Once torn down, the subscription no longer delivers changes
      and state updates of the unmounted gate have no effect. */
  function Step(g: Gate, e: Event): Gate {
    if !g.subscribed then g
    else
      match e
      case SessionLoaded(s) => g.(session := s, loading := false)
      case AuthChanged(s) => g.(session := s)
      case Teardown => g.(subscribed := false)
  }

  /** The state after a sequence of callbacks, starting from mount. */
  function Run(events: seq<Event>): Gate {
    if events == [] then Mounted else Step(Run(events[..|events| - 1]), events[|events| - 1])
  }

  /** The render decision. */
  function Render(g: Gate): (v: View)
    ensures v == Children <==> !g.loading && g.session.Some?
    ensures g.loading ==> v == Loading
    ensures !g.loading && g.session.None? ==> v == RedirectToLogin
  {
    if g.loading then Loading
    else if g.session.None? then RedirectToLogin
    else Children
  }

  predicate NoTeardown(events: seq<Event>) {
    forall i :: 0 <= i < |events| ==> !events[i].Teardown?
  }

  /** The session the latest callback carried, if any. */
  function LatestSession(events: seq<Event>): Option<Session> {
    if events == [] then None
    else
      match events[|events| - 1]
      case SessionLoaded(s) => s
      case AuthChanged(s) => s
      case Teardown => LatestSession(events[..|events| - 1])
  }

  /** Until teardown, the gate stays subscribed. */
  lemma {:induction false} SubscribedUntilTeardown(events: seq<Event>)
    ensures Run(events).subscribed <==> NoTeardown(events)
  {
    if events != [] {
      var init := events[..|events| - 1];
      SubscribedUntilTeardown(init);
      assert forall i :: 0 <= i < |init| ==> init[i] == events[i];
    }
  }

  /** The gate stays loading exactly until a getSession result arrives while
      subscribed: an auth-state change never ends loading. */
  lemma {:induction false} LoadingUntilSessionLoaded(events: seq<Event>)
    requires NoTeardown(events)
    ensures !Run(events).loading <==> exists i :: 0 <= i < |events| && events[i].SessionLoaded?
  {
    if events != [] {
      var init := events[..|events| - 1];
      assert forall i :: 0 <= i < |init| ==> init[i] == events[i];
      LoadingUntilSessionLoaded(init);
      SubscribedUntilTeardown(init);
      if !Run(events).loading && !events[|events| - 1].SessionLoaded? {
        var i :| 0 <= i < |init| && init[i].SessionLoaded?;
        assert events[i].SessionLoaded?;
      }
    }
  }

  /** While subscribed, the session is the one the latest callback carried. */
  lemma {:induction false} SessionIsLatest(events: seq<Event>)
    requires NoTeardown(events)
    ensures Run(events).session == LatestSession(events)
  {
    if events != [] {
      var init := events[..|events| - 1];
      assert forall i :: 0 <= i < |init| ==> init[i] == events[i];
      SessionIsLatest(init);
      SubscribedUntilTeardown(init);
    }
  }

  /** The protected page appears only after getSession has answered, and only
      with a session; before that, only the placeholder. */
  lemma ChildrenOnlyAfterSessionLoaded(events: seq<Event>)
    requires NoTeardown(events)
    ensures Render(Run(events)) == Children ==>
      (exists i :: 0 <= i < |events| && events[i].SessionLoaded?) && LatestSession(events).Some?
    ensures (forall i :: 0 <= i < |events| ==> !events[i].SessionLoaded?) ==>
      Render(Run(events)) == Loading
  {
    LoadingUntilSessionLoaded(events);
    SessionIsLatest(events);
  }

  /** The component: its two state cells and its subscription. */
  class RequireAuth {
    var loading: bool
    var session: Option<Session>
    var subscribed: bool

    function State(): Gate
      reads this
    {
      Gate(loading, session, subscribed)
    }

    /** Mount: initial state, then the effect subscribes. */
    constructor ()
      ensures State() == Mounted
    {
      loading, session, subscribed := true, None, true;
    }

    /** `getSession().then(({data}) => { setSession(data.session); setLoading(false) })` */
    method OnGetSession(s: Option<Session>)
      modifies this
      ensures State() == Step(old(State()), SessionLoaded(s))
    {
      if subscribed {
        session := s;
        loading := false;
      }
    }

    /** `onAuthStateChange((_e, s) => setSession(s))` */
    method OnAuthStateChange(s: Option<Session>)
      modifies this
      ensures State() == Step(old(State()), AuthChanged(s))
    {
      if subscribed {
        session := s;
      }
    }

    /** The effect's cleanup: `sub.subscription.unsubscribe()`. */
    method Unmount()
      modifies this
      ensures State() == Step(old(State()), Teardown)
      ensures !subscribed
    {
      subscribed := false;
    }

    /** What the gate renders now. */
    function Rendered(): View
      reads this
    {
      Render(State())
    }
  }
}
