/** The authentication redirect of the root layout (app/_layout.tsx,
    `RootLayoutNav`): which route the app replaces the current one with, given
    whether the initial session read is still pending, the session, the route
    segments and the outcome of the profile-role lookup; and how the session
    and the loading flag follow the auth callbacks.

    The role lookup is asynchronous in the source; here its outcome is an
    input, and the redirect it leads to is the decision's result. */
module RootLayout {
  import opened Results

  datatype Session = Session(userId: string)

  /** The three targets of `router.replace`. */
  datatype Route = Login | MyJobs | Feed

  /** The outcome of `profiles.select('role').eq('id', …).single()`: the role
      when a profile came back (`None` for no profile or no role), or a throw. */
  datatype RoleLookup = RoleFound(role: Option<string>) | LookupThrew

  const AuthGroup: string := "(auth)"
  const TabsGroup: string := "(tabs)"
  const EmployerRole: string := "employer"

  /** The segments of each target route. */
  function RouteSegments(r: Route): seq<string> {
    match r
    case Login => [AuthGroup, "login"]
    case MyJobs => [TabsGroup, "my-jobs"]
    case Feed => [TabsGroup, "feed"]
  }

  /** `segments[0] === '(auth)'`; a missing first segment is `undefined`. */
  predicate InAuthGroup(segments: seq<string>) {
    |segments| > 0 && segments[0] == AuthGroup
  }

  /** `segments[0] === '(tabs)' && !segments[1]`: a missing or empty second
      segment is falsy. */
  predicate OnIndexScreen(segments: seq<string>) {
    |segments| > 0 && segments[0] == TabsGroup && (|segments| < 2 || segments[1] == "")
  }

  /** Employers go to their job list; any other role, no profile, or a failed
      lookup goes to the feed. */
  function RoleRoute(lookup: RoleLookup): Route {
    if lookup.RoleFound? && lookup.role == Some(EmployerRole) then MyJobs else Feed
  }

  /** The redirect effect's decision; `None` means no redirect. */
  function RedirectTarget(loading: bool, session: Option<Session>, segments: seq<string>, lookup: RoleLookup): Option<Route> {
    if loading then None
    else if session.None? && !InAuthGroup(segments) then Some(Login)
    else if session.Some? && InAuthGroup(segments) then Some(RoleRoute(lookup))
    else if session.Some? && OnIndexScreen(segments) then Some(RoleRoute(lookup))
    else None
  }

  /** The decision in full: nothing while loading; the login screen exactly
      for a signed-out user outside the auth group; a role-chosen screen
      exactly for a signed-in user in the auth group or on the tabs index;
      nothing in every other case. */
  lemma RedirectSpec(loading: bool, session: Option<Session>, segments: seq<string>, lookup: RoleLookup)
    ensures var t := RedirectTarget(loading, session, segments, lookup);
      && (loading ==> t == None)
      && (t == Some(Login) <==> !loading && session.None? && !InAuthGroup(segments))
      && (t.Some? && t != Some(Login) <==>
            !loading && session.Some? && (InAuthGroup(segments) || OnIndexScreen(segments)))
      && (t.Some? && t != Some(Login) ==> t == Some(RoleRoute(lookup)))
  {
  }

  /** The role rule: my-jobs exactly for a profile whose role is "employer";
      a throw, a missing profile or any other role lead to the feed. */
  lemma RoleRouteSpec(lookup: RoleLookup)
    ensures RoleRoute(lookup) == MyJobs <==> lookup == RoleFound(Some(EmployerRole))
    ensures RoleRoute(LookupThrew) == Feed && RoleRoute(RoleFound(None)) == Feed
  {
  }

  /** The redirect settles: once the app is on the chosen route, the same
      session leads to no further redirect, whatever the next lookup says. */
  lemma RedirectSettles(session: Option<Session>, segments: seq<string>, lookup: RoleLookup, next: RoleLookup)
    requires RedirectTarget(false, session, segments, lookup).Some?
    ensures RedirectTarget(false, session, RouteSegments(RedirectTarget(false, session, segments, lookup).value), next) == None
  {
    var t := RedirectTarget(false, session, segments, lookup).value;
    var s := RouteSegments(t);
    if t == Login {
      assert InAuthGroup(s);
    } else {
      assert s[0] == TabsGroup && s[1] != "";
      assert !InAuthGroup(s) && !OnIndexScreen(s);
    }
  }

  // ---------------------------------------------------------------------------
  // Session and loading state

  /** The two callbacks that update the state. */
  datatype AuthEvent = InitialRead(session: Option<Session>) | AuthChanged(session: Option<Session>)

  /** The state after a sequence of callbacks, from the initial `(null, true)`. */
  function Replay(events: seq<AuthEvent>): (Option<Session>, bool) {
    if events == [] then (None, true)
    else
      var (_, loading) := Replay(events[..|events| - 1]);
      var e := events[|events| - 1];
      (e.session, if e.InitialRead? then false else loading)
  }

  /** `loading` is false exactly after the initial session read has arrived,
      and the session is the one carried by the latest callback. */
  lemma {:induction false} ReplaySpec(events: seq<AuthEvent>)
    ensures !Replay(events).1 <==> exists i :: 0 <= i < |events| && events[i].InitialRead?
    ensures events != [] ==> Replay(events).0 == events[|events| - 1].session
    ensures events == [] ==> Replay(events) == (None, true)
  {
    if events != [] {
      var init := events[..|events| - 1];
      ReplaySpec(init);
      if !Replay(init).1 {
        var i :| 0 <= i < |init| && init[i].InitialRead?;
        assert events[i] == init[i];
      }
      if exists i :: 0 <= i < |events| && events[i].InitialRead? {
        var i :| 0 <= i < |events| && events[i].InitialRead?;
        if i < |init| {
          assert init[i] == events[i];
        }
      }
    }
  }

  class RootLayoutNav {
    var session: Option<Session>
    var loading: bool

    constructor()
      ensures session == None && loading
    {
      session := None;
      loading := true;
    }

    /** `getSession().then(…)`: store the session and stop loading. */
    method InitialSessionRead(s: Option<Session>)
      modifies this
      ensures session == s && !loading
    {
      session := s;
      loading := false;
    }

    /** `onAuthStateChange`: only the session is replaced. */
    method AuthStateChanged(s: Option<Session>)
      modifies this
      ensures session == s && loading == old(loading)
    {
      session := s;
    }

    /** The redirect effect, run on every change of session, segments or
        loading, decides from the current state (`RedirectSpec`). */
    method RedirectEffect(segments: seq<string>, lookup: RoleLookup) returns (target: Option<Route>)
      ensures target == RedirectTarget(loading, session, segments, lookup)
    {
      target := RedirectTarget(loading, session, segments, lookup);
    }
  }
}
