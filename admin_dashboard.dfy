/**
 * The admin dashboard: two summary counts and a read-only user table, both
 * fetched once someone is signed in, and the logout button, which ends the
 * shared session before leaving the screen.
 */
module AdminDashboard {
  import opened Maybe
  import opened Api
  import Session

  /** The counts shown before the statistics request settles. */
  const NoStats := Stats(0, 0)

  class AdminDashboardScreen {
    var users: seq<UserRow>
    var loading: bool
    var stats: Stats

    constructor ()
      ensures users == [] && loading && stats == NoStats
    {
      users, loading, stats := [], true, NoStats;
    }

    /** The protection effect: with nobody signed in, go back to the public entry. */
    method GuardEffect(session: Option<Identity>) returns (redirect: Option<string>)
      ensures redirect.None? <==> session.Some?
      ensures redirect.Some? ==> redirect.value == Home
    {
      redirect := Guard(session);
    }

    /** The statistics effect: asks only while someone is signed in. */
    method StatsEffect(session: Option<Identity>) returns (req: Option<Request>)
      ensures req.Some? <==> session.Some?
      ensures req.Some? ==> req.value == FetchStats
    {
      req := if session.Some? then Some(FetchStats) else None;
    }

    /** Statistics arrived: they replace the counts; a failure is only logged. */
    method OnStatsLoaded(outcome: Outcome<Stats>)
      modifies this`stats
      ensures stats == if outcome.Succeeded? then outcome.data else old(stats)
    {
      if outcome.Succeeded? {
        stats := outcome.data;
      }
    }

    /** The users effect: asks only while someone is signed in (the spinner flag is not raised again). */
    method UsersEffect(session: Option<Identity>) returns (req: Option<Request>)
      ensures req.Some? <==> session.Some?
      ensures req.Some? ==> req.value == ListUsers
    {
      req := if session.Some? then Some(ListUsers) else None;
    }

    /** The users request settled: the list is replaced on success, kept on failure; loading ends. */
    method OnUsersLoaded(outcome: Outcome<seq<UserRow>>)
      modifies this`users, this`loading
      ensures !loading
      ensures users == if outcome.Succeeded? then outcome.data else old(users)
    {
      if outcome.Succeeded? {
        users := outcome.data;
      }
      loading := false;
    }

    /** `handleLogout`: end the shared session, then navigate to the public entry. */
    method HandleLogout(provider: Session.AuthProvider) returns (target: string)
      modifies provider
      ensures provider.Current() == Session.LoggedOut(old(provider.Current()))
      ensures provider.user == None && Session.UserKey !in provider.storage
      ensures target == Home
    {
      provider.Logout();
      target := Home;
    }
  }

  /**
   * Every screen shares the one provider: after the dashboard logs out, a
   * guard evaluated on the provider's identity redirects, and a reload of the
   * page stays signed out.
   */
  method LogoutThenGuard(saved: Session.Storage, u: Identity) returns (redirect: Option<string>, reloaded: Option<Identity>)
    ensures redirect == Some(Home)
    ensures reloaded == None
  {
    var provider := new Session.AuthProvider(saved);
    provider.HydrateEffect();
    provider.Login(u);
    var screen := new AdminDashboardScreen();
    var target := screen.HandleLogout(provider);
    redirect := screen.GuardEffect(provider.user);
    var again := new Session.AuthProvider(provider.storage);
    again.HydrateEffect();
    reloaded := again.user;
  }
}
