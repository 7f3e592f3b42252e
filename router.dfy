/**
 * The navigation guard (src/router/index.ts): the route table's `requiresAuth` flags and
 * the `beforeEach` decision. Targets are matched by exact path.
 */
module Router {
  import opened Wrappers
  import opened Backend
  import opened Auth

  datatype RouteRecord = RouteRecord(path: string, name: string, requiresAuth: bool)

  const Routes: seq<RouteRecord> := [
    RouteRecord("/login", "login", false),
    RouteRecord("/", "map", true),
    RouteRecord("/stats", "stats", true)
  ]

  /** The first record of `table` for `path`. */
  function Resolve(path: string, table: seq<RouteRecord>): (r: Option<RouteRecord>)
    ensures r.Some? ==> r.value in table && r.value.path == path
    ensures r.None? <==> forall rec :: rec in table ==> rec.path != path
  {
    if table == [] then None
    else if table[0].path == path then Some(table[0])
    else
      assert table == [table[0]] + table[1..];
      Resolve(path, table[1..])
  }

  /** `to.meta.requiresAuth`; a path with no route has empty meta, so false. */
  predicate RequiresAuth(path: string) {
    match Resolve(path, Routes)
    case Some(r) => r.requiresAuth
    case None => false
  }

  /** The public and the protected routes. */
  lemma RouteTable()
    ensures !RequiresAuth("/login")
    ensures RequiresAuth("/") && RequiresAuth("/stats")
    ensures forall p :: p != "/login" && p != "/" && p != "/stats" ==> !RequiresAuth(p)
  {
    assert Routes[0].path == "/login" && Routes[1].path == "/" && Routes[2].path == "/stats";
    assert Resolve("/", Routes) == Resolve("/", Routes[1..]);
    assert Resolve("/stats", Routes) == Resolve("/stats", Routes[1..]);
    assert Resolve("/stats", Routes[1..]) == Resolve("/stats", Routes[2..]);
  }

  datatype Decision = Proceed | Redirect(routeName: string)

  /** The guard's choice once initialization is done. */
  function Decide(path: string, authenticated: bool): (d: Decision)
    ensures d == Redirect("login") <==> RequiresAuth(path) && !authenticated
    ensures d.Proceed? <==> !(RequiresAuth(path) && !authenticated)
  {
    if RequiresAuth(path) && !authenticated then Redirect("login") else Proceed
  }

  /** Whatever the session, navigation to `/login` goes ahead, and a redirect never lands on a protected route. */
  lemma LoginNeverRedirected(authenticated: bool)
    ensures Decide("/login", authenticated) == Proceed
    ensures forall rec :: rec in Routes && rec.name == "login" ==> !rec.requiresAuth
  {
    RouteTable();
  }

  /**
   * `beforeEach`: run the session store's `init` first if it has not run (given the reply
   * to its `getSession`), then decide.
   */
  method BeforeEach(auth: AuthStore, to: string, session: Reply<Option<SessionUser>>) returns (d: Decision)
    modifies auth
    ensures old(auth.isInitialized) ==> unchanged(auth)
    ensures !old(auth.isInitialized) ==>
              auth.isInitialized && !auth.isLoading &&
              auth.user == (if session.Ok? && session.data.Some? then Some(UserOfSession(session.data.value)) else old(auth.user))
    ensures auth.error == old(auth.error) && auth.isLoggingIn == old(auth.isLoggingIn) && auth.isRegistering == old(auth.isRegistering)
    ensures d == Decide(to, auth.IsAuthenticated())
    ensures d == Redirect("login") <==> RequiresAuth(to) && auth.user.None?
  {
    if !auth.isInitialized {
      auth.Init(session);
    }
    d := Decide(to, auth.IsAuthenticated());
  }
}
