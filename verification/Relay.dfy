/**
 The Relay's routing state: routes, authorizations, logins, pending connections, tunnel
 setups and active tunnels, and what each event does to them.

 Sockets and tunnels are numbers.  Every handler that the server attaches to a socket or a
 timer is an event of its own that may come at any time; the clock is read once per event.
 */
module Relay {
  import opened Options
  import opened Capability

  datatype Route = Route(socket: nat, login: Option<LoginId>, owner: Option<LoginId>)

  /** A pending connection, a tunnel setup or an active tunnel: its route, and the owner it
      was accepted under. */
  datatype Claim = Claim(route: nat, owner: Option<LoginId>)

  type Claims = map<nat, Claim>

  /** A control socket's registration, as its close handler remembers it. */
  datatype Registration = Registration(route: nat, login: Option<LoginId>)

  /** `accepted` records the accepted generations; no decision reads it. */
  datatype State = State(
    routes: map<nat, Route>,
    auths: map<nat, Generation>,
    logins: map<LoginId, nat>,
    pending: Claims,
    setups: Claims,
    active: Claims,
    registrations: map<nat, Registration>,
    tunnels: nat,
    now: int,
    accepted: seq<(nat, Generation)>)

  datatype Config = Config(installation: string, maxAuthorizations: nat)

  const MAX_PENDING_CONNECTIONS := 1024
  const MAX_CONNECTIONS_PER_ROUTE := 32

  datatype Event =
    | Register(socket: nat, token: Token, profile: Option<Principal>)
    | Connect(route: nat, connection: nat, open: bool)
    | ClearPending(connection: nat)                      // accept timeout, or the browser left
    | AcceptTunnel(token: Token, connection: nat, open: bool)
    | TunnelReady(tunnel: nat, open: bool)
    | SetupFailed(tunnel: nat)
    | TunnelClosed(tunnel: nat)
    | ControlClosed(socket: nat)
    | CheckAuthorization(route: nat)                     // expiry timer, tunnel traffic, lookup

  function Init(): State {
    State(map[], map[], map[], map[], map[], map[], map[], 0, 0, [])
  }

  function On(claims: Claims, r: nat): set<nat> {
    set c | c in claims && claims[c].route == r
  }

  function DropLogin(logins: map<LoginId, nat>, login: Option<LoginId>, r: nat): map<LoginId, nat> {
    if login.Some? && login.value in logins && logins[login.value] == r then logins - {login.value} else logins
  }

  /** expireRouteAuthorization: the authorization goes, and everything that relied on it. */
  function Expire(s: State, r: nat): State {
    s.(auths := s.auths - {r},
       routes := s.routes - {r},
       logins := if r in s.routes then DropLogin(s.logins, s.routes[r].login, r) else s.logins,
       pending := s.pending - On(s.pending, r),
       setups := s.setups - On(s.setups, r),
       active := s.active - On(s.active, r))
  }

  /** currentRouteAuthorization: expire first if the time has come. */
  function Current(s: State, r: nat): State {
    if r in s.auths && Expired(s.auths[r], s.now) then Expire(s, r) else s
  }

  /** pruneRouteAuthorization: a finite authorization is kept as a high-water mark. */
  function Prune(s: State, r: nat): State {
    if r in s.routes || On(s.setups, r) != {} || On(s.active, r) != {} || On(s.pending, r) != {} then s
    else if r !in s.auths || s.auths[r].expiresAt.Some? then s
    else s.(auths := s.auths - {r})
  }

  /** The authorization's owner, or else the route's. */
  function HeldBy(s: State, r: nat): Option<LoginId> {
    if r in s.auths && s.auths[r].owner.Some? then s.auths[r].owner
    else if r in s.routes then s.routes[r].owner else None
  }

  predicate MayReplace(s: State, r: nat, g: Generation) {
    && (r in s.auths || r in s.routes ==> HeldBy(s, r) == g.owner)
    && (r in s.auths ==> Monotonic(s.auths[r], g))
  }

  /** The route's old login id goes if the new registration has another one. */
  function DropOldLogin(s: State, r: nat, login: Option<LoginId>): State {
    if r in s.routes && s.routes[r].login != login
    then s.(logins := DropLogin(s.logins, s.routes[r].login, r)) else s
  }

  function Install(s: State, socket: nat, r: nat, login: Option<LoginId>, g: Generation): State {
    s.(auths := s.auths[r := g],
       routes := s.routes[r := Route(socket, login, g.owner)],
       logins := if login.Some? then s.logins[login.value := r] else s.logins,
       registrations := s.registrations[socket := Registration(r, login)],
       accepted := s.accepted + [(r, g)])
  }

  /** The token verifies, the profile fits it, and no other route has its login. */
  predicate Presentable(c: Config, s: State, token: Token, profile: Option<Principal>) {
    var login := LoginOf(token.payload);
    && Verifies(token, c.installation, s.now)
    && !(login.Some? && profile.None?)
    && !(profile.Some? && profile.value != PrincipalOf(token.payload))
    && !(login.Some? && login.value in s.logins && s.logins[login.value] != token.payload.routeId)
  }

  function Enroll(c: Config, s: State, socket: nat, r: nat, login: Option<LoginId>, g: Generation): State {
    if !MayReplace(s, r, g) then s
    else
      var s2 := DropOldLogin(s, r, login);
      if r !in s2.auths && |s2.auths| >= c.maxAuthorizations then s2 else Install(s2, socket, r, login, g)
  }

  function StepRegister(c: Config, s: State, socket: nat, token: Token, profile: Option<Principal>): State {
    if socket in s.registrations || !Presentable(c, s, token, profile) then s
    else
      var r := token.payload.routeId;
      Enroll(c, Current(s, r), socket, r, LoginOf(token.payload), GenerationOf(token))
  }

  function Load(s: State, r: nat): nat {
    |On(s.active, r)| + |On(s.setups, r)| + |On(s.pending, r)|
  }

  function Admit(s: State, r: nat, connection: nat): State
    requires r in s.routes
  {
    s.(pending := s.pending[connection := Claim(r, s.routes[r].owner)])
  }

  function StepConnect(s: State, r: nat, connection: nat, open: bool): State {
    var s1 := Current(s, r);
    if r !in s1.auths || r !in s1.routes || !open || connection in s1.pending then s1
    else if |s1.pending| >= MAX_PENDING_CONNECTIONS || Load(s1, r) >= MAX_CONNECTIONS_PER_ROUTE then s1
    else Admit(s1, r, connection)
  }

  function Withdraw(s: State, connection: nat): State {
    s.(pending := s.pending - {connection})
  }

  /** The accepted connection becomes a tunnel setup. */
  function SetUp(s: State, r: nat, owner: Option<LoginId>): State {
    s.(setups := s.setups[s.tunnels := Claim(r, owner)], tunnels := s.tunnels + 1)
  }

  function StepAccept(c: Config, s: State, token: Token, connection: nat, open: bool): State {
    if !Verifies(token, c.installation, s.now) then s
    else if connection !in s.pending || s.pending[connection].route != token.payload.routeId then s
    else
      var p := s.pending[connection];
      var s1 := Current(s, p.route);
      var owner := OwnerOf(token.payload);
      if p.route !in s1.auths || s1.auths[p.route].owner != owner || owner != p.owner then s1
      else if !open then Withdraw(s1, connection)
      else SetUp(Withdraw(s1, connection), p.route, owner)
  }

  function Abort(s: State, x: nat): State {
    s.(setups := s.setups - {x})
  }

  function Activate(s: State, x: nat): State
    requires x in s.setups
  {
    s.(active := s.active[x := s.setups[x]], setups := s.setups - {x})
  }

  function FailSetup(s: State, x: nat): State {
    if x in s.setups then Prune(Abort(s, x), s.setups[x].route) else s
  }

  function StepReady(s: State, x: nat, open: bool): State {
    if x !in s.setups then s
    else
      var r := s.setups[x].route;
      var s1 := Current(s, r);
      if r !in s1.auths || !open then FailSetup(s1, x) else Prune(Activate(s1, x), r)
  }

  function Close(s: State, x: nat): State {
    s.(active := s.active - {x})
  }

  function Unregister(s: State, reg: Registration): State {
    s.(routes := s.routes - {reg.route}, logins := DropLogin(s.logins, reg.login, reg.route))
  }

  function StepControlClosed(s: State, socket: nat): State {
    if socket !in s.registrations then s
    else
      var reg := s.registrations[socket];
      if reg.route !in s.routes || s.routes[reg.route].socket != socket then s
      else Prune(Unregister(s, reg), reg.route)
  }

  function StepClearPending(s: State, connection: nat): State {
    if connection !in s.pending then s
    else Prune(Withdraw(s, connection), s.pending[connection].route)
  }

  function StepTunnelClosed(s: State, x: nat): State {
    if x in s.active then Prune(Close(s, x), s.active[x].route) else s
  }

  function Handle(c: Config, s: State, e: Event): State {
    match e
    case Register(socket, token, profile) => StepRegister(c, s, socket, token, profile)
    case Connect(r, connection, open) => StepConnect(s, r, connection, open)
    case ClearPending(connection) => StepClearPending(s, connection)
    case AcceptTunnel(token, connection, open) => StepAccept(c, s, token, connection, open)
    case TunnelReady(x, open) => StepReady(s, x, open)
    case SetupFailed(x) => FailSetup(s, x)
    case TunnelClosed(x) => StepTunnelClosed(s, x)
    case ControlClosed(socket) => StepControlClosed(s, socket)
    case CheckAuthorization(r) => Current(s, r)
  }

  /** One event at time `at`; the clock does not go back. */
  function Step(c: Config, s: State, at: int, e: Event): State {
    if at < s.now then s else Handle(c, s.(now := at), e)
  }

  function Run(c: Config, s: State, es: seq<(int, Event)>): State
    decreases |es|
  {
    if es == [] then s else Run(c, Step(c, s, es[0].0, es[0].1), es[1..])
  }

  // ----- what every reachable state satisfies

  ghost predicate Covered(auths: map<nat, Generation>, claims: Claims) {
    forall c :: c in claims ==> claims[c].route in auths && auths[claims[c].route].owner == claims[c].owner
  }

  /** Everything that hangs on a route has an authorization for that route, with the owner it
      was accepted under. */
  ghost predicate Isolated(s: State) {
    && (forall r :: r in s.routes ==> r in s.auths && s.auths[r].owner == s.routes[r].owner)
    && Covered(s.auths, s.pending) && Covered(s.auths, s.setups) && Covered(s.auths, s.active)
  }

  ghost predicate Inverse(logins: map<LoginId, nat>, routes: map<nat, Route>) {
    && (forall l :: l in logins ==> logins[l] in routes && routes[logins[l]].login == Some(l))
    && (forall r :: r in routes && routes[r].login.Some? ==>
          routes[r].login.value in logins && logins[routes[r].login.value] == r)
  }

  /** Every route's close handler knows the route and its login. */
  ghost predicate Handled(routes: map<nat, Route>, registrations: map<nat, Registration>) {
    forall r :: r in routes ==>
      routes[r].socket in registrations && registrations[routes[r].socket] == Registration(r, routes[r].login)
  }

  /** The login map is exactly the inverse of the registered routes' login ids. */
  ghost predicate LoginsInverse(s: State) {
    Inverse(s.logins, s.routes) && Handled(s.routes, s.registrations)
  }

  /** Tunnel numbers are never reused, and no tunnel is both being set up and active. */
  ghost predicate TunnelsDistinct(s: State) {
    && (forall x :: x in s.setups ==> x < s.tunnels && x !in s.active)
    && (forall x :: x in s.active ==> x < s.tunnels)
  }

  ghost predicate Bounded(c: Config, s: State) {
    && |s.pending| <= MAX_PENDING_CONNECTIONS
    && |s.auths| <= c.maxAuthorizations
    && forall r: nat {:trigger Load(s, r)} :: Load(s, r) <= MAX_CONNECTIONS_PER_ROUTE
  }

  ghost predicate Inv(c: Config, s: State) {
    Isolated(s) && LoginsInverse(s) && TunnelsDistinct(s) && Bounded(c, s)
  }

  // ----- what each primitive change keeps

  lemma SubsetSize<T>(a: set<T>, b: set<T>)
    requires a <= b
    ensures |a| <= |b|
  {
    if a != {} {
      var x :| x in a;
      SubsetSize(a - {x}, b - {x});
    }
  }

  ghost predicate Within(t: Claims, s: Claims) {
    t.Keys <= s.Keys && forall c :: c in t ==> t[c] == s[c]
  }

  /** A step that only takes away. */
  ghost predicate Shrinks(s: State, t: State) {
    t.auths.Keys <= s.auths.Keys && Within(t.pending, s.pending) && Within(t.setups, s.setups) && Within(t.active, s.active)
  }

  lemma FewerClaims(s: Claims, t: Claims, r: nat)
    requires Within(t, s)
    ensures |On(t, r)| <= |On(s, r)|
  {
    SubsetSize(On(t, r), On(s, r));
  }

  lemma ShrinkingKeepsBounds(c: Config, s: State, t: State)
    requires Bounded(c, s) && Shrinks(s, t)
    ensures Bounded(c, t)
  {
    SubsetSize(t.auths.Keys, s.auths.Keys);
    SubsetSize(t.pending.Keys, s.pending.Keys);
    forall r: nat ensures Load(t, r) <= MAX_CONNECTIONS_PER_ROUTE {
      FewerClaims(s.setups, t.setups, r);
      FewerClaims(s.active, t.active, r);
      FewerClaims(s.pending, t.pending, r);
      assert Load(s, r) <= MAX_CONNECTIONS_PER_ROUTE;
    }
  }

  lemma ExpireIsolates(s: State, r: nat)
    requires Isolated(s)
    ensures Isolated(Expire(s, r))
  {
  }

  lemma ExpireKeepsLogins(s: State, r: nat)
    requires LoginsInverse(s)
    ensures LoginsInverse(Expire(s, r))
  {
  }

  lemma ExpireShrinks(s: State, r: nat)
    requires TunnelsDistinct(s)
    ensures Shrinks(s, Expire(s, r)) && TunnelsDistinct(Expire(s, r))
  {
  }

  lemma ExpireKeepsInv(c: Config, s: State, r: nat)
    requires Inv(c, s)
    ensures Inv(c, Expire(s, r))
  {
    ExpireIsolates(s, r);
    ExpireKeepsLogins(s, r);
    ExpireShrinks(s, r);
    ShrinkingKeepsBounds(c, s, Expire(s, r));
  }

  lemma RouteGoes(logins: map<LoginId, nat>, routes: map<nat, Route>, r: nat)
    requires Inverse(logins, routes) && r in routes
    ensures Inverse(DropLogin(logins, routes[r].login, r), routes - {r})
  {
  }

  lemma RouteComes(logins: map<LoginId, nat>, routes: map<nat, Route>, r: nat, route: Route)
    requires Inverse(logins, routes)
    requires route.login.Some? && route.login.value in logins ==> logins[route.login.value] == r
    ensures var kept := if r in routes && routes[r].login != route.login then DropLogin(logins, routes[r].login, r) else logins;
            Inverse(if route.login.Some? then kept[route.login.value := r] else kept, routes[r := route])
  {
  }

  /** Dropping a route's authorization together with its claims leaves the rest covered. */
  lemma UncoverRoute(auths: map<nat, Generation>, claims: Claims, r: nat)
    requires Covered(auths, claims)
    ensures Covered(auths - {r}, claims - On(claims, r))
  {
  }

  lemma CurrentKeepsInv(c: Config, s: State, r: nat)
    requires Inv(c, s)
    ensures Inv(c, Current(s, r))
  {
    ExpireKeepsInv(c, s, r);
  }

  lemma UnclaimedRoute(auths: map<nat, Generation>, claims: Claims, r: nat)
    requires Covered(auths, claims) && On(claims, r) == {}
    ensures Covered(auths - {r}, claims)
  {
    UncoverRoute(auths, claims, r);
    assert claims - On(claims, r) == claims;
  }

  lemma PruneIsolates(s: State, r: nat)
    requires Isolated(s)
    ensures Isolated(Prune(s, r))
  {
    if Prune(s, r) != s {
      UnclaimedRoute(s.auths, s.pending, r);
      UnclaimedRoute(s.auths, s.setups, r);
      UnclaimedRoute(s.auths, s.active, r);
    }
  }

  lemma PruneShrinks(s: State, r: nat)
    ensures Shrinks(s, Prune(s, r)) && Prune(s, r) == s.(auths := Prune(s, r).auths)
  {
  }

  lemma PruneKeepsInv(c: Config, s: State, r: nat)
    requires Inv(c, s)
    ensures Inv(c, Prune(s, r))
  {
    PruneIsolates(s, r);
    PruneShrinks(s, r);
    ShrinkingKeepsBounds(c, s, Prune(s, r));
  }

  lemma WithdrawKeepsInv(c: Config, s: State, connection: nat)
    requires Inv(c, s)
    ensures Inv(c, Withdraw(s, connection))
  {
    ShrinkingKeepsBounds(c, s, Withdraw(s, connection));
  }

  lemma AbortKeepsInv(c: Config, s: State, x: nat)
    requires Inv(c, s)
    ensures Inv(c, Abort(s, x))
  {
    ShrinkingKeepsBounds(c, s, Abort(s, x));
  }

  lemma CloseKeepsInv(c: Config, s: State, x: nat)
    requires Inv(c, s)
    ensures Inv(c, Close(s, x))
  {
    ShrinkingKeepsBounds(c, s, Close(s, x));
  }

  lemma UnregisterKeepsInv(c: Config, s: State, reg: Registration)
    requires Inv(c, s) && reg.route in s.routes && s.routes[reg.route].login == reg.login
    ensures Inv(c, Unregister(s, reg))
  {
    ShrinkingKeepsBounds(c, s, Unregister(s, reg));
    RouteGoes(s.logins, s.routes, reg.route);
  }

  lemma OnAdd(claims: Claims, c: nat, claim: Claim, r: nat)
    requires c !in claims
    ensures |On(claims[c := claim], r)| == |On(claims, r)| + if claim.route == r then 1 else 0
  {
    if claim.route == r {
      assert On(claims[c := claim], r) == On(claims, r) + {c};
    } else {
      assert On(claims[c := claim], r) == On(claims, r);
    }
  }

  lemma OnRemove(claims: Claims, c: nat, r: nat)
    requires c in claims
    ensures |On(claims - {c}, r)| == |On(claims, r)| - if claims[c].route == r then 1 else 0
  {
    if claims[c].route == r {
      assert On(claims, r) == On(claims - {c}, r) + {c};
    } else {
      assert On(claims - {c}, r) == On(claims, r);
    }
  }

  lemma InstallIsolates(s: State, socket: nat, r: nat, login: Option<LoginId>, g: Generation)
    requires Isolated(s) && (r in s.auths ==> s.auths[r].owner == g.owner)
    ensures Isolated(Install(DropOldLogin(s, r, login), socket, r, login, g))
  {
  }

  lemma InstallKeepsLogins(s: State, socket: nat, r: nat, login: Option<LoginId>, g: Generation)
    requires LoginsInverse(s) && socket !in s.registrations
    requires login.Some? && login.value in s.logins ==> s.logins[login.value] == r
    ensures LoginsInverse(Install(DropOldLogin(s, r, login), socket, r, login, g))
  {
    RouteComes(s.logins, s.routes, r, Route(socket, login, g.owner));
  }

  lemma InstallKeepsBounds(c: Config, s: State, socket: nat, r: nat, login: Option<LoginId>, g: Generation)
    requires Bounded(c, s) && (r in s.auths || |s.auths| < c.maxAuthorizations)
    ensures Bounded(c, Install(DropOldLogin(s, r, login), socket, r, login, g))
  {
    var t := Install(DropOldLogin(s, r, login), socket, r, login, g);
    assert t.auths.Keys == s.auths.Keys + {r};
    forall q: nat ensures Load(t, q) <= MAX_CONNECTIONS_PER_ROUTE {
      assert Load(t, q) == Load(s, q);
    }
  }

  lemma InstallKeepsInv(c: Config, s: State, socket: nat, r: nat, login: Option<LoginId>, g: Generation)
    requires Inv(c, s) && socket !in s.registrations
    requires login.Some? && login.value in s.logins ==> s.logins[login.value] == r
    requires r in s.auths ==> s.auths[r].owner == g.owner
    requires r in s.auths || |s.auths| < c.maxAuthorizations
    ensures Inv(c, Install(DropOldLogin(s, r, login), socket, r, login, g))
  {
    InstallIsolates(s, socket, r, login, g);
    InstallKeepsLogins(s, socket, r, login, g);
    InstallKeepsBounds(c, s, socket, r, login, g);
  }

  lemma EnrollKeepsInv(c: Config, s: State, socket: nat, r: nat, login: Option<LoginId>, g: Generation)
    requires Inv(c, s) && socket !in s.registrations
    requires login.Some? && login.value in s.logins ==> s.logins[login.value] == r
    ensures Inv(c, Enroll(c, s, socket, r, login, g))
  {
    if MayReplace(s, r, g) && (r in s.auths || |s.auths| < c.maxAuthorizations) {
      InstallKeepsInv(c, s, socket, r, login, g);
    }
  }

  lemma RegisterKeepsInv(c: Config, s: State, socket: nat, token: Token, profile: Option<Principal>)
    requires Inv(c, s)
    ensures Inv(c, StepRegister(c, s, socket, token, profile))
  {
    if socket !in s.registrations && Presentable(c, s, token, profile) {
      var r := token.payload.routeId;
      CurrentKeepsInv(c, s, r);
      EnrollKeepsInv(c, Current(s, r), socket, r, LoginOf(token.payload), GenerationOf(token));
    }
  }

  lemma AdmitLoad(s: State, r: nat, connection: nat, q: nat)
    requires r in s.routes && connection !in s.pending
    ensures Load(Admit(s, r, connection), q) == Load(s, q) + if q == r then 1 else 0
  {
    OnAdd(s.pending, connection, Claim(r, s.routes[r].owner), q);
  }

  lemma AdmitKeepsBounds(c: Config, s: State, r: nat, connection: nat)
    requires Bounded(c, s) && r in s.routes && connection !in s.pending
    requires |s.pending| < MAX_PENDING_CONNECTIONS && Load(s, r) < MAX_CONNECTIONS_PER_ROUTE
    ensures Bounded(c, Admit(s, r, connection))
  {
    var t := Admit(s, r, connection);
    assert |t.pending| == |s.pending| + 1 by { assert t.pending.Keys == s.pending.Keys + {connection}; }
    forall q: nat ensures Load(t, q) <= MAX_CONNECTIONS_PER_ROUTE {
      AdmitLoad(s, r, connection, q);
      assert Load(s, q) <= MAX_CONNECTIONS_PER_ROUTE;
    }
  }

  lemma AdmitKeepsInv(c: Config, s: State, r: nat, connection: nat)
    requires Inv(c, s) && r in s.routes && connection !in s.pending
    requires |s.pending| < MAX_PENDING_CONNECTIONS && Load(s, r) < MAX_CONNECTIONS_PER_ROUTE
    ensures Inv(c, Admit(s, r, connection))
  {
    AdmitKeepsBounds(c, s, r, connection);
  }

  lemma ConnectKeepsInv(c: Config, s: State, r: nat, connection: nat, open: bool)
    requires Inv(c, s)
    ensures Inv(c, StepConnect(s, r, connection, open))
  {
    CurrentKeepsInv(c, s, r);
    var s1 := Current(s, r);
    if StepConnect(s, r, connection, open) != s1 { AdmitKeepsInv(c, s1, r, connection); }
  }

  lemma SetUpKeepsInv(c: Config, s: State, connection: nat)
    requires Inv(c, s) && connection in s.pending
    ensures Inv(c, SetUp(Withdraw(s, connection), s.pending[connection].route, s.pending[connection].owner))
  {
    var p := s.pending[connection];
    var t := SetUp(Withdraw(s, connection), p.route, p.owner);
    assert Bounded(c, t) by {
      SubsetSize(t.pending.Keys, s.pending.Keys);
      forall q: nat ensures Load(t, q) <= MAX_CONNECTIONS_PER_ROUTE {
        OnRemove(s.pending, connection, q);
        OnAdd(s.setups, s.tunnels, Claim(p.route, p.owner), q);
        assert Load(t, q) == Load(s, q);
      }
    }
  }

  lemma AcceptKeepsInv(c: Config, s: State, token: Token, connection: nat, open: bool)
    requires Inv(c, s)
    ensures Inv(c, StepAccept(c, s, token, connection, open))
  {
    if connection in s.pending {
      var r := s.pending[connection].route;
      CurrentKeepsInv(c, s, r);
      var s1 := Current(s, r);
      if r in s1.auths {
        assert s1 == s;
        WithdrawKeepsInv(c, s1, connection);
        SetUpKeepsInv(c, s1, connection);
      }
    }
  }

  lemma ActivateKeepsInv(c: Config, s: State, x: nat)
    requires Inv(c, s) && x in s.setups
    ensures Inv(c, Activate(s, x))
  {
    var t := Activate(s, x);
    forall q: nat ensures Load(t, q) <= MAX_CONNECTIONS_PER_ROUTE {
      OnRemove(s.setups, x, q);
      OnAdd(s.active, x, s.setups[x], q);
      assert Load(t, q) == Load(s, q);
    }
  }

  lemma FailSetupKeepsInv(c: Config, s: State, x: nat)
    requires Inv(c, s)
    ensures Inv(c, FailSetup(s, x))
  {
    if x in s.setups {
      AbortKeepsInv(c, s, x);
      PruneKeepsInv(c, Abort(s, x), s.setups[x].route);
    }
  }

  lemma ReadyKeepsInv(c: Config, s: State, x: nat, open: bool)
    requires Inv(c, s)
    ensures Inv(c, StepReady(s, x, open))
  {
    if x in s.setups {
      var r := s.setups[x].route;
      CurrentKeepsInv(c, s, r);
      var s1 := Current(s, r);
      if r !in s1.auths || !open {
        FailSetupKeepsInv(c, s1, x);
      } else {
        ActivateKeepsInv(c, s1, x);
        PruneKeepsInv(c, Activate(s1, x), r);
      }
    }
  }

  lemma ControlClosedKeepsInv(c: Config, s: State, socket: nat)
    requires Inv(c, s)
    ensures Inv(c, StepControlClosed(s, socket))
  {
    if socket in s.registrations {
      var reg := s.registrations[socket];
      if reg.route in s.routes && s.routes[reg.route].socket == socket {
        UnregisterKeepsInv(c, s, reg);
        PruneKeepsInv(c, Unregister(s, reg), reg.route);
      }
    }
  }

  lemma ClockKeepsInv(c: Config, s: State, at: int)
    requires Inv(c, s)
    ensures Inv(c, s.(now := at))
  {
    ShrinkingKeepsBounds(c, s, s.(now := at));
  }

  lemma ClearPendingKeepsInv(c: Config, s: State, connection: nat)
    requires Inv(c, s)
    ensures Inv(c, StepClearPending(s, connection))
  {
    if connection in s.pending {
      WithdrawKeepsInv(c, s, connection);
      PruneKeepsInv(c, Withdraw(s, connection), s.pending[connection].route);
    }
  }

  lemma TunnelClosedKeepsInv(c: Config, s: State, x: nat)
    requires Inv(c, s)
    ensures Inv(c, StepTunnelClosed(s, x))
  {
    if x in s.active {
      CloseKeepsInv(c, s, x);
      PruneKeepsInv(c, Close(s, x), s.active[x].route);
    }
  }

  /** Registrations, connections and control sockets. */
  lemma RouteEventsKeepInv(c: Config, s: State, e: Event)
    requires Inv(c, s) && (e.Register? || e.Connect? || e.ControlClosed? || e.CheckAuthorization?)
    ensures Inv(c, Handle(c, s, e))
  {
    match e
    case Register(socket, token, profile) => RegisterKeepsInv(c, s, socket, token, profile);
    case Connect(r, connection, open) => ConnectKeepsInv(c, s, r, connection, open);
    case ControlClosed(socket) => ControlClosedKeepsInv(c, s, socket);
    case CheckAuthorization(r) => CurrentKeepsInv(c, s, r);
  }

  lemma TunnelEventsKeepInv(c: Config, s: State, e: Event)
    requires Inv(c, s) && (e.ClearPending? || e.AcceptTunnel? || e.TunnelReady? || e.SetupFailed? || e.TunnelClosed?)
    ensures Inv(c, Handle(c, s, e))
  {
    match e
    case ClearPending(connection) => ClearPendingKeepsInv(c, s, connection);
    case AcceptTunnel(token, connection, open) => AcceptKeepsInv(c, s, token, connection, open);
    case TunnelReady(x, open) => ReadyKeepsInv(c, s, x, open);
    case SetupFailed(x) => FailSetupKeepsInv(c, s, x);
    case TunnelClosed(x) => TunnelClosedKeepsInv(c, s, x);
  }

  lemma StepKeepsInv(c: Config, s0: State, at: int, e: Event)
    requires Inv(c, s0)
    ensures Inv(c, Step(c, s0, at, e))
  {
    if at >= s0.now {
      var s := s0.(now := at);
      ClockKeepsInv(c, s0, at);
      if e.Register? || e.Connect? || e.ControlClosed? || e.CheckAuthorization? {
        RouteEventsKeepInv(c, s, e);
      } else {
        TunnelEventsKeepInv(c, s, e);
      }
    }
  }

  lemma {:induction false} RunKeepsInv(c: Config, s: State, es: seq<(int, Event)>)
    requires Inv(c, s)
    ensures Inv(c, Run(c, s, es))
    decreases |es|
  {
    if es != [] {
      StepKeepsInv(c, s, es[0].0, es[0].1);
      RunKeepsInv(c, Step(c, s, es[0].0, es[0].1), es[1..]);
    }
  }

  lemma InitInv(c: Config)
    ensures Inv(c, Init())
  {
  }

  /** Every reachable state: owners are isolated, the login map is the exact inverse, tunnel
      numbers are unique, and the per-route, pending and authorization limits hold. */
  lemma RelayIsSound(c: Config, es: seq<(int, Event)>)
    ensures Inv(c, Run(c, Init(), es))
  {
    InitInv(c);
    RunKeepsInv(c, Init(), es);
  }
}
