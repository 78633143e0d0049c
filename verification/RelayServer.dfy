/**
 The Relay server as an object that its socket and timer handlers change.

 The server keeps tunnel setups and active tunnels per route, drops a route's entry with its
 last tunnel, and scans the pending connections where it needs a route's share.  `view` is
 the flat state of module Relay; every handler is proved to make that machine's step.
 */
module RelayServers {
  import opened Options
  import opened Capability
  import opened Relay

  type Index = map<nat, set<nat>>

  /** The tunnels of a route, under that route, and no empty entries. */
  ghost predicate Indexes(index: Index, claims: Claims) {
    forall r: nat :: (r in index <==> On(claims, r) != {}) && (r in index ==> index[r] == On(claims, r))
  }

  function Included(index: Index, r: nat, x: nat): Index {
    index[r := (if r in index then index[r] else {}) + {x}]
  }

  function Excluded(index: Index, r: nat, x: nat): Index {
    if r !in index then index
    else if index[r] - {x} == {} then index - {r} else index[r := index[r] - {x}]
  }

  lemma IndexesIncluded(index: Index, claims: Claims, x: nat, claim: Claim)
    requires Indexes(index, claims) && x !in claims
    ensures Indexes(Included(index, claim.route, x), claims[x := claim])
  {
  }

  lemma IndexesExcluded(index: Index, claims: Claims, x: nat)
    requires Indexes(index, claims) && x in claims
    ensures Indexes(Excluded(index, claims[x].route, x), claims - {x})
  {
  }

  lemma IndexesDropped(index: Index, claims: Claims, r: nat)
    requires Indexes(index, claims)
    ensures Indexes(index - {r}, claims - On(claims, r))
  {
  }

  /** A claim's route is the one its tunnel object was made with. */
  ghost predicate Made(claims: Claims, made: seq<nat>) {
    forall x :: x in claims ==> x < |made| && claims[x].route == made[x]
  }

  ghost predicate Filed(setups: Index, active: Index, made: seq<nat>, s: State) {
    && Indexes(setups, s.setups) && Indexes(active, s.active)
    && Made(s.setups, made) && Made(s.active, made) && s.tunnels == |made|
  }

  predicate Lists(index: Index, r: nat, x: nat) { r in index && x in index[r] }

  lemma Lookup(index: Index, claims: Claims, made: seq<nat>, x: nat)
    requires Indexes(index, claims) && Made(claims, made) && x < |made|
    ensures Lists(index, made[x], x) <==> x in claims
  {
    assert x in claims ==> x in On(claims, made[x]);
  }

  lemma FiledWhenExpired(setups: Index, active: Index, made: seq<nat>, s: State, r: nat)
    requires Filed(setups, active, made, s)
    ensures Filed(setups - {r}, active - {r}, made, Expire(s, r))
  {
    IndexesDropped(setups, s.setups, r);
    IndexesDropped(active, s.active, r);
  }

  lemma FiledWhenSetUp(setups: Index, active: Index, made: seq<nat>, s: State, r: nat, owner: Option<LoginId>)
    requires Filed(setups, active, made, s)
    ensures Filed(Included(setups, r, |made|), active, made + [r], SetUp(s, r, owner))
  {
    IndexesIncluded(setups, s.setups, |made|, Claim(r, owner));
  }

  lemma FiledWhenAborted(setups: Index, active: Index, made: seq<nat>, s: State, x: nat)
    requires Filed(setups, active, made, s) && x in s.setups
    ensures Filed(Excluded(setups, made[x], x), active, made, Abort(s, x))
  {
    IndexesExcluded(setups, s.setups, x);
  }

  /** The tunnel is listed, its setup not yet removed. */
  function Listed(s: State, x: nat): State
    requires x in s.setups
  {
    s.(active := s.active[x := s.setups[x]])
  }

  lemma FiledWhenListed(setups: Index, active: Index, made: seq<nat>, s: State, x: nat)
    requires Filed(setups, active, made, s) && x in s.setups && x !in s.active
    ensures Filed(setups, Included(active, made[x], x), made, Listed(s, x))
  {
    IndexesIncluded(active, s.active, x, s.setups[x]);
  }

  lemma FiledWhenClosed(setups: Index, active: Index, made: seq<nat>, s: State, x: nat)
    requires Filed(setups, active, made, s) && x in s.active
    ensures Filed(setups, Excluded(active, made[x], x), made, Close(s, x))
  {
    IndexesExcluded(active, s.active, x);
  }

  class RelayServer {
    const config: Config
    var now: int
    var routes: map<nat, Route>
    var authorizations: map<nat, Generation>
    var logins: map<LoginId, nat>
    var pending: Claims
    var pendingTunnelSetups: Index
    var activeByRoute: Index
    var closeHandlers: map<nat, Registration>
    var tunnelRoutes: seq<nat>      // the route of every tunnel object made so far
    ghost var view: State

    ghost predicate Valid()
      reads this
    {
      Mirrors() && view.setups.Keys !! view.active.Keys
    }

    ghost predicate Mirrors()
      reads this
    {
      && view.now == now && view.routes == routes && view.auths == authorizations && view.logins == logins
      && view.pending == pending && view.registrations == closeHandlers
      && Filed(pendingTunnelSetups, activeByRoute, tunnelRoutes, view)
    }

    constructor (config: Config)
      ensures Valid() && view == Init() && this.config == config
    {
      this.config := config;
      now := 0;
      routes, authorizations, logins, pending := map[], map[], map[], map[];
      pendingTunnelSetups, activeByRoute, closeHandlers, tunnelRoutes := map[], map[], map[], [];
      view := Init();
    }

    /** Any handler, at any time: exactly one step of the machine. */
    method Handle(at: int, e: Event)
      requires Valid() && at >= now
      modifies this
      ensures Valid() && view == Step(config, old(view), at, e)
    {
      Advance(at);
      match e
      case Register(socket, token, profile) => var _ := Register(socket, token, profile);
      case Connect(r, connection, open) => var _ := Connect(r, connection, open);
      case ClearPending(connection) => ClearPending(connection);
      case AcceptTunnel(token, connection, open) => var _ := AcceptTunnel(token, connection, open);
      case TunnelReady(x, open) => if x < |tunnelRoutes| { var _ := TunnelReady(x, open); }
      case SetupFailed(x) => if x < |tunnelRoutes| { RemovePendingTunnelSetup(x); }
      case TunnelClosed(x) => if x < |tunnelRoutes| { RemoveActiveTunnel(x); }
      case ControlClosed(socket) => ControlClosed(socket);
      case CheckAuthorization(r) => var _ := CurrentRouteAuthorization(r);
    }

    method Advance(at: int)
      requires Valid() && at >= now
      modifies this`now, this`view
      ensures Valid() && view == old(view).(now := at)
    {
      now := at;
      view := view.(now := at);
    }

    /** The scan that both the load and the pruning of a route make. */
    method PendingOn(r: nat) returns (n: nat)
      ensures n == |On(pending, r)|
    {
      n := 0;
      var rest := pending.Keys;
      ghost var counted: set<nat> := {};
      while rest != {}
        invariant rest <= pending.Keys
        invariant counted == On(pending, r) - rest && n == |counted|
      {
        var k :| k in rest;
        rest := rest - {k};
        if pending[k].route == r {
          n := n + 1;
          counted := counted + {k};
        }
      }
      assert counted == On(pending, r);
    }

    method DropPendingOn(r: nat)
      modifies this`pending
      ensures pending == old(pending) - On(old(pending), r)
    {
      var rest := pending.Keys;
      while rest != {}
        invariant rest <= pending.Keys && pending == old(pending) - (On(old(pending), r) - rest)
      {
        var k :| k in rest;
        rest := rest - {k};
        if pending[k].route == r { pending := pending - {k}; }
      }
      assert pending == old(pending) - On(old(pending), r);
    }

    method DropRoute(r: nat)
      modifies this`routes, this`logins
      ensures routes == old(routes) - {r}
      ensures logins == if r in old(routes) then DropLogin(old(logins), old(routes)[r].login, r) else old(logins)
    {
      if r in routes {
        var route := routes[r];
        routes := routes - {r};
        if route.login.Some? && route.login.value in logins && logins[route.login.value] == r {
          logins := logins - {route.login.value};
        }
      }
    }

    /** The route's authorization, registration, login and pending connections. */
    method DropRecords(r: nat)
      modifies this`authorizations, this`routes, this`logins, this`pending
      ensures authorizations == old(authorizations) - {r} && routes == old(routes) - {r}
      ensures logins == if r in old(routes) then DropLogin(old(logins), old(routes)[r].login, r) else old(logins)
      ensures pending == old(pending) - On(old(pending), r)
    {
      authorizations := authorizations - {r};
      DropRoute(r);
      DropPendingOn(r);
    }

    method ExpireRouteAuthorization(r: nat)
      requires Valid() && r in authorizations
      modifies this
      ensures Valid() && view == Expire(old(view), r)
      ensures tunnelRoutes == old(tunnelRoutes)
    {
      FiledWhenExpired(pendingTunnelSetups, activeByRoute, tunnelRoutes, view, r);
      DropRecords(r);
      pendingTunnelSetups := pendingTunnelSetups - {r};
      activeByRoute := activeByRoute - {r};
      view := Expire(view, r);
    }

    method CurrentRouteAuthorization(r: nat) returns (a: Option<Generation>)
      requires Valid()
      modifies this
      ensures Valid() && view == Current(old(view), r)
      ensures a == if r in view.auths then Some(view.auths[r]) else None
      ensures tunnelRoutes == old(tunnelRoutes)
    {
      if r !in authorizations { return None; }
      if authorizations[r].expiresAt.Some? && authorizations[r].expiresAt.value <= now {
        ExpireRouteAuthorization(r);
        return None;
      }
      return Some(authorizations[r]);
    }

    method PruneRouteAuthorization(r: nat)
      requires Valid()
      modifies this`authorizations, this`view
      ensures Valid() && view == Prune(old(view), r)
    {
      if r in routes || r in pendingTunnelSetups || r in activeByRoute { return; }
      var waiting := PendingOn(r);
      if waiting > 0 || r !in authorizations || authorizations[r].expiresAt.Some? { return; }
      authorizations := authorizations - {r};
      view := Prune(view, r);
    }

    /** The checks that come before the authorization is looked up. */
    method Presents(token: Token, profile: Option<Principal>) returns (ok: bool)
      requires Valid()
      ensures ok <==> Presentable(config, view, token, profile)
    {
      var login := LoginOf(token.payload);
      if !Verifies(token, config.installation, now) { return false; }
      if login.Some? && profile.None? { return false; }
      if profile.Some? && profile.value != PrincipalOf(token.payload) { return false; }
      return !(login.Some? && login.value in logins && logins[login.value] != token.payload.routeId);
    }

    method Register(socket: nat, token: Token, profile: Option<Principal>) returns (ok: bool)
      requires Valid()
      modifies this
      ensures Valid() && view == StepRegister(config, old(view), socket, token, profile)
      ensures |view.accepted| == |old(view).accepted| + if ok then 1 else 0
    {
      if socket in closeHandlers { return false; }
      ok := Presents(token, profile);
      if !ok { return; }
      var r, login, generation := token.payload.routeId, LoginOf(token.payload), GenerationOf(token);
      var authorized := CurrentRouteAuthorization(r);
      ok := Replaces(r, authorized, generation);
      if !ok { return; }
      ForgetLogin(r, login);
      if r !in authorizations && |authorizations| >= config.maxAuthorizations { return false; }
      Enter(socket, r, login, generation);
    }

    method Enter(socket: nat, r: nat, login: Option<LoginId>, generation: Generation)
      requires Valid()
      modifies this
      ensures Valid() && view == Install(old(view), socket, r, login, generation)
    {
      authorizations := authorizations[r := generation];
      routes := routes[r := Route(socket, login, generation.owner)];
      if login.Some? { logins := logins[login.value := r]; }
      closeHandlers := closeHandlers[socket := Registration(r, login)];
      view := Install(view, socket, r, login, generation);
    }

    method Replaces(r: nat, authorized: Option<Generation>, generation: Generation) returns (ok: bool)
      requires Valid() && authorized == if r in authorizations then Some(authorizations[r]) else None
      ensures ok <==> MayReplace(view, r, generation)
    {
      if authorized.Some? || r in routes {
        var held := if authorized.Some? && authorized.value.owner.Some? then authorized.value.owner
                    else if r in routes then routes[r].owner else None;
        if held != generation.owner { return false; }
      }
      return authorized.Some? ==> Monotonic(authorized.value, generation);
    }

    method ForgetLogin(r: nat, login: Option<LoginId>)
      requires Valid()
      modifies this`logins, this`view
      ensures Valid() && view == DropOldLogin(old(view), r, login)
    {
      if r in routes && routes[r].login.Some? && routes[r].login != login {
        var before := routes[r].login.value;
        if before in logins && logins[before] == r { logins := logins - {before}; }
      }
      view := DropOldLogin(view, r, login);
    }

    method Connect(r: nat, connection: nat, open: bool) returns (ok: bool)
      requires Valid()
      modifies this
      ensures Valid() && view == StepConnect(old(view), r, connection, open)
    {
      var authorized := CurrentRouteAuthorization(r);
      if authorized.None? || r !in routes || !open || connection in pending { return false; }
      var load := RouteLoad(r);
      if |pending| >= MAX_PENDING_CONNECTIONS || load >= MAX_CONNECTIONS_PER_ROUTE { return false; }
      AddPending(r, connection);
      return true;
    }

    method RouteLoad(r: nat) returns (load: nat)
      requires Mirrors()
      ensures load == Load(view, r)
    {
      load := PendingOn(r);
      if r in activeByRoute { load := load + |activeByRoute[r]|; }
      if r in pendingTunnelSetups { load := load + |pendingTunnelSetups[r]|; }
    }

    method AddPending(r: nat, connection: nat)
      requires Mirrors() && r in routes
      modifies this`pending, this`view
      ensures Mirrors() && view == Admit(old(view), r, connection)
    {
      pending := pending[connection := Claim(r, routes[r].owner)];
      view := Admit(view, r, connection);
    }

    method ClearPending(connection: nat)
      requires Valid()
      modifies this
      ensures Valid() && view == StepClearPending(old(view), connection)
    {
      if connection !in pending { return; }
      var r := pending[connection].route;
      pending := pending - {connection};
      view := Withdraw(view, connection);
      PruneRouteAuthorization(r);
    }

    method AcceptTunnel(token: Token, connection: nat, open: bool) returns (setup: Option<nat>)
      requires Valid()
      modifies this
      ensures Valid() && view == StepAccept(config, old(view), token, connection, open)
      ensures setup.Some? ==> setup.value in view.setups && setup.value !in old(view).setups
    {
      if !Verifies(token, config.installation, now) { return None; }
      if connection !in pending || pending[connection].route != token.payload.routeId { return None; }
      var p := pending[connection];
      var owner := OwnerOf(token.payload);
      var authorized := CurrentRouteAuthorization(p.route);
      if authorized.None? || authorized.value.owner != owner || owner != p.owner { return None; }
      pending := pending - {connection};
      view := Withdraw(view, connection);
      if !open { return None; }
      setup := Some(|tunnelRoutes|);
      AddPendingTunnelSetup(p.route, owner);
    }

    method AddPendingTunnelSetup(r: nat, ghost owner: Option<LoginId>)
      requires Valid()
      modifies this`pendingTunnelSetups, this`tunnelRoutes, this`view
      ensures Valid() && view == SetUp(old(view), r, owner)
      ensures tunnelRoutes == old(tunnelRoutes) + [r]
    {
      FiledWhenSetUp(pendingTunnelSetups, activeByRoute, tunnelRoutes, view, r, owner);
      pendingTunnelSetups := Included(pendingTunnelSetups, r, |tunnelRoutes|);
      tunnelRoutes := tunnelRoutes + [r];
      view := SetUp(view, r, owner);
    }

    method UnlistSetup(x: nat)
      requires Mirrors() && x in view.setups && x < |tunnelRoutes|
      modifies this`pendingTunnelSetups, this`view
      ensures Mirrors() && view == Abort(old(view), x)
    {
      FiledWhenAborted(pendingTunnelSetups, activeByRoute, tunnelRoutes, view, x);
      pendingTunnelSetups := Excluded(pendingTunnelSetups, tunnelRoutes[x], x);
      view := Abort(view, x);
    }

    method RemovePendingTunnelSetup(x: nat)
      requires Valid() && x < |tunnelRoutes|
      modifies this
      ensures Valid() && view == FailSetup(old(view), x)
    {
      var r := tunnelRoutes[x];
      Lookup(pendingTunnelSetups, view.setups, tunnelRoutes, x);
      if !Lists(pendingTunnelSetups, r, x) { return; }
      UnlistSetup(x);
      PruneRouteAuthorization(r);
    }

    method AddActiveTunnel(x: nat)
      requires Mirrors() && x in view.setups && x !in view.active && x < |tunnelRoutes|
      modifies this`activeByRoute, this`view
      ensures Mirrors() && view == Listed(old(view), x)
    {
      FiledWhenListed(pendingTunnelSetups, activeByRoute, tunnelRoutes, view, x);
      activeByRoute := Included(activeByRoute, tunnelRoutes[x], x);
      view := Listed(view, x);
    }

    /** The tunnel is listed before its setup goes. */
    method Promote(x: nat)
      requires Valid() && x in view.setups && x < |tunnelRoutes|
      modifies this`pendingTunnelSetups, this`activeByRoute, this`view
      ensures Valid() && view == Activate(old(view), x)
    {
      AddActiveTunnel(x);
      UnlistSetup(x);
    }

    method TunnelReady(x: nat, open: bool) returns (ok: bool)
      requires Valid() && x < |tunnelRoutes|
      modifies this
      ensures Valid() && view == StepReady(old(view), x, open)
      ensures ok ==> x in old(view).setups && x in view.active
    {
      var r := tunnelRoutes[x];
      Lookup(pendingTunnelSetups, view.setups, tunnelRoutes, x);
      if !Lists(pendingTunnelSetups, r, x) { return false; }
      var authorized := CurrentRouteAuthorization(r);
      if authorized.None? || !open {
        RemovePendingTunnelSetup(x);
        return false;
      }
      Promote(x);
      PruneRouteAuthorization(r);
      return true;
    }

    method RemoveActiveTunnel(x: nat)
      requires Valid() && x < |tunnelRoutes|
      modifies this
      ensures Valid() && view == StepTunnelClosed(old(view), x)
    {
      var r := tunnelRoutes[x];
      Lookup(activeByRoute, view.active, tunnelRoutes, x);
      if !Lists(activeByRoute, r, x) { return; }
      UnlistActive(x);
      PruneRouteAuthorization(r);
    }

    method UnlistActive(x: nat)
      requires Mirrors() && x in view.active && x < |tunnelRoutes|
      modifies this`activeByRoute, this`view
      ensures Mirrors() && view == Close(old(view), x)
    {
      FiledWhenClosed(pendingTunnelSetups, activeByRoute, tunnelRoutes, view, x);
      activeByRoute := Excluded(activeByRoute, tunnelRoutes[x], x);
      view := Close(view, x);
    }

    method ControlClosed(socket: nat)
      requires Valid()
      modifies this
      ensures Valid() && view == StepControlClosed(old(view), socket)
    {
      if socket !in closeHandlers { return; }
      var h := closeHandlers[socket];
      if h.route !in routes || routes[h.route].socket != socket { return; }
      routes := routes - {h.route};
      if h.login.Some? && h.login.value in logins && logins[h.login.value] == h.route {
        logins := logins - {h.login.value};
      }
      view := Unregister(view, h);
      PruneRouteAuthorization(h.route);
    }
  }
}
