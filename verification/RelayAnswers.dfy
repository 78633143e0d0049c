/**
 When exactly the Relay says yes: for every reachable state, every time and every event that
 asks for something, the condition on the state, the token's fields and the request.
 */
module RelayAnswers {
  import opened Options
  import opened Capability
  import opened Relay
  import opened RelayHistory

  /** The route has an authorization, and its time has not come. */
  predicate InForce(s: State, r: nat, at: int) {
    r in s.auths && (s.auths[r].expiresAt.Some? ==> at < s.auths[r].expiresAt.value)
  }

  /** The profile asked for is the token's, and a token with a login must ask for one. */
  predicate ProfileFits(p: Payload, profile: Option<Principal>) {
    && (profile.None? ==> p.Legacy? && p.legacyLogin.None?)
    && (profile.Some? ==> profile.value == if p.Provisioned? && p.version == 4 then p.principal else User)
  }

  /** No other registered route goes by the login. */
  ghost predicate LoginIsFree(s: State, r: nat, login: Option<LoginId>) {
    login.Some? ==> forall q :: q in s.routes && q != r ==> s.routes[q].login != login
  }

  /** The authorization in force, if any, is of the same owner and not ahead. */
  predicate Yields(s: State, r: nat, at: int, g: Generation) {
    InForce(s, r, at) ==> s.auths[r].owner == g.owner && AtMost(s.auths[r], g) && (Tied(s.auths[r], g) ==> s.auths[r].digest == g.digest)
  }

  lemma PresentableExactlyWhen(c: Config, s: State, token: Token, profile: Option<Principal>)
    requires LoginsInverse(s)
    ensures Presentable(c, s, token, profile) <==>
              && Genuine(token, c.installation, s.now) && ProfileFits(token.payload, profile)
              && LoginIsFree(s, token.payload.routeId, LoginOf(token.payload))
  {
    VerifiesExactlyWhenGenuine(token, c.installation, s.now);
  }

  lemma YieldsMeansSupersedes(s: State, r: nat, g: Generation)
    ensures Yields(s, r, s.now, g) <==> Supersedes(s, r, g)
  {
    if r in s.auths { MonotonicMeans(s.auths[r], g); }
  }

  /** What a registration needs besides being presentable. */
  predicate Fits(c: Config, s: State, r: nat, at: int, g: Generation) {
    Yields(s, r, at, g) && (r in s.auths || |s.auths| < c.maxAuthorizations)
  }

  /** The route belongs to the socket under the generation; what hung on an expired authorization
      is gone, and what hangs on one in force stays. */
  ghost predicate Installed(s: State, t: State, socket: nat, r: nat, login: Option<LoginId>, g: Generation, at: int) {
    && t.auths == s.auths[r := g] && t.routes == s.routes[r := Route(socket, login, g.owner)]
    && t.registrations == s.registrations[socket := Registration(r, login)]
    && t.accepted == s.accepted + [(r, g)] && t.tunnels == s.tunnels && t.now == at
    && t.pending == (if InForce(s, r, at) then s.pending else s.pending - On(s.pending, r))
    && t.setups == (if InForce(s, r, at) then s.setups else s.setups - On(s.setups, r))
    && t.active == (if InForce(s, r, at) then s.active else s.active - On(s.active, r))
  }

  lemma EnrollInstalls(c: Config, s: State, socket: nat, r: nat, login: Option<LoginId>, g: Generation)
    requires Isolated(s) && (r in s.auths ==> InForce(s, r, s.now))
    ensures var t := Enroll(c, s, socket, r, login, g);
            if Fits(c, s, r, s.now, g) then
              t == s.(auths := s.auths[r := g], routes := s.routes[r := Route(socket, login, g.owner)], logins := t.logins,
                      registrations := s.registrations[socket := Registration(r, login)], accepted := s.accepted + [(r, g)])
            else t == s
  {
    YieldsMeansSupersedes(s, r, g);
    SupersedingMayReplace(s, r, g);
    assert Current(s, r) == s;
  }

  lemma NothingOn(s: State, r: nat)
    requires Isolated(s) && r !in s.auths
    ensures On(s.pending, r) == {} && On(s.setups, r) == {} && On(s.active, r) == {}
  {
  }

  lemma PresentedInForce(c: Config, s: State, socket: nat, r: nat, login: Option<LoginId>, g: Generation)
    requires Isolated(s) && (r in s.auths ==> InForce(s, r, s.now))
    ensures var t := Enroll(c, Current(s, r), socket, r, login, g);
            if Fits(c, s, r, s.now, g) then Installed(s, t, socket, r, login, g, s.now) else t == s
  {
    assert Current(s, r) == s;
    EnrollInstalls(c, s, socket, r, login, g);
    if r !in s.auths { NothingOn(s, r); }
  }

  /** After an expiry nothing is in force, and there is room. */
  lemma ExpiryMakesRoom(c: Config, s: State, r: nat, g: Generation)
    requires |s.auths| <= c.maxAuthorizations && r in s.auths
    ensures var s1 := Expire(s, r); r !in s1.auths && s1.now == s.now && Fits(c, s1, r, s1.now, g)
  {
    assert s.auths.Keys == (s.auths - {r}).Keys + {r};
  }

  lemma ReplacedIsUpdated<K, V>(m: map<K, V>, k: K, v: V)
    ensures (m - {k})[k := v] == m[k := v]
  {
  }

  lemma PresentedTooLate(c: Config, s: State, socket: nat, r: nat, login: Option<LoginId>, g: Generation)
    requires Isolated(s) && |s.auths| <= c.maxAuthorizations && r in s.auths && !InForce(s, r, s.now)
    ensures Installed(s, Enroll(c, Current(s, r), socket, r, login, g), socket, r, login, g, s.now)
  {
    var s1 := Expire(s, r);
    assert Current(s, r) == s1;
    ExpireIsolates(s, r);
    ExpiryMakesRoom(c, s, r, g);
    EnrollInstalls(c, s1, socket, r, login, g);
    ReplacedIsUpdated(s.auths, r, g);
    ReplacedIsUpdated(s.routes, r, Route(socket, login, g.owner));
  }

  lemma PresentedIsDecided(c: Config, s: State, socket: nat, r: nat, login: Option<LoginId>, g: Generation)
    requires Isolated(s) && |s.auths| <= c.maxAuthorizations
    ensures var t := Enroll(c, Current(s, r), socket, r, login, g);
            if Fits(c, s, r, s.now, g) then Installed(s, t, socket, r, login, g, s.now) else t == s
  {
    if r in s.auths && !InForce(s, r, s.now) {
      PresentedTooLate(c, s, socket, r, login, g);
    } else {
      PresentedInForce(c, s, socket, r, login, g);
    }
  }

  /** A registration is accepted exactly when its socket has none yet, its token is genuine, its
      profile fits, no other route has its login, what is in force yields, and there is room; the
      socket then holds the route.  Otherwise nothing changes. */
  lemma RegistersExactlyWhen(c: Config, s: State, at: int, socket: nat, token: Token, profile: Option<Principal>)
    requires Inv(c, s) && s.now <= at
    ensures var r, login, g := token.payload.routeId, LoginOf(token.payload), GenerationOf(token);
            var t := Step(c, s, at, Register(socket, token, profile));
            if && socket !in s.registrations && Genuine(token, c.installation, at) && ProfileFits(token.payload, profile)
               && LoginIsFree(s, r, login) && Fits(c, s, r, at, g)
            then Installed(s, t, socket, r, login, g, at) else t == s.(now := at)
  {
    var s0, r, login, g := s.(now := at), token.payload.routeId, LoginOf(token.payload), GenerationOf(token);
    PresentableExactlyWhen(c, s0, token, profile);
    PresentedIsDecided(c, s0, socket, r, login, g);
  }

  /** A browser is admitted exactly when the route is registered and in force, the control socket
      is open, and there is room for it in all and on the route. */
  lemma ConnectsExactlyWhen(c: Config, s: State, at: int, r: nat, k: nat, open: bool)
    requires Inv(c, s) && s.now <= at
    ensures var t := Step(c, s, at, Connect(r, k, open));
            if r in s.routes && InForce(s, r, at) && open && k !in s.pending && |s.pending| < 1024 && Load(s, r) < 32
            then t == s.(now := at, pending := s.pending[k := Claim(r, s.auths[r].owner)])
            else t == if r in s.auths && !InForce(s, r, at) then Expire(s.(now := at), r) else s.(now := at)
  {
    var s0 := s.(now := at);
    assert Load(s0, r) == Load(s, r);
  }

  /** The token entitles to the connection, and the route is in force. */
  predicate Entitled(c: Config, s: State, at: int, token: Token, k: nat) {
    var r := token.payload.routeId;
    && Genuine(token, c.installation, at) && k in s.pending && s.pending[k].route == r
    && InForce(s, r, at) && s.auths[r].owner == OwnerOf(token.payload)
  }

  lemma EntitledSetsUp(c: Config, s: State, token: Token, k: nat, open: bool)
    requires Isolated(s) && Entitled(c, s, s.now, token, k)
    ensures StepAccept(c, s, token, k, open) ==
            if open then s.(pending := s.pending - {k}, setups := s.setups[s.tunnels := s.pending[k]], tunnels := s.tunnels + 1)
            else s.(pending := s.pending - {k})
  {
    VerifiesExactlyWhenGenuine(token, c.installation, s.now);
    assert Current(s, token.payload.routeId) == s;
  }

  lemma UnentitledSetsUpNothing(c: Config, s: State, token: Token, k: nat, open: bool)
    requires Isolated(s) && !Entitled(c, s, s.now, token, k)
    ensures var r := token.payload.routeId;
            StepAccept(c, s, token, k, open) ==
            if Genuine(token, c.installation, s.now) && k in s.pending && s.pending[k].route == r && !InForce(s, r, s.now)
            then Expire(s, r) else s
  {
    VerifiesExactlyWhenGenuine(token, c.installation, s.now);
  }

  /** An accepted connection becomes a setup exactly when the token is genuine and for its route
      and owner, the route is in force and the browser is still there. */
  lemma AcceptsExactlyWhen(c: Config, s: State, at: int, token: Token, k: nat, open: bool)
    requires Inv(c, s) && s.now <= at
    ensures var r := token.payload.routeId;
            var t := Step(c, s, at, AcceptTunnel(token, k, open));
            var entitled := Entitled(c, s, at, token, k);
            && (entitled && open ==>
                  t == s.(now := at, pending := s.pending - {k}, setups := s.setups[s.tunnels := s.pending[k]], tunnels := s.tunnels + 1))
            && (entitled && !open ==> t == s.(now := at, pending := s.pending - {k}))
            && (!entitled ==>
                  t == if Genuine(token, c.installation, at) && k in s.pending && s.pending[k].route == r && !InForce(s, r, at)
                       then Expire(s.(now := at), r) else s.(now := at))
  {
    if Entitled(c, s, at, token, k) { EntitledSetsUp(c, s.(now := at), token, k, open); }
    else { UnentitledSetsUpNothing(c, s.(now := at), token, k, open); }
  }

  lemma SetupIsOnItsRoute(s: State, x: nat)
    requires Isolated(s) && x in s.setups
    ensures s.setups[x].route in s.auths && s.setups[x].owner == s.auths[s.setups[x].route].owner
  {
  }

  lemma ReadyInForce(s: State, x: nat)
    requires x in s.setups && InForce(s, s.setups[x].route, s.now)
    ensures StepReady(s, x, true) == s.(setups := s.setups - {x}, active := s.active[x := s.setups[x]])
    ensures StepReady(s, x, false).setups == s.setups - {x} && StepReady(s, x, false).active == s.active
  {
    var r := s.setups[x].route;
    assert Current(s, r) == s;
    assert x in On(Activate(s, x).active, r);
    PruneShrinks(Abort(s, x), r);
  }

  lemma ReadyTooLate(s: State, x: nat, open: bool)
    requires x in s.setups && s.setups[x].route in s.auths && !InForce(s, s.setups[x].route, s.now)
    ensures StepReady(s, x, open) == Expire(s, s.setups[x].route)
    ensures x !in Expire(s, s.setups[x].route).setups
  {
    assert x in On(s.setups, s.setups[x].route);
  }

  /** A setup becomes a tunnel exactly when its route is in force and the browser is still there;
      otherwise it is gone. */
  lemma ReadyExactlyWhen(c: Config, s: State, at: int, x: nat, open: bool)
    requires Isolated(s) && TunnelsDistinct(s) && s.now <= at && x in s.setups
    ensures var r := s.setups[x].route;
            var t := Step(c, s, at, TunnelReady(x, open));
            && x !in t.setups
            && (x in t.active <==> InForce(s, r, at) && open)
            && (x in t.active ==> t == s.(now := at, setups := s.setups - {x}, active := s.active[x := Claim(r, s.auths[r].owner)]))
  {
    var s0 := s.(now := at);
    SetupIsOnItsRoute(s, x);
    if InForce(s, s.setups[x].route, at) { ReadyInForce(s0, x); } else { ReadyTooLate(s0, x, open); }
  }

  /** Without a route of its own, a closing socket changes nothing. */
  lemma StrangerCloses(c: Config, s: State, at: int, socket: nat)
    requires s.now <= at && forall r :: r in s.routes ==> s.routes[r].socket != socket
    ensures Step(c, s, at, ControlClosed(socket)) == s.(now := at)
  {
  }

  lemma IdleMeansNoLoad(s: State, r: nat)
    ensures Load(s, r) == 0 <==> On(s.setups, r) == {} && On(s.active, r) == {} && On(s.pending, r) == {}
  {
  }

  /** Closing the control socket of a route takes away the route and its login, and no other; the
      authorization stays while it has an expiration or anything on the route remains. */
  lemma ClosingKeepsOnlyMarks(c: Config, s: State, at: int, r: nat)
    requires LoginsInverse(s) && s.now <= at && r in s.routes
    ensures var t := Step(c, s, at, ControlClosed(s.routes[r].socket));
            && t.routes == s.routes - {r}
            && t.logins == (map l | l in s.logins && s.logins[l] != r :: s.logins[l])
            && t.auths == (if r in s.auths && s.auths[r].expiresAt.None? && Load(s, r) == 0 then s.auths - {r} else s.auths)
            && t == s.(now := at, routes := t.routes, logins := t.logins, auths := t.auths)
  {
    var socket := s.routes[r].socket;
    var reg := s.registrations[socket];
    assert reg == Registration(r, s.routes[r].login);
    IdleMeansNoLoad(s.(now := at), r);
    LoginsWithout(s, r);
  }

  lemma LoginsWithout(s: State, r: nat)
    requires LoginsInverse(s) && r in s.routes
    ensures DropLogin(s.logins, s.routes[r].login, r) == map l | l in s.logins && s.logins[l] != r :: s.logins[l]
  {
  }
}
