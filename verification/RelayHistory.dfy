/**
 What a Relay process accepts over its whole life: generations never go back, and a tunnel
 setup that an expiry has removed never comes back to life.
 */
module RelayHistory {
  import opened Options
  import opened Capability
  import opened Relay

  /** `g` does not exceed `h`, and if they tie they are the same capability. */
  predicate Reached(g: Generation, h: Generation) {
    AtMost(g, h) && (Tied(g, h) ==> g.digest == h.digest)
  }

  type History = seq<(nat, Generation)>

  /** From its acceptance up to `n`, no unbounded generation of the same route and owner was
      accepted. */
  ghost predicate FiniteSince(h: History, i: nat, n: nat)
    requires i < n <= |h|
  {
    forall k :: i <= k < n && h[k].0 == h[i].0 && h[k].1.owner == h[i].1.owner ==> h[k].1.expiresAt.Some?
  }

  /** The generation is expired, or covered by a finite authorization of its owner. */
  predicate Remembered(s: State, r: nat, g: Generation) {
    || Expired(g, s.now)
    || (r in s.auths && s.auths[r].owner == g.owner && s.auths[r].expiresAt.Some? && Reached(g, s.auths[r]))
  }

  ghost predicate HighWater(s: State) {
    && (forall i :: 0 <= i < |s.accepted| && FiniteSince(s.accepted, i, |s.accepted|) ==>
          Remembered(s, s.accepted[i].0, s.accepted[i].1))
    && (forall i :: 0 <= i < |s.accepted| && s.accepted[i].1.owner.Some? ==> s.accepted[i].1.expiresAt.Some?)
  }

  /** Of two generations accepted for a route, the later one reaches the earlier, unless an
      unbounded one of the same owner was accepted in between, or first. */
  ghost predicate NeverBack(h: History) {
    forall i, j :: 0 <= i < j < |h| && h[i].0 == h[j].0 && FiniteSince(h, i, j) ==> Reached(h[i].1, h[j].1)
  }

  /** The step accepts nothing, and lets go of an authorization only when it has expired or
      has no expiration. */
  ghost predicate Retains(s: State, t: State) {
    && t.accepted == s.accepted && s.now <= t.now
    && (forall r :: r in t.auths ==> r in s.auths && t.auths[r] == s.auths[r])
    && (forall r :: r in s.auths && r !in t.auths ==> Expired(s.auths[r], t.now) || s.auths[r].expiresAt.None?)
  }

  lemma RetainingKeeps(s: State, t: State)
    requires HighWater(s) && Retains(s, t)
    ensures HighWater(t)
  {
  }

  lemma CurrentRetains(s: State, r: nat)
    ensures Retains(s, Current(s, r))
  {
  }

  lemma PruneRetains(s: State, r: nat)
    ensures Retains(s, Prune(s, r))
  {
  }

  lemma FailSetupRetains(s: State, x: nat)
    ensures Retains(s, FailSetup(s, x))
  {
  }

  lemma ReadyRetains(s: State, x: nat, open: bool)
    ensures Retains(s, StepReady(s, x, open))
  {
    if x in s.setups {
      var r := s.setups[x].route;
      var s1 := Current(s, r);
      CurrentRetains(s, r);
      if r !in s1.auths || !open { FailSetupRetains(s1, x); } else { PruneRetains(Activate(s1, x), r); }
    }
  }

  lemma ControlClosedRetains(s: State, socket: nat)
    ensures Retains(s, StepControlClosed(s, socket))
  {
  }

  lemma ConnectRetains(s: State, r: nat, connection: nat, open: bool)
    ensures Retains(s, StepConnect(s, r, connection, open))
  {
  }

  lemma AcceptRetains(c: Config, s: State, token: Token, connection: nat, open: bool)
    ensures Retains(s, StepAccept(c, s, token, connection, open))
  {
  }

  lemma StepRetains(c: Config, s0: State, at: int, e: Event)
    requires !e.Register?
    ensures Retains(s0, Step(c, s0, at, e))
  {
    if at >= s0.now {
      var s := s0.(now := at);
      var t := Step(c, s0, at, e);
      assert Retains(s, t) by {
        match e
        case Connect(r, k, open) => ConnectRetains(s, r, k, open);
        case ClearPending(k) => if k in s.pending { PruneRetains(Withdraw(s, k), s.pending[k].route); }
        case AcceptTunnel(token, k, open) => AcceptRetains(c, s, token, k, open);
        case TunnelReady(x, open) => ReadyRetains(s, x, open);
        case SetupFailed(x) => FailSetupRetains(s, x);
        case TunnelClosed(x) => if x in s.active { PruneRetains(Close(s, x), s.active[x].route); }
        case ControlClosed(socket) => ControlClosedRetains(s, socket);
        case CheckAuthorization(r) => CurrentRetains(s, r);
      }
    }
  }

  /** A capability accepted now reaches everything accepted before it for the route. */
  lemma AcceptedReaches(s: State, r: nat, g: Generation, h: Generation)
    requires Remembered(s, r, g) && !Expired(h, s.now)
    requires r in s.auths ==> Monotonic(s.auths[r], h)
    ensures Reached(g, h)
  {
  }

  lemma InstallKeepsHistory(c: Config, s: State, socket: nat, token: Token, r: nat, login: Option<LoginId>)
    requires HighWater(s) && NeverBack(s.accepted)
    requires Verifies(token, c.installation, s.now)
    requires var g := GenerationOf(token);
             r in s.auths ==> s.auths[r].owner == g.owner && Monotonic(s.auths[r], g)
    ensures var t := Install(s, socket, r, login, GenerationOf(token)); HighWater(t) && NeverBack(t.accepted)
  {
    var h := GenerationOf(token);
    var t := Install(s, socket, r, login, h);
    var n := |s.accepted|;
    VerifiedIsUnexpired(token, c.installation, s.now);
    forall i | 0 <= i < n && FiniteSince(t.accepted, i, n) ensures t.accepted[i].0 == r ==> Reached(t.accepted[i].1, h) {
      FiniteIgnoresLater(s.accepted, t.accepted, i, n);
      if s.accepted[i].0 == r { AcceptedReaches(s, r, s.accepted[i].1, h); }
    }
    forall i | 0 <= i <= n && FiniteSince(t.accepted, i, n + 1) ensures Remembered(t, t.accepted[i].0, t.accepted[i].1) {
      if i < n {
        FiniteIgnoresLater(s.accepted, t.accepted, i, n);
        assert Remembered(s, s.accepted[i].0, s.accepted[i].1);
        assert FiniteSince(t.accepted, i, n);
        assert t.accepted[n] == (r, h);
      }
    }
    forall i, j | 0 <= i < j <= n && t.accepted[i].0 == t.accepted[j].0 && FiniteSince(t.accepted, i, j)
      ensures Reached(t.accepted[i].1, t.accepted[j].1)
    {
      if j < n { FiniteIgnoresLater(s.accepted, t.accepted, i, j); }
    }
  }

  lemma FiniteIgnoresLater(h: History, longer: History, i: nat, n: nat)
    requires i < n <= |h| && h <= longer
    ensures FiniteSince(h, i, n) <==> FiniteSince(longer, i, n)
  {
    assert forall k :: 0 <= k < |h| ==> longer[k] == h[k];
  }

  lemma EnrollKeepsHistory(c: Config, s: State, socket: nat, token: Token, r: nat, login: Option<LoginId>)
    requires HighWater(s) && NeverBack(s.accepted) && Isolated(s) && Verifies(token, c.installation, s.now)
    ensures var t := Enroll(c, s, socket, r, login, GenerationOf(token)); HighWater(t) && NeverBack(t.accepted)
  {
    var s2 := DropOldLogin(s, r, login);
    RetainingKeeps(s, s2);
    if MayReplace(s, r, GenerationOf(token)) {
      assert r in s.auths ==> s.auths[r].owner == GenerationOf(token).owner;
      InstallKeepsHistory(c, s2, socket, token, r, login);
    }
  }

  lemma RegisterKeepsHistory(c: Config, s: State, socket: nat, token: Token, profile: Option<Principal>)
    requires HighWater(s) && NeverBack(s.accepted) && Isolated(s)
    ensures var t := StepRegister(c, s, socket, token, profile); HighWater(t) && NeverBack(t.accepted)
  {
    var r := token.payload.routeId;
    CurrentRetains(s, r);
    RetainingKeeps(s, Current(s, r));
    ExpireIsolates(s, r);
    if Verifies(token, c.installation, s.now) {
      EnrollKeepsHistory(c, Current(s, r), socket, token, r, LoginOf(token.payload));
    }
  }

  lemma StepKeepsHistory(c: Config, s0: State, at: int, e: Event)
    requires HighWater(s0) && NeverBack(s0.accepted) && Isolated(s0)
    ensures var t := Step(c, s0, at, e); HighWater(t) && NeverBack(t.accepted)
  {
    if !e.Register? {
      StepRetains(c, s0, at, e);
      RetainingKeeps(s0, Step(c, s0, at, e));
    } else if at >= s0.now {
      var s := s0.(now := at);
      RetainingKeeps(s0, s);
      RegisterKeepsHistory(c, s, e.socket, e.token, e.profile);
    }
  }

  lemma {:induction false} RunKeepsHistory(c: Config, s: State, es: seq<(int, Event)>)
    requires HighWater(s) && NeverBack(s.accepted) && Inv(c, s)
    ensures HighWater(Run(c, s, es)) && NeverBack(Run(c, s, es).accepted)
    decreases |es|
  {
    if es != [] {
      StepKeepsHistory(c, s, es[0].0, es[0].1);
      StepKeepsInv(c, s, es[0].0, es[0].1);
      RunKeepsHistory(c, Step(c, s, es[0].0, es[0].1), es[1..]);
    }
  }

  /** Over the whole run, through disconnects, pruning, expiry and owner change: what is
      accepted for a route never decreases in expiration and issue time, and two that tie are
      the same capability, as long as no unbounded generation of the same owner has been
      accepted since the earlier one. */
  lemma GenerationsNeverGoBack(c: Config, es: seq<(int, Event)>)
    ensures NeverBack(Run(c, Init(), es).accepted)
  {
    InitInv(c);
    RunKeepsHistory(c, Init(), es);
  }

  /** A provisioned generation is never gone back on, whatever came in between. */
  lemma ProvisionedNeverGoBack(c: Config, es: seq<(int, Event)>, i: nat, j: nat)
    requires var h := Run(c, Init(), es).accepted; i < j < |h| && h[i].0 == h[j].0 && h[i].1.owner.Some?
    ensures var h := Run(c, Init(), es).accepted; Reached(h[i].1, h[j].1)
  {
    InitInv(c);
    RunKeepsHistory(c, Init(), es);
    assert FiniteSince(Run(c, Init(), es).accepted, i, j);
  }

  // ----- after an expiry

  ghost predicate Gone(s: State, x: nat) {
    x < s.tunnels && x !in s.setups && x !in s.active
  }

  lemma PrimitivesKeepGone(s: State, r: nat, x: nat, y: nat)
    requires Gone(s, x)
    ensures Gone(Current(s, r), x) && Gone(Prune(s, r), x) && Gone(FailSetup(s, y), x)
  {
  }

  lemma InstallKeepsGone(s: State, socket: nat, r: nat, login: Option<LoginId>, g: Generation, x: nat)
    requires Gone(s, x)
    ensures Gone(DropOldLogin(s, r, login), x) && Gone(Install(DropOldLogin(s, r, login), socket, r, login, g), x)
  {
  }

  lemma RegisterKeepsGone(c: Config, s: State, socket: nat, token: Token, profile: Option<Principal>, x: nat)
    requires Gone(s, x)
    ensures Gone(StepRegister(c, s, socket, token, profile), x)
  {
    var r, login := token.payload.routeId, LoginOf(token.payload);
    PrimitivesKeepGone(s, r, x, x);
    var s1 := Current(s, r);
    InstallKeepsGone(s1, socket, r, login, GenerationOf(token), x);
  }

  lemma ReadyKeepsGone(s: State, y: nat, open: bool, x: nat)
    requires Gone(s, x)
    ensures Gone(StepReady(s, y, open), x)
  {
    if y in s.setups {
      var r := s.setups[y].route;
      PrimitivesKeepGone(s, r, x, y);
      var s1 := Current(s, r);
      PrimitivesKeepGone(s1, r, x, y);
      if r in s1.auths && open { PrimitivesKeepGone(Activate(s1, y), r, x, y); }
    }
  }

  lemma AcceptKeepsGone(c: Config, s: State, token: Token, k: nat, open: bool, x: nat)
    requires Gone(s, x)
    ensures Gone(StepAccept(c, s, token, k, open), x)
  {
  }

  lemma StepKeepsGone(c: Config, s0: State, at: int, e: Event, x: nat)
    requires Gone(s0, x)
    ensures Gone(Step(c, s0, at, e), x)
  {
    if at >= s0.now {
      var s := s0.(now := at);
      match e
      case Register(socket, token, profile) => RegisterKeepsGone(c, s, socket, token, profile, x);
      case Connect(r, k, open) => PrimitivesKeepGone(s, r, x, x);
      case ClearPending(k) => if k in s.pending { PrimitivesKeepGone(Withdraw(s, k), s.pending[k].route, x, x); }
      case AcceptTunnel(token, k, open) => AcceptKeepsGone(c, s, token, k, open, x);
      case TunnelReady(y, open) => ReadyKeepsGone(s, y, open, x);
      case SetupFailed(y) => PrimitivesKeepGone(s, 0, x, y);
      case TunnelClosed(y) => if y in s.active { PrimitivesKeepGone(Close(s, y), s.active[y].route, x, x); }
      case ControlClosed(socket) =>
        if socket in s.registrations {
          var reg := s.registrations[socket];
          PrimitivesKeepGone(Unregister(s, reg), reg.route, x, x);
        }
      case CheckAuthorization(r) => PrimitivesKeepGone(s, r, x, x);
    }
  }

  lemma {:induction false} RunKeepsGone(c: Config, s: State, es: seq<(int, Event)>, x: nat)
    requires Gone(s, x)
    ensures Gone(Run(c, s, es), x)
    decreases |es|
  {
    if es != [] {
      StepKeepsGone(c, s, es[0].0, es[0].1, x);
      RunKeepsGone(c, Step(c, s, es[0].0, es[0].1), es[1..], x);
    }
  }

  lemma NothingRelies(s: State, r: nat)
    requires LoginsInverse(s)
    ensures var t := Expire(s, r);
            && r !in t.auths && r !in t.routes && r !in t.logins.Values
            && On(t.pending, r) == {} && On(t.setups, r) == {} && On(t.active, r) == {}
  {
    var t := Expire(s, r);
    ExpireKeepsLogins(s, r);
    assert forall l :: l in t.logins ==> t.logins[l] in t.routes;
  }

  /** When a route's authorization is found expired, its route, logins, connections, setups
      and tunnels all go in the same event; other routes keep theirs. */
  lemma ExpiryRemovesEverything(c: Config, s: State, at: int, r: nat)
    requires LoginsInverse(s) && s.now <= at && r in s.auths && Expired(s.auths[r], at)
    ensures var t := Step(c, s, at, CheckAuthorization(r));
            && r !in t.auths && r !in t.routes && r !in t.logins.Values
            && On(t.pending, r) == {} && On(t.setups, r) == {} && On(t.active, r) == {}
            && t.auths == s.auths - {r} && t.routes == s.routes - {r}
            && t.pending == s.pending - On(s.pending, r) && t.setups == s.setups - On(s.setups, r)
            && t.active == s.active - On(s.active, r)
  {
    var s0 := s.(now := at);
    assert LoginsInverse(s0);
    assert Step(c, s, at, CheckAuthorization(r)) == Expire(s0, r);
    NothingRelies(s0, r);
  }

  /** A setup accepted before its route expired can never become active afterwards. */
  lemma ExpiredSetupsStayDead(c: Config, s: State, r: nat, x: nat, es: seq<(int, Event)>)
    requires Inv(c, s) && r in s.auths && Expired(s.auths[r], s.now)
    requires x in s.setups && s.setups[x].route == r
    ensures x !in Run(c, Current(s, r), es).active
  {
    RunKeepsGone(c, Current(s, r), es, x);
  }

  // ----- what the Relay does let through

  /** An authorization still in force has the same owner and does not exceed the new one. */
  predicate Supersedes(s: State, r: nat, g: Generation) {
    r in s.auths && !Expired(s.auths[r], s.now) ==> s.auths[r].owner == g.owner && Reached(s.auths[r], g)
  }

  lemma SupersedingMayReplace(s: State, r: nat, g: Generation)
    requires Isolated(s)
    ensures MayReplace(Current(s, r), r, g) <==> Supersedes(s, r, g)
  {
  }

  lemma RoomAfterExpiry(c: Config, s: State, r: nat)
    requires |s.auths| <= c.maxAuthorizations
    ensures var s1 := Current(s, r);
            (r in s1.auths || |s1.auths| < c.maxAuthorizations) <==> (r in s.auths || |s.auths| < c.maxAuthorizations)
  {
  }

  /** The route is registered on the socket, under the given generation. */
  predicate Holds(s: State, r: nat, socket: nat, login: Option<LoginId>, g: Generation) {
    r in s.routes && s.routes[r] == Route(socket, login, g.owner) && r in s.auths && s.auths[r] == g
  }

  lemma EnrollAccepts(c: Config, s: State, socket: nat, r: nat, login: Option<LoginId>, g: Generation)
    ensures |Enroll(c, s, socket, r, login, g).accepted| == |s.accepted| + 1 <==>
            MayReplace(s, r, g) && (r in s.auths || |s.auths| < c.maxAuthorizations)
    ensures |Enroll(c, s, socket, r, login, g).accepted| <= |s.accepted| + 1
    ensures var t := Enroll(c, s, socket, r, login, g);
            |t.accepted| == |s.accepted| + 1 ==> Holds(t, r, socket, login, g)
  {
    var s2 := DropOldLogin(s, r, login);
    assert s2.auths == s.auths && s2.accepted == s.accepted;
    assert Install(s2, socket, r, login, g).accepted == s.accepted + [(r, g)];
  }

  /** When a registration is accepted, exactly: the token verifies and fits, an authorization
      in force yields to it, and there is room for its authorization. */
  lemma AcceptedExactlyWhen(c: Config, s: State, socket: nat, token: Token, profile: Option<Principal>)
    requires Isolated(s) && |s.auths| <= c.maxAuthorizations && socket !in s.registrations
    ensures var r, g := token.payload.routeId, GenerationOf(token);
            |StepRegister(c, s, socket, token, profile).accepted| == |s.accepted| + 1 <==>
              && Presentable(c, s, token, profile)
              && Supersedes(s, r, g)
              && (r in s.auths || |s.auths| < c.maxAuthorizations)
    ensures var t := StepRegister(c, s, socket, token, profile);
            |t.accepted| == |s.accepted| + 1 ==>
              Holds(t, token.payload.routeId, socket, LoginOf(token.payload), GenerationOf(token))
  {
    var r, g := token.payload.routeId, GenerationOf(token);
    var s1 := Current(s, r);
    SupersedingMayReplace(s, r, g);
    RoomAfterExpiry(c, s, r);
    assert s1.accepted == s.accepted;
    EnrollAccepts(c, s1, socket, r, LoginOf(token.payload), g);
  }

  lemma ConnectAdmits(c: Config, s: State, r: nat, k: nat)
    requires r in s.auths && !Expired(s.auths[r], s.now) && r in s.routes && k !in s.pending
    requires |s.pending| < MAX_PENDING_CONNECTIONS && Load(s, r) < MAX_CONNECTIONS_PER_ROUTE
    ensures Step(c, s, s.now, Connect(r, k, true)) == s.(pending := s.pending[k := Claim(r, s.routes[r].owner)])
  {
  }

  lemma AcceptSetsUp(c: Config, s: State, token: Token, k: nat)
    requires Verifies(token, c.installation, s.now) && k in s.pending
    requires s.pending[k] == Claim(token.payload.routeId, OwnerOf(token.payload))
    requires var r := token.payload.routeId;
             r in s.auths && !Expired(s.auths[r], s.now) && s.auths[r].owner == OwnerOf(token.payload)
    ensures Step(c, s, s.now, AcceptTunnel(token, k, true)) ==
            s.(pending := s.pending - {k}, setups := s.setups[s.tunnels := s.pending[k]], tunnels := s.tunnels + 1)
  {
  }

  lemma ReadyActivates(c: Config, s: State, x: nat)
    requires x in s.setups && s.setups[x].route in s.auths && !Expired(s.auths[s.setups[x].route], s.now)
    requires s.setups[x].route in s.routes
    ensures Step(c, s, s.now, TunnelReady(x, true)) == s.(setups := s.setups - {x}, active := s.active[x := s.setups[x]])
  {
  }

  lemma AcceptedOpens(c: Config, s: State, token: Token, k: nat)
    requires Verifies(token, c.installation, s.now) && token.payload.routeId in s.routes
    requires var r := token.payload.routeId;
             r in s.auths && !Expired(s.auths[r], s.now) && s.auths[r].owner == OwnerOf(token.payload)
    requires k !in s.pending && s.tunnels !in s.setups
    ensures var x, claim := s.tunnels, Claim(token.payload.routeId, OwnerOf(token.payload));
            var s1 := s.(pending := s.pending[k := claim]);
            Step(c, Step(c, s1, s.now, AcceptTunnel(token, k, true)), s.now, TunnelReady(x, true))
            == s.(active := s.active[x := claim], tunnels := x + 1)
  {
    var x, claim := s.tunnels, Claim(token.payload.routeId, OwnerOf(token.payload));
    AcceptSetsUp(c, s.(pending := s.pending[k := claim]), token, k);
    assert s.pending[k := claim] - {k} == s.pending;
    ReadyActivates(c, s.(setups := s.setups[x := claim], tunnels := x + 1), x);
    assert s.setups[x := claim] - {x} == s.setups;
  }

  /** With room on the route, a browser's connection that the Agent accepts and completes
      becomes exactly one active tunnel, and nothing else changes. */
  lemma TunnelOpens(c: Config, s: State, token: Token, k: nat)
    requires Verifies(token, c.installation, s.now)
    requires var r := token.payload.routeId;
             && r in s.auths && !Expired(s.auths[r], s.now) && s.auths[r].owner == OwnerOf(token.payload)
             && r in s.routes && s.routes[r].owner == s.auths[r].owner
             && |s.pending| < MAX_PENDING_CONNECTIONS && Load(s, r) < MAX_CONNECTIONS_PER_ROUTE
    requires k !in s.pending && s.tunnels !in s.setups
    ensures var r, x := token.payload.routeId, s.tunnels;
            Run(c, s, [(s.now, Connect(r, k, true)), (s.now, AcceptTunnel(token, k, true)), (s.now, TunnelReady(x, true))])
            == s.(active := s.active[x := Claim(r, OwnerOf(token.payload))], tunnels := x + 1)
  {
    var r, x := token.payload.routeId, s.tunnels;
    var claim := Claim(r, OwnerOf(token.payload));
    RunOfThree(c, s, (s.now, Connect(r, k, true)), (s.now, AcceptTunnel(token, k, true)), (s.now, TunnelReady(x, true)));
    ConnectAdmits(c, s, r, k);
    AcceptedOpens(c, s, token, k);
  }

  lemma RunOfThree(c: Config, s: State, a: (int, Event), b: (int, Event), d: (int, Event))
    ensures Run(c, s, [a, b, d]) == Step(c, Step(c, Step(c, s, a.0, a.1), b.0, b.1), d.0, d.1)
  {
    assert [a, b, d][1..] == [b, d] && [b, d][1..] == [d];
    var s1 := Step(c, s, a.0, a.1);
    assert Run(c, s, [a, b, d]) == Run(c, s1, [b, d]);
    var s2 := Step(c, s1, b.0, b.1);
    assert Run(c, s1, [b, d]) == Run(c, s2, [d]);
    var s3 := Step(c, s2, d.0, d.1);
    assert Run(c, s2, [d]) == Run(c, s3, []) by { assert [d][1..] == []; }
  }

  /** A closed tunnel and a cleared connection are gone, each takes one off its route's load and
      nothing off any other's. */
  lemma ClosingFreesOne(c: Config, s: State, at: int, x: nat, k: nat, r: nat)
    requires s.now <= at && x in s.active && k in s.pending
    ensures var t := Step(c, s, at, TunnelClosed(x));
            t.active == s.active - {x} && Load(t, r) == Load(s, r) - if s.active[x].route == r then 1 else 0
    ensures var t := Step(c, s, at, ClearPending(k));
            t.pending == s.pending - {k} && Load(t, r) == Load(s, r) - if s.pending[k].route == r then 1 else 0
  {
    OnRemove(s.active, x, r);
    OnRemove(s.pending, k, r);
    PruneShrinks(Close(s.(now := at), x), s.active[x].route);
    PruneShrinks(Withdraw(s.(now := at), k), s.pending[k].route);
  }

  /** A setup that fails is gone and takes one off its route's load. */
  lemma FailingFreesOne(c: Config, s: State, at: int, x: nat, r: nat)
    requires s.now <= at && x in s.setups
    ensures var t := Step(c, s, at, SetupFailed(x));
            t.setups == s.setups - {x} && Load(t, r) == Load(s, r) - if s.setups[x].route == r then 1 else 0
  {
    OnRemove(s.setups, x, r);
    PruneShrinks(Abort(s.(now := at), x), s.setups[x].route);
  }

  /** The registered, idle route of an unbounded authorization. */
  predicate IdleUnbounded(s: State, r: nat, socket: nat) {
    && r in s.auths && s.auths[r].expiresAt.None? && r in s.routes && s.routes[r].socket == socket
    && On(s.pending, r) == {} && On(s.setups, r) == {} && On(s.active, r) == {}
  }

  lemma IdleRouteCloses(c: Config, s: State, r: nat, socket: nat)
    requires Inv(c, s) && IdleUnbounded(s, r, socket)
    ensures var t := StepControlClosed(s, socket);
            && t.auths == s.auths - {r} && t.routes == s.routes - {r}
            && t.accepted == s.accepted && t.registrations == s.registrations && t.now == s.now
            && Isolated(t) && |t.auths| < c.maxAuthorizations
  {
    assert s.registrations[socket] == Registration(r, s.routes[r].login);
    ControlClosedKeepsInv(c, s, socket);
    assert s.auths.Keys == (s.auths - {r}).Keys + {r};
  }

  /** When an unbounded generation's route has gone idle and closes, its high-water mark is
      dropped: any capability that verifies and fits is accepted next, however old. */
  lemma UnboundedIsForgotten(c: Config, s: State, socket: nat, other: nat, token: Token, profile: Option<Principal>)
    requires Inv(c, s) && IdleUnbounded(s, token.payload.routeId, socket) && other !in s.registrations
    requires Presentable(c, StepControlClosed(s, socket), token, profile)
    ensures var t := StepRegister(c, StepControlClosed(s, socket), other, token, profile);
            && |t.accepted| == |s.accepted| + 1
            && Holds(t, token.payload.routeId, other, LoginOf(token.payload), GenerationOf(token))
  {
    IdleRouteCloses(c, s, token.payload.routeId, socket);
    AcceptedExactlyWhen(c, StepControlClosed(s, socket), other, token, profile);
  }

  /** Unbounded legacy capabilities are different: once the route is idle its high-water mark
      is dropped, and an older capability is accepted. */
  lemma LegacyCanGoBack(c: Config)
    requires c.maxAuthorizations > 0
    ensures exists es: seq<(int, Event)> ::
              var h := Run(c, Init(), es).accepted;
              |h| == 2 && h[0].0 == h[1].0 && !AtMost(h[0].1, h[1].1)
  {
    var first := Token(Legacy(7, None, 10, None), true, 1);
    var second := Token(Legacy(7, None, 5, None), true, 2);
    var e0, e1, e2 := Register(0, first, None), ControlClosed(0), Register(1, second, None);
    var s1 := Step(c, Init(), 0, e0);
    assert s1 == Install(Init(), 0, 7, None, GenerationOf(first));
    var s2 := Step(c, s1, 0, e1);
    assert s2.auths == map[] && s2.routes == map[] by {
      assert On(s1.pending, 7) == {} && On(s1.setups, 7) == {} && On(s1.active, 7) == {};
    }
    var s3 := Step(c, s2, 0, e2);
    assert s3.accepted == [(7, GenerationOf(first)), (7, GenerationOf(second))];
    RunOfThree(c, Init(), (0, e0), (0, e1), (0, e2));
  }
}
