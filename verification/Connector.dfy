/**
 An Agent's Relay connector, its capability renewal and a conforming Relay, over a network
 that may lose replies and deliver registration frames late.

 The Relay is the machine of module Relay.  Every await in the connector and in the renewal
 is a place where other steps may come in between; an event that is not possible in a state
 leaves it unchanged, so every sequence of events is a run.
 */
module Connector {
  import opened Options
  import opened Capability
  import R = Relay
  import opened RelayHistory

  /** `Opening` waits for the socket; `Awaiting` has sent the registration. */
  datatype Phase =
    | Idle
    | Opening(candidate: Token)
    | Awaiting(socket: nat, candidate: Token, previous: Token)

  datatype Agent = Agent(current: Token, phase: Phase, control: Option<nat>)

  /** The renewal loop: at rest, asking for a grant, or waiting for the connector to rotate. */
  datatype Renewal = Resting | Requesting(snapshot: Token) | Rotating(candidate: Token)

  /** A conforming Relay never sends a refusal: it closes the socket instead.  The connector
      handles one all the same, and RefusalMustMeanRefused says what it relies on. */
  datatype Reply = Registered(route: nat) | Refusal

  datatype System = System(
    relay: R.State,
    persisted: Token,
    agent: Agent,
    renewal: Renewal,
    frames: map<nat, Token>,      // registrations sent, by socket
    replies: map<nat, Reply>)

  datatype Event =
    | RelayEvent(at: int, e: R.Event)          // anything else that happens at the Relay
    | RelayRestart
    | ReadConfig
    | GrantArrives(grant: Token)
    | RenewalEnds
    | OtherRenewal(grant: Token)               // a renewal by another process of the host
    | Reconnect
    | Rotate
    | OpenFails
    | Opened(socket: nat)
    | FrameArrives(at: int, socket: nat)
    | ReplyArrives
    | ReplyLost
    | ControlCloses
    | AgentRestart

  function Expiry(t: Token): int
    requires t.payload.Provisioned?
  {
    EffectiveExpiration(t.payload).value
  }

  /** Any other grant is an error. */
  predicate SameHolder(held: Token, grant: Token) {
    && held.payload.Provisioned? && grant.payload.Provisioned?
    && grant.payload.routeId == held.payload.routeId
    && grant.payload.installation == held.payload.installation
    && grant.payload.name == held.payload.name
  }

  /** renewRelayCapabilityIfNeeded accepts `grant` as a renewal of `held`. */
  predicate Extends(held: Token, grant: Token) {
    SameHolder(held, grant) && PrincipalOf(grant.payload) == User && Expiry(grant) > Expiry(held)
  }

  // ----- the connector's own steps

  function Begin(a: Agent, candidate: Token): Agent {
    if a.phase == Idle then a.(phase := Opening(candidate)) else a
  }

  function GiveUp(a: Agent): Agent {
    a.(phase := Idle)
  }

  /** The registration is sent: from here on the candidate may have been installed. */
  function Send(a: Agent, socket: nat): Agent
    requires a.phase.Opening?
  {
    a.(current := a.phase.candidate, phase := Awaiting(socket, a.phase.candidate, a.current))
  }

  /** An answer: the socket takes over; anything but the expected one restores the previous
      capability. */
  function Answer(a: Agent, route: nat, reply: Reply): Agent
    requires a.phase.Awaiting?
  {
    if reply == Registered(route)
    then a.(current := a.phase.candidate, control := Some(a.phase.socket), phase := Idle)
    else a.(current := a.phase.previous, phase := Idle)
  }

  // ----- the system's steps

  function ApplyGrant(s: System, grant: Token): System {
    if !s.renewal.Requesting? then s
    else if !SameHolder(s.renewal.snapshot, grant) then s.(renewal := Resting)
    else if !Extends(s.renewal.snapshot, grant) then s.(renewal := Rotating(s.renewal.snapshot))
    else if s.persisted != s.renewal.snapshot then s.(renewal := Resting)
    else s.(persisted := grant, renewal := Rotating(grant))
  }

  function Deliver(c: R.Config, s: System, at: int, socket: nat): System {
    if socket !in s.frames then s
    else
      var relay := R.Step(c, s.relay, at, R.Register(socket, s.frames[socket], Some(User)));
      if |relay.accepted| > |s.relay.accepted|
      then s.(relay := relay, replies := s.replies[socket := Registered(s.frames[socket].payload.routeId)])
      else s.(relay := relay)
  }

  /** The Relay hears of the route from nobody but this Agent. */
  predicate Foreign(e: R.Event, r: nat, frames: map<nat, Token>) {
    e.Register? ==> e.token.payload.routeId != r && e.socket !in frames
  }

  function Step(c: R.Config, r: nat, s: System, e: Event): System {
    match e
    case RelayEvent(at, e) => if Foreign(e, r, s.frames) then s.(relay := R.Step(c, s.relay, at, e)) else s
    case RelayRestart => s.(relay := R.Init().(now := s.relay.now, registrations := s.relay.registrations))
    case ReadConfig => if s.renewal == Resting then s.(renewal := Requesting(s.persisted)) else s
    case GrantArrives(grant) => ApplyGrant(s, grant)
    case RenewalEnds => s.(renewal := Resting)
    case OtherRenewal(grant) => if Extends(s.persisted, grant) then s.(persisted := grant) else s
    case Reconnect => s.(agent := Begin(s.agent, s.agent.current))
    case Rotate =>
      if !s.renewal.Rotating? || s.agent.phase != Idle then s
      else if s.renewal.candidate == s.agent.current then s.(renewal := Resting)
      else s.(agent := Begin(s.agent, s.renewal.candidate))
    case OpenFails => if s.agent.phase.Opening? then s.(agent := GiveUp(s.agent)) else s
    case Opened(socket) =>
      if !s.agent.phase.Opening? || socket in s.frames || socket in s.relay.registrations then s
      else s.(agent := Send(s.agent, socket), frames := s.frames[socket := s.agent.phase.candidate])
    case FrameArrives(at, socket) => Deliver(c, s, at, socket)
    case ReplyArrives =>
      if s.agent.phase.Awaiting? && s.agent.phase.socket in s.replies
      then s.(agent := Answer(s.agent, r, s.replies[s.agent.phase.socket])) else s
    case ReplyLost => if s.agent.phase.Awaiting? then s.(agent := GiveUp(s.agent)) else s
    case ControlCloses => s.(agent := s.agent.(control := None))
    case AgentRestart => s.(agent := Agent(s.persisted, Idle, None), renewal := Resting)
  }

  function Run(c: R.Config, r: nat, s: System, es: seq<Event>): System
    decreases |es|
  {
    if es == [] then s else Run(c, r, Step(c, r, s, es[0]), es[1..])
  }

  /** A Relay that may know other routes, and an Agent about to connect for the first time. */
  ghost predicate Start(c: R.Config, r: nat, s: System) {
    && s.persisted.payload.Provisioned? && s.persisted.payload.routeId == r && PrincipalOf(s.persisted.payload) == User
    && s.agent == Agent(s.persisted, Idle, None) && s.renewal == Resting
    && R.Inv(c, s.relay) && r !in s.relay.auths && s.frames == map[] && s.replies == map[]
  }

  // ----- no capability in use outruns the one on disk

  /** The same capability, or one of the same owner that expires strictly later. */
  predicate Behind(a: Token, b: Token) {
    && a.payload.Provisioned? && b.payload.Provisioned?
    && a.payload.routeId == b.payload.routeId && OwnerOf(a.payload) == OwnerOf(b.payload)
    && (a == b || Expiry(a) < Expiry(b))
  }

  lemma BehindIsTransitive(a: Token, b: Token, c: Token)
    requires Behind(a, b) && Behind(b, c)
    ensures Behind(a, c)
  {
  }

  lemma BehindIsReached(a: Token, b: Token)
    requires Behind(a, b)
    ensures Reached(GenerationOf(a), GenerationOf(b)) && GenerationOf(a).owner == GenerationOf(b).owner
  {
  }

  /** What the Relay holds for the route came from a capability behind `t`. */
  ghost predicate HeldBehind(relay: R.State, r: nat, t: Token) {
    r in relay.auths ==> exists h :: GenerationOf(h) == relay.auths[r] && Behind(h, t)
  }

  /** What the connector is about to present. */
  function Next(a: Agent): Token {
    if a.phase.Opening? then a.phase.candidate else a.current
  }

  /** What the renewal loop will ask the connector to present. */
  function Goal(s: System): Token {
    match s.renewal
    case Resting => s.persisted
    case Requesting(snapshot) => snapshot
    case Rotating(candidate) => candidate
  }

  ghost predicate SentBehind(frames: map<nat, Token>, t: Token) {
    forall k :: k in frames ==> Behind(frames[k], t)
  }

  /** Every link of the chain from the Relay's high-water mark to the configuration on disk. */
  ghost predicate Chain(r: nat, s: System) {
    && s.persisted.payload.routeId == r && PrincipalOf(s.persisted.payload) == User
    && HeldBehind(s.relay, r, s.agent.current) && SentBehind(s.frames, s.agent.current)
    && Behind(s.agent.current, Next(s.agent)) && Behind(Next(s.agent), Goal(s)) && Behind(Goal(s), s.persisted)
  }

  ghost predicate Inv(r: nat, s: System) {
    && Chain(r, s)
    && (s.agent.phase.Awaiting? ==> s.agent.current == s.agent.phase.candidate)
    && (forall k :: k in s.replies ==> s.replies[k] == Registered(r))
  }

  lemma HeldBehindMore(relay: R.State, r: nat, a: Token, b: Token)
    requires HeldBehind(relay, r, a) && Behind(a, b)
    ensures HeldBehind(relay, r, b)
  {
  }

  lemma SentBehindMore(frames: map<nat, Token>, a: Token, b: Token)
    requires SentBehind(frames, a) && Behind(a, b)
    ensures SentBehind(frames, b)
  {
  }

  lemma ExtensionIsAhead(held: Token, grant: Token)
    requires Extends(held, grant) && PrincipalOf(held.payload) == User
    ensures Behind(held, grant)
  {
  }

  /** The Relay's authorization of a route changes only by that route's registrations. */
  lemma OnlyRegistrationsAuthorize(c: R.Config, s: R.State, at: int, e: R.Event, r: nat)
    ensures var t := R.Step(c, s, at, e);
            r in t.auths ==>
              || (r in s.auths && t.auths[r] == s.auths[r])
              || (e.Register? && e.token.payload.routeId == r && t.auths[r] == GenerationOf(e.token))
  {
    if e.Register? {
      if at >= s.now { RegistrationAuthorizes(c, s.(now := at), e.socket, e.token, e.profile, r); }
    } else {
      StepRetains(c, s, at, e);
    }
  }

  lemma RegistrationAuthorizes(c: R.Config, s: R.State, socket: nat, token: Token, profile: Option<Principal>, r: nat)
    ensures var t := R.StepRegister(c, s, socket, token, profile);
            r in t.auths ==>
              || (r in s.auths && t.auths[r] == s.auths[r])
              || (token.payload.routeId == r && t.auths[r] == GenerationOf(token))
  {
    var q, g := token.payload.routeId, GenerationOf(token);
    CurrentRetains(s, q);
    EnrollmentAuthorizes(c, R.Current(s, q), socket, q, LoginOf(token.payload), g, r);
  }

  lemma EnrollmentAuthorizes(c: R.Config, s: R.State, socket: nat, q: nat, login: Option<LoginId>, g: Generation, r: nat)
    ensures var t := R.Enroll(c, s, socket, q, login, g);
            r in t.auths ==> (r in s.auths && t.auths[r] == s.auths[r]) || (r == q && t.auths[r] == g)
  {
    var s2 := R.DropOldLogin(s, q, login);
    assert s2.auths == s.auths;
    assert R.Install(s2, socket, q, login, g).auths == s.auths[q := g];
  }

  lemma RelayStepKeepsInv(c: R.Config, r: nat, s: System, at: int, e: R.Event)
    requires Inv(r, s)
    requires e.Register? && e.token.payload.routeId == r ==> Behind(e.token, s.agent.current)
    ensures Inv(r, s.(relay := R.Step(c, s.relay, at, e)))
  {
    OnlyRegistrationsAuthorize(c, s.relay, at, e, r);
  }

  lemma DeliverKeepsInv(c: R.Config, r: nat, s: System, at: int, socket: nat)
    requires Inv(r, s)
    ensures Inv(r, Deliver(c, s, at, socket))
  {
    if socket in s.frames {
      RelayStepKeepsInv(c, r, s, at, R.Register(socket, s.frames[socket], Some(User)));
    }
  }

  lemma GrantKeepsInv(r: nat, s: System, grant: Token)
    requires Inv(r, s)
    ensures Inv(r, ApplyGrant(s, grant))
  {
    if Extends(Goal(s), grant) {
      ExtensionIsAhead(Goal(s), grant);
      BehindIsTransitive(Next(s.agent), Goal(s), grant);
    }
    BehindIsTransitive(Next(s.agent), Goal(s), s.persisted);
  }

  lemma OtherRenewalKeepsInv(r: nat, s: System, grant: Token)
    requires Inv(r, s) && Extends(s.persisted, grant)
    ensures Inv(r, s.(persisted := grant))
  {
  }

  lemma SendKeepsInv(c: R.Config, r: nat, s: System, socket: nat)
    requires Inv(r, s)
    ensures Inv(r, Step(c, r, s, Opened(socket)))
  {
    HeldBehindMore(s.relay, r, s.agent.current, Next(s.agent));
    SentBehindMore(s.frames, s.agent.current, Next(s.agent));
  }

  lemma AgentRestartKeepsInv(c: R.Config, r: nat, s: System)
    requires Inv(r, s)
    ensures Inv(r, Step(c, r, s, AgentRestart))
  {
  }

  /** Giving up a connection attempt, or ending a renewal, only shortens the chain. */
  lemma ShorteningKeepsInv(r: nat, s: System)
    requires Inv(r, s)
    ensures Inv(r, s.(agent := GiveUp(s.agent))) && Inv(r, s.(renewal := Resting))
  {
  }

  lemma StepKeepsInv(c: R.Config, r: nat, s: System, e: Event)
    requires Inv(r, s)
    ensures Inv(r, Step(c, r, s, e))
  {
    match e
    case RelayEvent(at, e) => if Foreign(e, r, s.frames) { RelayStepKeepsInv(c, r, s, at, e); }
    case GrantArrives(grant) => GrantKeepsInv(r, s, grant);
    case OtherRenewal(grant) => if Extends(s.persisted, grant) { OtherRenewalKeepsInv(r, s, grant); }
    case RenewalEnds => ShorteningKeepsInv(r, s);
    case Rotate => ShorteningKeepsInv(r, s);
    case OpenFails => ShorteningKeepsInv(r, s);
    case ReplyLost => ShorteningKeepsInv(r, s);
    case Opened(socket) => SendKeepsInv(c, r, s, socket);
    case FrameArrives(at, socket) => DeliverKeepsInv(c, r, s, at, socket);
    case AgentRestart => AgentRestartKeepsInv(c, r, s);
    case _ =>
  }

  lemma EmptyRelayIsSound(c: R.Config, now: int, registrations: map<nat, R.Registration>)
    ensures R.Inv(c, R.Init().(now := now, registrations := registrations))
  {
    var relay := R.Init().(now := now, registrations := registrations);
    assert forall q: nat :: R.Load(relay, q) == 0;
  }

  lemma OthersLeaveRelay(c: R.Config, r: nat, s: System, e: Event)
    requires !e.RelayEvent? && !e.FrameArrives? && !e.RelayRestart?
    ensures Step(c, r, s, e).relay == s.relay
  {
  }

  lemma StepKeepsRelay(c: R.Config, r: nat, s: System, e: Event)
    requires R.Inv(c, s.relay)
    ensures R.Inv(c, Step(c, r, s, e).relay)
  {
    match e
    case RelayEvent(at, e) => R.StepKeepsInv(c, s.relay, at, e);
    case FrameArrives(at, socket) =>
      if socket in s.frames { R.StepKeepsInv(c, s.relay, at, R.Register(socket, s.frames[socket], Some(User))); }
    case RelayRestart => EmptyRelayIsSound(c, s.relay.now, s.relay.registrations);
    case _ => OthersLeaveRelay(c, r, s, e);
  }

  lemma {:induction false} RunKeepsInv(c: R.Config, r: nat, s: System, es: seq<Event>)
    requires Inv(r, s) && R.Inv(c, s.relay)
    ensures Inv(r, Run(c, r, s, es)) && R.Inv(c, Run(c, r, s, es).relay)
    decreases |es|
  {
    if es != [] {
      StepKeepsInv(c, r, s, es[0]);
      StepKeepsRelay(c, r, s, es[0]);
      RunKeepsInv(c, r, Step(c, r, s, es[0]), es[1..]);
    }
  }

  /** Over every run, with lost replies, late frames, reconnects and restarts of either side:
      the Relay's high-water generation does not exceed the connector's capability, nor that
      the one on disk. */
  lemma NeverAhead(c: R.Config, r: nat, s0: System, es: seq<Event>)
    requires Start(c, r, s0)
    ensures var s := Run(c, r, s0, es);
            && (r in s.relay.auths ==> Reached(s.relay.auths[r], GenerationOf(s.agent.current)))
            && Reached(GenerationOf(s.agent.current), GenerationOf(s.persisted))
  {
    RunKeepsInv(c, r, s0, es);
    var s := Run(c, r, s0, es);
    BehindIsTransitive(s.agent.current, Next(s.agent), Goal(s));
    BehindIsTransitive(s.agent.current, Goal(s), s.persisted);
    BehindIsReached(s.agent.current, s.persisted);
    if r in s.relay.auths {
      var h :| GenerationOf(h) == s.relay.auths[r] && Behind(h, s.agent.current);
      BehindIsReached(h, s.agent.current);
    }
  }

  /** The Relay yields to any capability its holdings are behind. */
  lemma BehindIsReplaceable(c: R.Config, relay: R.State, at: int, r: nat, t: Token)
    requires R.Inv(c, relay) && HeldBehind(relay, r, t)
    ensures Supersedes(relay.(now := at), r, GenerationOf(t))
  {
  }

  /** At any later time, registering again with the connector's capability, or after a
      restart with the one on disk, is never refused as a rollback: it is accepted exactly
      when the token verifies and fits and there is room for an authorization. */
  lemma ReconnectionIsNeverARollback(c: R.Config, r: nat, s0: System, es: seq<Event>, at: int, socket: nat, t: Token)
    requires Start(c, r, s0)
    requires var s := Run(c, r, s0, es);
             && (t == s.agent.current || t == s.persisted)
             && socket !in s.relay.registrations && at >= s.relay.now
    ensures var relay := Run(c, r, s0, es).relay.(now := at);
            |R.StepRegister(c, relay, socket, t, Some(User)).accepted| == |relay.accepted| + 1 <==>
              R.Presentable(c, relay, t, Some(User)) && (r in relay.auths || |relay.auths| < c.maxAuthorizations)
  {
    RunKeepsInv(c, r, s0, es);
    var s := Run(c, r, s0, es);
    BehindIsTransitive(s.agent.current, Next(s.agent), Goal(s));
    BehindIsTransitive(s.agent.current, Goal(s), s.persisted);
    HeldBehindMore(s.relay, r, s.agent.current, s.persisted);
    BehindIsReplaceable(c, s.relay, at, r, t);
    AcceptedExactlyWhen(c, s.relay.(now := at), socket, t, Some(User));
  }

  /** A rotation puts its candidate in force before the answer is known. */
  lemma RotationSends(c: R.Config, r: nat, s: System, socket: nat)
    requires s.agent.phase == Idle && s.renewal.Rotating? && s.renewal.candidate != s.agent.current
    requires socket !in s.frames && socket !in s.relay.registrations
    ensures var k := s.renewal.candidate;
            Step(c, r, Step(c, r, s, Rotate), Opened(socket)) ==
            s.(agent := Agent(k, Awaiting(socket, k, s.agent.current), s.agent.control), frames := s.frames[socket := k])
  {
  }

  /** A registration that reaches the Relay in time installs the connector's capability there;
      the connector goes on with it, whether or not the answer reaches it. */
  lemma RegistrationTakesEffect(c: R.Config, r: nat, s: System, at: int, socket: nat)
    requires Inv(r, s) && R.Inv(c, s.relay) && at >= s.relay.now
    requires s.agent.phase.Awaiting? && s.agent.phase.socket == socket
    requires socket in s.frames && s.frames[socket] == s.agent.current && socket !in s.relay.registrations
    requires R.Presentable(c, s.relay.(now := at), s.agent.current, Some(User))
    requires r in s.relay.auths || |s.relay.auths| < c.maxAuthorizations
    ensures var t := Deliver(c, s, at, socket);
            && r in t.relay.auths && t.relay.auths[r] == GenerationOf(s.agent.current)
            && t.agent == s.agent && socket in t.replies
            && Answer(t.agent, r, t.replies[socket]) == Agent(s.agent.current, Idle, Some(socket))
            && GiveUp(t.agent) == Agent(s.agent.current, Idle, s.agent.control)
  {
    var relay := s.relay.(now := at);
    BehindIsReplaceable(c, s.relay, at, r, s.agent.current);
    AcceptedExactlyWhen(c, relay, socket, s.agent.current, Some(User));
    assert R.Step(c, s.relay, at, R.Register(socket, s.agent.current, Some(User)))
        == R.StepRegister(c, relay, socket, s.agent.current, Some(User));
  }

  /** A grant is persisted and handed to the connector exactly when it extends what was read and
      that is still on disk; otherwise the disk stays.  The connector is then asked for what was
      read, or for nothing if the disk has changed or the grant is another holder's. */
  lemma GrantIsPersistedExactlyWhen(s: System, grant: Token)
    requires s.renewal.Requesting?
    ensures var t := ApplyGrant(s, grant);
            var held := s.renewal.snapshot;
            && t == s.(persisted := t.persisted, renewal := t.renewal)
            && (Extends(held, grant) && s.persisted == held ==> t.persisted == grant && t.renewal == Rotating(grant))
            && (Extends(held, grant) && s.persisted != held ==> t.persisted == s.persisted && t.renewal == Resting)
            && (!Extends(held, grant) ==>
                  t.persisted == s.persisted && t.renewal == if SameHolder(held, grant) then Rotating(held) else Resting)
  {
  }

  /** A grant extends a capability exactly when it is provisioned for the same route,
      installation and name, stands for a user, and expires strictly later. */
  lemma ExtendsExactlyWhen(held: Token, grant: Token)
    requires held.payload.Provisioned? && grant.payload.Provisioned?
    ensures SameHolder(held, grant) <==>
              && held.payload.routeId == grant.payload.routeId && held.payload.installation == grant.payload.installation
              && held.payload.name == grant.payload.name
    ensures Extends(held, grant) <==>
              && SameHolder(held, grant) && (grant.payload.version != 4 || grant.payload.principal == User)
              && EffectiveExpiration(held.payload).value < EffectiveExpiration(grant.payload).value
  {
  }

  /** Restoring the previous capability on a refusal is sound only because a conforming Relay
      does not refuse what it has installed: after an installed registration, the previous
      capability would be a rollback. */
  lemma RefusalMustMeanRefused(c: R.Config, r: nat, s: System, at: int, socket: nat)
    requires Inv(r, s) && R.Inv(c, s.relay) && at >= s.relay.now
    requires s.agent.phase.Awaiting? && s.agent.phase.socket == socket
    requires Behind(s.agent.phase.previous, s.agent.current) && s.agent.phase.previous != s.agent.current
    requires socket in s.frames && s.frames[socket] == s.agent.current && socket !in s.relay.registrations
    requires R.Presentable(c, s.relay.(now := at), s.agent.current, Some(User))
    requires r in s.relay.auths || |s.relay.auths| < c.maxAuthorizations
    ensures var t := Deliver(c, s, at, socket);
            && r in t.relay.auths
            && !Reached(t.relay.auths[r], GenerationOf(Answer(t.agent, r, Refusal).current))
  {
    RegistrationTakesEffect(c, r, s, at, socket);
    EarlierIsNotReached(s.agent.phase.previous, s.agent.current);
  }

  lemma EarlierIsNotReached(a: Token, b: Token)
    requires Behind(a, b) && a != b
    ensures !Reached(GenerationOf(b), GenerationOf(a))
  {
  }

  /** The connector as an object: one control transition at a time, suspended where it waits.
      Its methods are the connector's steps above, made on fields. */
  class RelayConnector {
    const route: nat
    var routeCapability: Token
    var control: Option<nat>
    var transition: Phase

    function View(): Agent
      reads this
    {
      Agent(routeCapability, transition, control)
    }

    constructor (route: nat, routeCapability: Token)
      ensures this.route == route && View() == Agent(routeCapability, Idle, None)
    {
      this.route, this.routeCapability := route, routeCapability;
      control, transition := None, Idle;
    }

    /** A rotation names its candidate; a reconnection takes the capability of the moment. */
    method TransitionControl(candidate: Option<Token>)
      requires transition.Idle?
      modifies this`transition
      ensures View() == Begin(old(View()), if candidate.Some? then candidate.value else old(routeCapability))
    {
      transition := Opening(if candidate.Some? then candidate.value else routeCapability);
    }

    /** The socket is open: the registration goes out, and with it the old capability. */
    method SendRegistration(socket: nat) returns (frame: Token)
      requires transition.Opening?
      modifies this
      ensures View() == Send(old(View()), socket) && frame == Next(old(View()))
    {
      frame := transition.candidate;
      transition := Awaiting(socket, frame, routeCapability);
      routeCapability := frame;
    }

    /** The rest of the transition, after an answer or none. */
    method Settle(response: Option<Reply>) returns (ok: bool)
      requires transition.Awaiting?
      modifies this
      ensures View() == if response.Some? then Answer(old(View()), route, response.value) else GiveUp(old(View()))
      ensures ok <==> response == Some(Registered(route))
    {
      var responseReceived, registrationAccepted := response.Some?, false;
      if responseReceived && response.value == Registered(route) {
        registrationAccepted := true;
        routeCapability, control := transition.candidate, Some(transition.socket);
      }
      if responseReceived && !registrationAccepted {
        routeCapability := transition.previous;
      }
      transition := Idle;
      return registrationAccepted;
    }
  }
}
