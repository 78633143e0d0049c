/**
 Whole stories of the connector: a renewal from the request to the new control socket, lost
 answers, other processes' renewals and restarts of either side, each ending in a connection.
 */
module ConnectorRuns {
  import opened Options
  import opened Capability
  import R = Relay
  import opened RelayAnswers
  import opened Connector

  /** The capability can be registered for the route at the time. */
  ghost predicate Welcome(c: R.Config, r: nat, relay: R.State, t: Token, at: int) {
    && relay.now <= at && Genuine(t, c.installation, at) && LoginIsFree(relay, r, LoginOf(t.payload))
    && (r in relay.auths || |relay.auths| < c.maxAuthorizations)
  }

  predicate Unused(s: System, socket: nat) { socket !in s.frames && socket !in s.relay.registrations }

  /** The Relay's answer to a frame, exactly. */
  lemma FrameIsAnsweredExactlyWhen(c: R.Config, r: nat, s: System, at: int, socket: nat)
    requires R.Inv(c, s.relay) && s.relay.now <= at && socket in s.frames && s.frames[socket].payload.routeId == r
    ensures var f := s.frames[socket];
            var t := Step(c, r, s, FrameArrives(at, socket));
            if && socket !in s.relay.registrations && Genuine(f, c.installation, at) && ProfileFits(f.payload, Some(User))
               && LoginIsFree(s.relay, r, LoginOf(f.payload)) && Fits(c, s.relay, r, at, GenerationOf(f))
            then && Installed(s.relay, t.relay, socket, r, LoginOf(f.payload), GenerationOf(f), at)
                 && t == s.(relay := t.relay, replies := s.replies[socket := Registered(r)])
            else t == s.(relay := s.relay.(now := at))
  {
    RegistersExactlyWhen(c, s.relay, at, socket, s.frames[socket], Some(User));
  }

  lemma BehindIsUser(a: Token, b: Token)
    requires Behind(a, b) && PrincipalOf(b.payload) == User
    ensures ProfileFits(a.payload, Some(User))
  {
    OwnersAgreeExactlyWhen(a.payload, b.payload);
  }

  /** The system as the transition to `k` over `socket` leaves it, with or without an answer. */
  ghost predicate Connected(s: System, t: System, r: nat, k: Token, at: int, socket: nat, control: Option<nat>) {
    && t.agent == Agent(k, Idle, control) && t.persisted == s.persisted && t.renewal == s.renewal
    && t.frames == s.frames[socket := k] && t.replies == s.replies[socket := Registered(r)]
    && Installed(s.relay, t.relay, socket, r, LoginOf(k.payload), GenerationOf(k), at)
  }

  /** The Relay yields to whatever the connector opens for. */
  lemma CandidateFits(c: R.Config, r: nat, s: System, at: int)
    requires Inv(r, s) && R.Inv(c, s.relay) && s.agent.phase.Opening?
    ensures var k := s.agent.phase.candidate;
            k.payload.routeId == r && ProfileFits(k.payload, Some(User)) && Yields(s.relay, r, at, GenerationOf(k))
  {
    var k := s.agent.phase.candidate;
    BehindIsTransitive(k, Goal(s), s.persisted);
    BehindIsUser(k, s.persisted);
    HeldBehindMore(s.relay, r, s.agent.current, k);
    BehindIsReplaceable(c, s.relay, at, r, k);
    YieldsMeansSupersedes(s.relay.(now := at), r, GenerationOf(k));
  }

  lemma SentIsInstalled(c: R.Config, r: nat, s: System, at: int, socket: nat)
    requires R.Inv(c, s.relay) && s.agent.phase.Opening? && Unused(s, socket)
    requires var k := s.agent.phase.candidate;
             && Welcome(c, r, s.relay, k, at) && k.payload.routeId == r
             && ProfileFits(k.payload, Some(User)) && Yields(s.relay, r, at, GenerationOf(k))
    ensures var k := s.agent.phase.candidate;
            var t := Step(c, r, Step(c, r, s, Opened(socket)), FrameArrives(at, socket));
            && Installed(s.relay, t.relay, socket, r, LoginOf(k.payload), GenerationOf(k), at)
            && t == s.(agent := Agent(k, Awaiting(socket, k, s.agent.current), s.agent.control), relay := t.relay,
                       frames := s.frames[socket := k], replies := s.replies[socket := Registered(r)])
  {
    FrameIsAnsweredExactlyWhen(c, r, Step(c, r, s, Opened(socket)), at, socket);
  }

  lemma AnswerSettles(c: R.Config, r: nat, s: System)
    requires s.agent.phase.Awaiting? && s.agent.phase.socket in s.replies && s.replies[s.agent.phase.socket] == Registered(r)
    ensures Step(c, r, s, ReplyArrives) == s.(agent := Agent(s.agent.phase.candidate, Idle, Some(s.agent.phase.socket)))
    ensures Step(c, r, s, ReplyLost) == s.(agent := Agent(s.agent.current, Idle, s.agent.control))
  {
  }

  /** What is installed is welcome again. */
  lemma InstalledIsWelcome(c: R.Config, r: nat, s: R.State, t: R.State, socket: nat, k: Token, at: int, later: int)
    requires Installed(s, t, socket, r, LoginOf(k.payload), GenerationOf(k), at) && Welcome(c, r, s, k, at)
    requires at <= later && Genuine(k, c.installation, later)
    ensures Welcome(c, r, t, k, later)
  {
  }

  /** An opening that is let through ends connected under its candidate; if only the answer is
      lost, the Relay has installed it and the connector keeps it. */
  lemma TransitionConnects(c: R.Config, r: nat, s: System, at: int, socket: nat)
    requires Inv(r, s) && R.Inv(c, s.relay) && s.agent.phase.Opening? && Unused(s, socket)
    requires Welcome(c, r, s.relay, s.agent.phase.candidate, at)
    ensures var k := s.agent.phase.candidate;
            var t := Step(c, r, Step(c, r, s, Opened(socket)), FrameArrives(at, socket));
            && Connected(s, Step(c, r, t, ReplyArrives), r, k, at, socket, Some(socket))
            && Connected(s, Step(c, r, t, ReplyLost), r, k, at, socket, s.agent.control)
  {
    CandidateFits(c, r, s, at);
    SentIsInstalled(c, r, s, at, socket);
    AnswerSettles(c, r, Step(c, r, Step(c, r, s, Opened(socket)), FrameArrives(at, socket)));
  }

  /** From rest, the connector opens for what it has, and a failure to open is forgotten. */
  lemma ReconnectOpens(c: R.Config, r: nat, s: System)
    requires s.agent.phase == Idle
    ensures Step(c, r, s, Reconnect) == s.(agent := s.agent.(phase := Opening(s.agent.current)))
    ensures Step(c, r, Step(c, r, s, Reconnect), OpenFails) == s
  {
  }

  /** One transition and one check at a time: until it ends, no other begins; sockets open and
      answers count only where they are waited for, and every socket is a new one. */
  lemma OneTransitionAtATime(c: R.Config, r: nat, s: System, socket: nat)
    ensures s.agent.phase != Idle ==> Step(c, r, s, Reconnect) == s && Step(c, r, s, Rotate) == s
    ensures s.renewal != Resting ==> Step(c, r, s, ReadConfig) == s
    ensures !s.agent.phase.Opening? || !Unused(s, socket) ==> Step(c, r, s, Opened(socket)) == s
    ensures !s.agent.phase.Opening? ==> Step(c, r, s, OpenFails) == s
    ensures !s.agent.phase.Awaiting? ==> Step(c, r, s, ReplyArrives) == s && Step(c, r, s, ReplyLost) == s
  {
  }

  /** An explicit refusal, and any answer but the expected one, restores what was in force. */
  lemma RefusalRestores(c: R.Config, r: nat, s: System)
    requires s.agent.phase.Awaiting? && s.agent.phase.socket in s.replies && s.replies[s.agent.phase.socket] != Registered(r)
    ensures Step(c, r, s, ReplyArrives) == s.(agent := Agent(s.agent.phase.previous, Idle, s.agent.control))
  {
  }

  /** From the request to the connector's opening. */
  lemma RenewalOpens(c: R.Config, r: nat, s: System, grant: Token)
    requires Inv(r, s) && s.renewal == Resting && s.agent.phase == Idle && Extends(s.persisted, grant)
    ensures Step(c, r, Step(c, r, Step(c, r, s, ReadConfig), GrantArrives(grant)), Rotate)
            == s.(persisted := grant, renewal := Rotating(grant), agent := s.agent.(phase := Opening(grant)))
    ensures Behind(s.persisted, grant) && PrincipalOf(grant.payload) == User
  {
    assert grant != s.agent.current by {
      BehindIsTransitive(s.agent.current, Next(s.agent), Goal(s));
    }
    ExtensionIsAhead(s.persisted, grant);
  }

  lemma ExtensionIsAhead(held: Token, grant: Token)
    requires Extends(held, grant) && PrincipalOf(held.payload) == User
    ensures Behind(held, grant)
  {
    OwnersAgreeExactlyWhen(held.payload, grant.payload);
  }

  lemma RenewalConnects(c: R.Config, r: nat, s: System, grant: Token, at: int, socket: nat)
    requires Inv(r, s) && R.Inv(c, s.relay) && s.renewal == Resting && s.agent.phase == Idle && Unused(s, socket)
    requires Extends(s.persisted, grant) && Welcome(c, r, s.relay, grant, at)
    ensures var opening := Step(c, r, Step(c, r, Step(c, r, s, ReadConfig), GrantArrives(grant)), Rotate);
            var sent := Step(c, r, Step(c, r, opening, Opened(socket)), FrameArrives(at, socket));
            Connected(opening, Step(c, r, sent, ReplyArrives), r, grant, at, socket, Some(socket))
  {
    var a := Step(c, r, s, ReadConfig);
    var b := Step(c, r, a, GrantArrives(grant));
    StepKeepsInv(c, r, s, ReadConfig);
    StepKeepsInv(c, r, a, GrantArrives(grant));
    StepKeepsInv(c, r, b, Rotate);
    RenewalOpens(c, r, s, grant);
    TransitionConnects(c, r, Step(c, r, b, Rotate), at, socket);
  }

  /** A run, one step at a time. */
  lemma RunUnfolds(c: R.Config, r: nat, s: System, es: seq<Event>, k: nat)
    requires k < |es|
    ensures Run(c, r, s, es[k..]) == Run(c, r, Step(c, r, s, es[k]), es[k + 1..])
  {
    assert es[k..][1..] == es[k + 1..];
  }

  lemma RunOfSeven(c: R.Config, r: nat, s: System, es: seq<Event>)
    requires |es| == 7
    ensures Run(c, r, s, es) ==
            Step(c, r, Step(c, r, Step(c, r, Step(c, r, Step(c, r, Step(c, r, Step(c, r, s, es[0]), es[1]), es[2]), es[3]), es[4]), es[5]), es[6])
  {
    var s1 := Step(c, r, s, es[0]);
    var s2 := Step(c, r, s1, es[1]);
    var s3 := Step(c, r, s2, es[2]);
    var s4 := Step(c, r, s3, es[3]);
    var s5 := Step(c, r, s4, es[4]);
    var s6 := Step(c, r, s5, es[5]);
    assert es[0..] == es;
    RunUnfolds(c, r, s, es, 0);
    RunUnfolds(c, r, s1, es, 1);
    RunUnfolds(c, r, s2, es, 2);
    RunUnfolds(c, r, s3, es, 3);
    RunUnfolds(c, r, s4, es, 4);
    RunUnfolds(c, r, s5, es, 5);
    RunUnfolds(c, r, s6, es, 6);
  }

  /** A renewal that nothing disturbs: the grant is on disk, in the connector and at the Relay,
      the connection is over the new socket, and the loop is at rest. */
  lemma RenewalTakesEffect(c: R.Config, r: nat, s: System, grant: Token, at: int, socket: nat)
    requires Inv(r, s) && R.Inv(c, s.relay) && s.renewal == Resting && s.agent.phase == Idle && Unused(s, socket)
    requires Extends(s.persisted, grant) && Welcome(c, r, s.relay, grant, at)
    ensures var t := Run(c, r, s, [ReadConfig, GrantArrives(grant), Rotate, Opened(socket), FrameArrives(at, socket), ReplyArrives, Rotate]);
            && t.persisted == grant && t.renewal == Resting && t.agent == Agent(grant, Idle, Some(socket))
            && Installed(s.relay, t.relay, socket, r, LoginOf(grant.payload), GenerationOf(grant), at)
  {
    RunOfSeven(c, r, s, [ReadConfig, GrantArrives(grant), Rotate, Opened(socket), FrameArrives(at, socket), ReplyArrives, Rotate]);
    RenewalOpens(c, r, s, grant);
    RenewalConnects(c, r, s, grant, at, socket);
  }

  lemma LosingKeepsInv(c: R.Config, r: nat, s: System, at: int, socket: nat)
    requires Inv(r, s) && R.Inv(c, s.relay)
    ensures var lost := Step(c, r, Step(c, r, Step(c, r, s, Opened(socket)), FrameArrives(at, socket)), ReplyLost);
            Inv(r, lost) && R.Inv(c, lost.relay)
  {
    var a := Step(c, r, s, Opened(socket));
    var b := Step(c, r, a, FrameArrives(at, socket));
    StepKeepsInv(c, r, s, Opened(socket));
    StepKeepsRelay(c, r, s, Opened(socket));
    StepKeepsInv(c, r, a, FrameArrives(at, socket));
    StepKeepsRelay(c, r, a, FrameArrives(at, socket));
    StepKeepsInv(c, r, b, ReplyLost);
    StepKeepsRelay(c, r, b, ReplyLost);
  }

  /** From rest, a reconnection that is welcome succeeds. */
  lemma IdleReconnects(c: R.Config, r: nat, s: System, at: int, socket: nat)
    requires Inv(r, s) && R.Inv(c, s.relay) && s.agent.phase == Idle && Unused(s, socket)
    requires Welcome(c, r, s.relay, s.agent.current, at)
    ensures var sent := Step(c, r, Step(c, r, Step(c, r, s, Reconnect), Opened(socket)), FrameArrives(at, socket));
            Connected(s, Step(c, r, sent, ReplyArrives), r, s.agent.current, at, socket, Some(socket))
  {
    StepKeepsInv(c, r, s, Reconnect);
    ReconnectOpens(c, r, s);
    TransitionConnects(c, r, Step(c, r, s, Reconnect), at, socket);
  }

  /** A registration whose answer was lost can be repeated over another socket. */
  lemma LostAnswerIsHarmless(c: R.Config, r: nat, s: System, at: int, socket: nat, later: int, other: nat)
    requires Inv(r, s) && R.Inv(c, s.relay) && s.agent.phase.Opening? && Unused(s, socket) && Unused(s, other) && other != socket
    requires Welcome(c, r, s.relay, s.agent.phase.candidate, at)
    requires at <= later && Genuine(s.agent.phase.candidate, c.installation, later)
    ensures var k := s.agent.phase.candidate;
            var lost := Step(c, r, Step(c, r, Step(c, r, s, Opened(socket)), FrameArrives(at, socket)), ReplyLost);
            var again := Step(c, r, Step(c, r, Step(c, r, lost, Reconnect), Opened(other)), FrameArrives(later, other));
            Connected(lost, Step(c, r, again, ReplyArrives), r, k, later, other, Some(other))
  {
    var sent := Step(c, r, Step(c, r, s, Opened(socket)), FrameArrives(at, socket));
    var lost := Step(c, r, sent, ReplyLost);
    LosingKeepsInv(c, r, s, at, socket);
    TransitionConnects(c, r, s, at, socket);
    InstalledIsWelcome(c, r, s.relay, lost.relay, socket, s.agent.phase.candidate, at, later);
    IdleReconnects(c, r, lost, later, other);
  }

  /** Whatever it was doing, an Agent that restarts connects with what is on disk. */
  lemma RestartConnects(c: R.Config, r: nat, s: System, at: int, socket: nat)
    requires Inv(r, s) && R.Inv(c, s.relay) && Unused(s, socket) && Welcome(c, r, s.relay, s.persisted, at)
    ensures var up := Step(c, r, s, AgentRestart);
            var sent := Step(c, r, Step(c, r, Step(c, r, up, Reconnect), Opened(socket)), FrameArrives(at, socket));
            && up.renewal == Resting
            && Connected(up, Step(c, r, sent, ReplyArrives), r, s.persisted, at, socket, Some(socket))
  {
    var up := Step(c, r, s, AgentRestart);
    StepKeepsInv(c, r, s, AgentRestart);
    IdleReconnects(c, r, up, at, socket);
  }

  /** A Relay that restarts knows nobody, and takes the connector back. */
  lemma RelayRestartConnects(c: R.Config, r: nat, s: System, at: int, socket: nat)
    requires Inv(r, s) && R.Inv(c, s.relay) && s.agent.phase == Idle && Unused(s, socket)
    requires s.relay.now <= at && Genuine(s.agent.current, c.installation, at) && c.maxAuthorizations > 0
    ensures var up := Step(c, r, s, RelayRestart);
            var sent := Step(c, r, Step(c, r, Step(c, r, up, Reconnect), Opened(socket)), FrameArrives(at, socket));
            && up.relay.auths == map[] && up.relay.routes == map[] && up.relay.active == map[]
            && Connected(up, Step(c, r, sent, ReplyArrives), r, s.agent.current, at, socket, Some(socket))
  {
    var up := Step(c, r, s, RelayRestart);
    StepKeepsInv(c, r, s, RelayRestart);
    StepKeepsRelay(c, r, s, RelayRestart);
    IdleReconnects(c, r, up, at, socket);
  }

  /** The Relay's other business goes on beside the Agent; the loss of the control socket and the
      end of a renewal touch nothing else. */
  lemma OthersGoOn(c: R.Config, r: nat, s: System, at: int, e: R.Event)
    requires e.Register? ==> e.token.payload.routeId != r && e.socket !in s.frames
    ensures Step(c, r, s, RelayEvent(at, e)) == s.(relay := R.Step(c, s.relay, at, e))
    ensures Step(c, r, s, ControlCloses) == s.(agent := Agent(s.agent.current, s.agent.phase, None))
    ensures Step(c, r, s, RenewalEnds) == s.(renewal := Resting)
  {
  }

  /** What another process has renewed reaches the connector at the next check that gets nothing
      better. */
  lemma OtherRenewalIsPickedUp(c: R.Config, r: nat, s: System, grant: Token, stale: Token)
    requires Inv(r, s) && s.renewal == Resting && s.agent.phase == Idle && Extends(s.persisted, grant)
    requires SameHolder(grant, stale) && !Extends(grant, stale)
    ensures var found := Step(c, r, Step(c, r, s, OtherRenewal(grant)), ReadConfig);
            Step(c, r, Step(c, r, found, GrantArrives(stale)), Rotate)
            == s.(persisted := grant, renewal := Rotating(grant), agent := s.agent.(phase := Opening(grant)))
  {
    assert grant != s.agent.current by {
      BehindIsTransitive(s.agent.current, Next(s.agent), Goal(s));
    }
  }
}
