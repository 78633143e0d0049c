/**
 Route capabilities: what the Relay reads from one, and when it accepts it.

 Signatures and keyed hashes are ideal: a token is authentic or not, and two login ids are
 equal only if they were derived from the same installation, principal and name.  Times
 are milliseconds.
 */
module Capability {
  import opened Options

  datatype Principal = User | HostAdmin

  datatype LoginId =
    | Scoped(installation: string, principal: Principal, name: string)
    | LegacyLogin(id: string)

  datatype Payload =
    // versions 1 and 2
    | Legacy(routeId: nat, legacyLogin: Option<string>, issuedAt: int, expiresAt: Option<int>)
    // version 3 has no principal field and always stands for a user; version 4 names it
    | Provisioned(version: nat, routeId: nat, principal: Principal, installation: string, name: string,
                  issuedAt: int, expiresAt: Option<int>, provisionerExpiresAt: int)

  /** A capability string: its payload, whether its signature verifies, and its digest. */
  datatype Token = Token(payload: Payload, authentic: bool, digest: nat)

  function PrincipalOf(p: Payload): Principal {
    if p.Provisioned? && p.version == 4 then p.principal else User
  }

  function OwnerOf(p: Payload): Option<LoginId> {
    if p.Provisioned? then Some(Scoped(p.installation, PrincipalOf(p), p.name)) else None
  }

  function LoginOf(p: Payload): Option<LoginId> {
    match p
    case Legacy(_, login, _, _) => if login.Some? then Some(LegacyLogin(login.value)) else None
    case Provisioned(_, _, _, _, _, _, _, _) => OwnerOf(p)
  }

  /** The earliest of the expirations that are present. */
  function EffectiveExpiration(p: Payload): Option<int> {
    match p
    case Legacy(_, _, _, expiresAt) => expiresAt
    case Provisioned(_, _, _, _, _, _, expiresAt, provisionerExpiresAt) =>
      if expiresAt.Some? && expiresAt.value <= provisionerExpiresAt then expiresAt else Some(provisionerExpiresAt)
  }

  /** verifyRouteCapability, and the Relay's check that the installation is its own. */
  predicate Verifies(t: Token, installation: string, now: int) {
    && t.authentic
    && (t.payload.expiresAt.Some? ==> now < t.payload.expiresAt.value)
    && (t.payload.Provisioned? ==> now < t.payload.provisionerExpiresAt && t.payload.installation == installation)
  }

  /** What the Relay remembers of an accepted capability. */
  datatype Generation = Generation(owner: Option<LoginId>, expiresAt: Option<int>, issuedAt: int, digest: nat)

  function GenerationOf(t: Token): Generation {
    Generation(OwnerOf(t.payload), EffectiveExpiration(t.payload), t.payload.issuedAt, t.digest)
  }

  predicate Expired(g: Generation, now: int) { g.expiresAt.Some? && g.expiresAt.value <= now }

  /** Later, where no expiration counts as never. */
  predicate ExpiresLater(a: Option<int>, b: Option<int>) {
    b.Some? && (a.None? || a.value > b.value)
  }

  /** assertMonotonicRouteAuthorization accepts `candidate` over `current`. */
  predicate Monotonic(current: Generation, candidate: Generation) {
    if ExpiresLater(current.expiresAt, candidate.expiresAt) then false
    else if ExpiresLater(candidate.expiresAt, current.expiresAt) then true
    else if candidate.issuedAt < current.issuedAt then false
    else !(candidate.issuedAt == current.issuedAt && candidate.digest != current.digest)
  }

  /** The order of generations: by expiration, then by issue time. */
  predicate AtMost(a: Generation, b: Generation) {
    || ExpiresLater(b.expiresAt, a.expiresAt)
    || (a.expiresAt == b.expiresAt && a.issuedAt <= b.issuedAt)
  }

  predicate Tied(a: Generation, b: Generation) {
    a.expiresAt == b.expiresAt && a.issuedAt == b.issuedAt
  }

  /** A verified capability is not yet expired as a whole. */
  lemma VerifiedIsUnexpired(t: Token, installation: string, now: int)
    requires Verifies(t, installation, now)
    ensures !Expired(GenerationOf(t), now)
    ensures t.payload.Provisioned? ==> GenerationOf(t).owner.Some? && GenerationOf(t).expiresAt.Some?
    ensures t.payload.Legacy? ==> GenerationOf(t).owner.None?
  {
  }

  /** The check accepts exactly what does not go back, and never two versions of a tie. */
  lemma MonotonicMeans(a: Generation, b: Generation)
    ensures Monotonic(a, b) <==> AtMost(a, b) && (Tied(a, b) ==> a.digest == b.digest)
  {
  }

  lemma AtMostIsOrder(a: Generation, b: Generation, c: Generation)
    ensures AtMost(a, a) && (AtMost(a, b) || AtMost(b, a))
    ensures AtMost(a, b) && AtMost(b, c) ==> AtMost(a, c)
    ensures AtMost(a, b) && AtMost(b, a) ==> Tied(a, b)
  {
  }

  /** What must hold of a token when it is accepted, on its own fields. */
  predicate Genuine(t: Token, installation: string, at: int) {
    match t.payload
    case Legacy(_, _, _, expiresAt) => t.authentic && (expiresAt.Some? ==> at < expiresAt.value)
    case Provisioned(_, _, _, home, _, _, expiresAt, provisionerExpiresAt) =>
      t.authentic && home == installation && at < provisionerExpiresAt && (expiresAt.Some? ==> at < expiresAt.value)
  }

  /** Verification accepts exactly the authentic tokens of this installation before all of
      their expirations. */
  lemma VerifiesExactlyWhenGenuine(t: Token, installation: string, now: int)
    ensures Verifies(t, installation, now) <==> Genuine(t, installation, now)
  {
  }

  /** The effective expiration of a provisioned capability is the earlier of its two, or the
      provisioner's alone; of another one, its own. */
  lemma EffectiveIsEarliest(p: Payload)
    ensures p.Legacy? ==> EffectiveExpiration(p) == p.expiresAt
    ensures p.Provisioned? ==>
              && EffectiveExpiration(p).Some? && EffectiveExpiration(p).value <= p.provisionerExpiresAt
              && (p.expiresAt.Some? ==> EffectiveExpiration(p).value <= p.expiresAt.value)
              && (EffectiveExpiration(p).value == p.provisionerExpiresAt || EffectiveExpiration(p) == p.expiresAt)
  {
  }

  /** Two provisioned capabilities have one owner exactly when installation, name and principal
      agree; version 3 always stands for a user.  Other capabilities have no owner. */
  lemma OwnersAgreeExactlyWhen(p: Payload, q: Payload)
    ensures p.Legacy? ==> OwnerOf(p).None?
    ensures p.Provisioned? && q.Provisioned? ==>
              (OwnerOf(p) == OwnerOf(q) <==>
                 && p.installation == q.installation && p.name == q.name
                 && ((p.version == 4 && p.principal == HostAdmin) <==> (q.version == 4 && q.principal == HostAdmin)))
  {
  }

  /** The login of a provisioned capability is its owner; a legacy one's is its own, if any, and
      is nobody's owner. */
  lemma LoginsAgreeExactlyWhen(p: Payload, q: Payload)
    ensures p.Provisioned? ==> LoginOf(p) == OwnerOf(p) && LoginOf(p).Some?
    ensures p.Legacy? ==> (LoginOf(p).Some? <==> p.legacyLogin.Some?)
    ensures p.Legacy? && q.Legacy? ==> (LoginOf(p) == LoginOf(q) <==> p.legacyLogin == q.legacyLogin)
    ensures p.Legacy? && q.Provisioned? ==> LoginOf(p) != LoginOf(q)
  {
  }

  /** A generation is exactly what the Relay needs to remember of the token. */
  lemma GenerationsAgreeExactlyWhen(t: Token, u: Token)
    ensures GenerationOf(t) == GenerationOf(u) <==>
              && OwnerOf(t.payload) == OwnerOf(u.payload) && EffectiveExpiration(t.payload) == EffectiveExpiration(u.payload)
              && t.payload.issuedAt == u.payload.issuedAt && t.digest == u.digest
    ensures GenerationOf(t).issuedAt == t.payload.issuedAt && GenerationOf(t).digest == t.digest
  {
  }

  /** Expired means that the time has come. */
  lemma ExpiredExactlyWhen(g: Generation, now: int)
    ensures Expired(g, now) <==> g.expiresAt.Some? && now >= g.expiresAt.value
  {
  }
}
