/**
 The receiving half of `SecureSession` as functions: what one decrypted record does to the
 fragment assembly, its two timers and the shared byte budget.
 */
module Assembly {
  import opened Options
  import opened Records

  datatype Fragments = Fragments(
    count: nat,
    nextIndex: nat,
    totalBytes: nat,
    receivedBytes: nat,
    chunks: seq<Message>,
    idle: nat,
    absolute: nat)

  /** `armed` are the timers that can still fire, `timers` the next unused timer id. */
  datatype Session = Session(fragments: Option<Fragments>, armed: set<nat>, timers: nat)

  const FRESH := Session(None, {}, 0)

  /** A budget shared by several sessions, or none. */
  datatype Budget = NoBudget | Budget(maximum: nat, reserved: nat)

  datatype Error =
    | FragmentMissing
    | InvalidHeader
    | Interleaved
    | BudgetExceeded
    | UnexpectedFragment
    | ExceedsDeclaredLength
    | LengthMismatch

  datatype Output = Pending | Delivered(message: Message) | Rejected(error: Error)

  datatype Outcome = Outcome(session: Session, budget: Budget, output: Output)

  predicate CanReserve(b: Budget, bytes: nat) {
    b.NoBudget? || (bytes > 0 && b.reserved + bytes <= b.maximum)
  }

  function Reserve(b: Budget, bytes: nat): Budget
    requires CanReserve(b, bytes)
  {
    if b.NoBudget? then b else b.(reserved := b.reserved + bytes)
  }

  function Release(b: Budget, bytes: nat): Budget {
    if b.NoBudget? then b
    else b.(reserved := if b.reserved < bytes then 0 else b.reserved - bytes)
  }

  /** What the current assembly has reserved. */
  function Declared(s: Session): nat {
    if s.fragments.Some? then s.fragments.value.totalBytes else 0
  }

  /** discardFragments */
  function Discard(s: Session): Session {
    if s.fragments.None? then s
    else Session(None, s.armed - {s.fragments.value.idle, s.fragments.value.absolute}, s.timers)
  }

  function Drop(s: Session, b: Budget, output: Output): Outcome {
    Outcome(Discard(s), if s.fragments.None? then b else Release(b, Declared(s)), output)
  }

  predicate ValidHeader(index: nat, count: nat, totalBytes: nat, limit: nat) {
    2 <= count <= MAX_FRAGMENTS && index < count && MAX_NOISE_PLAINTEXT_BYTES < totalBytes <= limit
  }

  function Begin(s: Session, count: nat, totalBytes: nat): Session {
    Session(Some(Fragments(count, 0, totalBytes, 0, [], s.timers, s.timers + 1)),
            s.armed + {s.timers, s.timers + 1}, s.timers + 2)
  }

  /** The fragment that the current assembly is waiting for. */
  function Append(s: Session, b: Budget, chunk: Message): Outcome
    requires s.fragments.Some?
  {
    var f := s.fragments.value;
    var g := f.(chunks := f.chunks + [chunk], nextIndex := f.nextIndex + 1, receivedBytes := f.receivedBytes + |chunk|);
    if g.receivedBytes > g.totalBytes then Drop(s, b, Rejected(ExceedsDeclaredLength))
    else if g.nextIndex < g.count then
      Outcome(Session(Some(g.(idle := s.timers)), s.armed - {f.idle} + {s.timers}, s.timers + 1), b, Pending)
    else if g.receivedBytes != g.totalBytes then Drop(s, b, Rejected(LengthMismatch))
    else Drop(s, b, Delivered(Concat(g.chunks)))
  }

  function AcceptFragment(s: Session, b: Budget, index: nat, count: nat, totalBytes: nat, chunk: Message, limit: nat): Outcome {
    if !ValidHeader(index, count, totalBytes, limit) then Drop(s, b, Rejected(InvalidHeader))
    else if index == 0 then
      if s.fragments.Some? then Drop(s, b, Rejected(Interleaved))
      else if !CanReserve(b, totalBytes) then Outcome(s, b, Rejected(BudgetExceeded))
      else Append(Begin(s, count, totalBytes), Reserve(b, totalBytes), chunk)
    else if s.fragments.Some? &&
            s.fragments.value.count == count &&
            s.fragments.value.totalBytes == totalBytes &&
            s.fragments.value.nextIndex == index
    then Append(s, b, chunk)
    else Drop(s, b, Rejected(UnexpectedFragment))
  }

  /** decryptMessage, once the frame has been decrypted to `plaintext`. */
  function Accept(s: Session, b: Budget, plaintext: Message, limit: nat): Outcome {
    if IsFragmentRecord(plaintext) then
      AcceptFragment(s, b, GetUint32(plaintext, 4), GetUint32(plaintext, 8), GetUint32(plaintext, 12),
                     plaintext[FRAGMENT_HEADER_BYTES..], limit)
    else if s.fragments.Some? then Drop(s, b, Rejected(FragmentMissing))
    else Outcome(s, b, Delivered(plaintext))
  }

  // ----- what every event keeps

  function Sizes(parts: seq<Message>): nat {
    if parts == [] then 0 else Sizes(parts[..|parts| - 1]) + |parts[|parts| - 1]|
  }

  /** The buffered bytes never exceed the declared ones, and the armed timers are exactly
      the idle and the absolute timer of the current assembly. */
  ghost predicate Sound(s: Session) {
    match s.fragments
    case None => s.armed == {}
    case Some(f) =>
      && s.armed == {f.idle, f.absolute} && f.idle != f.absolute && f.idle < s.timers && f.absolute < s.timers
      && f.receivedBytes == Sizes(f.chunks) <= f.totalBytes
      && f.nextIndex == |f.chunks| && 0 < f.nextIndex < f.count
      && MAX_NOISE_PLAINTEXT_BYTES < f.totalBytes
  }

  /** The step keeps the session sound and changes the budget by exactly what the
      assembly's declared size changes by. */
  ghost predicate Accounts(s: Session, b: Budget, o: Outcome) {
    && Sound(o.session)
    && match b
       case NoBudget => o.budget == b
       case Budget(maximum, reserved) =>
         && Declared(s) <= reserved
         && o.budget == Budget(maximum, reserved - Declared(s) + Declared(o.session))
         && o.budget.reserved <= maximum
  }

  lemma DropAccounts(s: Session, b: Budget, output: Output)
    requires Sound(s) && (b.Budget? ==> Declared(s) <= b.reserved <= b.maximum)
    ensures Accounts(s, b, Drop(s, b, output))
  {
  }

  /** One chunk too many, one of many, or the last one. */
  lemma AppendAccounts(s: Session, b: Budget, chunk: Message)
    requires s.fragments.Some? && (b.Budget? ==> Declared(s) <= b.reserved <= b.maximum)
    requires var f := s.fragments.value;
             && s.armed == {f.idle, f.absolute} && f.idle != f.absolute && f.idle < s.timers && f.absolute < s.timers
             && f.receivedBytes == Sizes(f.chunks)
             && f.nextIndex == |f.chunks| && MAX_NOISE_PLAINTEXT_BYTES < f.totalBytes
    ensures Accounts(s, b, Append(s, b, chunk))
  {
  }

  /** Any record, at any moment. */
  lemma AcceptIsSound(s: Session, b: Budget, plaintext: Message, limit: nat)
    requires Sound(s) && (b.Budget? ==> Declared(s) <= b.reserved <= b.maximum)
    ensures Accounts(s, b, Accept(s, b, plaintext, limit))
  {
    if IsFragmentRecord(plaintext) {
      FragmentIsSound(s, b, GetUint32(plaintext, 4), GetUint32(plaintext, 8), GetUint32(plaintext, 12),
                      plaintext[FRAGMENT_HEADER_BYTES..], limit);
    } else {
      DropAccounts(s, b, Rejected(FragmentMissing));
    }
  }

  /** A first fragment: the session had declared nothing, and now declares the message. */
  lemma OpeningAccounts(s: Session, b: Budget, count: nat, totalBytes: nat, chunk: Message)
    requires Sound(s) && s.fragments.None? && CanReserve(b, totalBytes) && MAX_NOISE_PLAINTEXT_BYTES < totalBytes
    ensures Accounts(s, b, Append(Begin(s, count, totalBytes), Reserve(b, totalBytes), chunk))
  {
    var begun, held := Begin(s, count, totalBytes), Reserve(b, totalBytes);
    assert Declared(s) == 0 && Declared(begun) == totalBytes;
    AppendAccounts(begun, held, chunk);
  }

  lemma FirstFragmentIsSound(s: Session, b: Budget, count: nat, totalBytes: nat, chunk: Message, limit: nat)
    requires Sound(s) && (b.Budget? ==> Declared(s) <= b.reserved <= b.maximum)
    requires ValidHeader(0, count, totalBytes, limit)
    ensures Accounts(s, b, AcceptFragment(s, b, 0, count, totalBytes, chunk, limit))
  {
    if s.fragments.Some? { DropAccounts(s, b, Rejected(Interleaved)); }
    else if CanReserve(b, totalBytes) { OpeningAccounts(s, b, count, totalBytes, chunk); }
  }

  lemma LaterFragmentIsSound(s: Session, b: Budget, index: nat, count: nat, totalBytes: nat, chunk: Message, limit: nat)
    requires Sound(s) && (b.Budget? ==> Declared(s) <= b.reserved <= b.maximum)
    requires index > 0 && ValidHeader(index, count, totalBytes, limit)
    ensures Accounts(s, b, AcceptFragment(s, b, index, count, totalBytes, chunk, limit))
  {
    DropAccounts(s, b, Rejected(UnexpectedFragment));
    if s.fragments.Some? { AppendAccounts(s, b, chunk); }
  }

  lemma FragmentIsSound(s: Session, b: Budget, index: nat, count: nat, totalBytes: nat, chunk: Message, limit: nat)
    requires Sound(s) && (b.Budget? ==> Declared(s) <= b.reserved <= b.maximum)
    ensures Accounts(s, b, AcceptFragment(s, b, index, count, totalBytes, chunk, limit))
  {
    if !ValidHeader(index, count, totalBytes, limit) {
      DropAccounts(s, b, Rejected(InvalidHeader));
    } else if index == 0 {
      FirstFragmentIsSound(s, b, count, totalBytes, chunk, limit);
    } else {
      LaterFragmentIsSound(s, b, index, count, totalBytes, chunk, limit);
    }
  }

  // ----- the receive limit

  /** No assembly has declared more than the limit. */
  ghost predicate Within(s: Session, limit: nat) {
    s.fragments.Some? ==> s.fragments.value.totalBytes <= limit
  }

  /** The fields of a fragment record, as they stand in its header. */
  predicate Malformed(plaintext: Message, limit: nat)
    requires IsFragmentRecord(plaintext)
  {
    var index, count, totalBytes := GetUint32(plaintext, 4), GetUint32(plaintext, 8), GetUint32(plaintext, 12);
    count < 2 || count > 513 || index >= count || totalBytes <= 65519 || totalBytes > limit
  }

  /** A malformed or oversized record is rejected and leaves no assembly, timer or reservation;
      a well-formed one is never rejected for its header. */
  lemma MalformedExactlyWhenRejected(s: Session, b: Budget, plaintext: Message, limit: nat)
    requires Sound(s) && IsFragmentRecord(plaintext)
    ensures var o := Accept(s, b, plaintext, limit);
            && (o.output == Rejected(InvalidHeader) <==> Malformed(plaintext, limit))
            && (Malformed(plaintext, limit) ==>
                  o.session.fragments.None? && o.session.armed == {} && o.budget == Release(b, Declared(s)))
  {
    assert MAX_FRAGMENTS == 513;
  }

  /** A fragment of the current assembly that comes next, or the first of a new one. */
  predicate Continues(s: Session, index: nat, count: nat, totalBytes: nat) {
    if index == 0 then s.fragments.None?
    else s.fragments.Some? && s.fragments.value.count == count && s.fragments.value.totalBytes == totalBytes && s.fragments.value.nextIndex == index
  }

  /** What becomes of a well-formed record, by its place, the budget and the bytes received. */
  lemma AnswersByPlace(s: Session, b: Budget, plaintext: Message, limit: nat)
    requires Sound(s) && IsFragmentRecord(plaintext) && !Malformed(plaintext, limit)
    ensures var o := Accept(s, b, plaintext, limit);
            var index, count, totalBytes := GetUint32(plaintext, 4), GetUint32(plaintext, 8), GetUint32(plaintext, 12);
            var received := (if index == 0 || s.fragments.None? then 0 else s.fragments.value.receivedBytes) + |plaintext| - 16;
            var refused := index == 0 && b.Budget? && b.reserved + totalBytes > b.maximum;
            if !Continues(s, index, count, totalBytes)
            then o.output == Rejected(if index == 0 then Interleaved else UnexpectedFragment)
            else if refused then o.output == Rejected(BudgetExceeded) && o.budget == b
            else if received > totalBytes then o.output == Rejected(ExceedsDeclaredLength)
            else if index + 1 < count then o.output == Pending
            else if received < totalBytes then o.output == Rejected(LengthMismatch)
            else o.output == Delivered(Concat((if index == 0 then [] else s.fragments.value.chunks) + [plaintext[16..]]))
  {
    assert MAX_FRAGMENTS == 513;
  }

  /** A whole message is delivered, unless an assembly is waiting for a fragment; every rejection
      leaves no assembly and no timer, and gives back exactly what was reserved. */
  lemma RejectionLeavesNothing(s: Session, b: Budget, plaintext: Message, limit: nat)
    requires Sound(s)
    ensures var o := Accept(s, b, plaintext, limit);
            && (!IsFragmentRecord(plaintext) ==> o.output == if s.fragments.Some? then Rejected(FragmentMissing) else Delivered(plaintext))
            && (o.output.Rejected? ==> o.session.fragments.None? && o.session.armed == {} && o.budget == Release(b, Declared(s)))
  {
  }

  /** What a fragment record makes of the assembly, and what it delivers, is within the limit. */
  lemma AcceptStaysWithin(s: Session, b: Budget, plaintext: Message, limit: nat)
    requires Sound(s) && Within(s, limit)
    ensures var o := Accept(s, b, plaintext, limit);
            && Within(o.session, limit)
            && (o.output.Delivered? && IsFragmentRecord(plaintext) ==> |o.output.message| <= limit)
            && (o.output.Delivered? && !IsFragmentRecord(plaintext) ==> o.output.message == plaintext)
  {
    if IsFragmentRecord(plaintext) {
      FragmentStaysWithin(s, b, GetUint32(plaintext, 4), GetUint32(plaintext, 8), GetUint32(plaintext, 12),
                          plaintext[FRAGMENT_HEADER_BYTES..], limit);
    }
  }

  lemma {:induction false} SizesAddUp(parts: seq<Message>)
    ensures |Concat(parts)| == Sizes(parts)
  {
    if parts != [] { SizesAddUp(parts[..|parts| - 1]); }
  }

  lemma AppendStaysWithin(s: Session, b: Budget, chunk: Message, limit: nat)
    requires s.fragments.Some? && Within(s, limit) && s.fragments.value.receivedBytes == Sizes(s.fragments.value.chunks)
    ensures var o := Append(s, b, chunk);
            Within(o.session, limit) && (o.output.Delivered? ==> |o.output.message| == s.fragments.value.totalBytes)
  {
    var f := s.fragments.value;
    SizesAddUp(f.chunks + [chunk]);
    assert (f.chunks + [chunk])[..|f.chunks|] == f.chunks;
  }

  lemma FragmentStaysWithin(s: Session, b: Budget, index: nat, count: nat, totalBytes: nat, chunk: Message, limit: nat)
    requires Sound(s) && Within(s, limit)
    ensures var o := AcceptFragment(s, b, index, count, totalBytes, chunk, limit);
            Within(o.session, limit) && (o.output.Delivered? ==> |o.output.message| <= limit)
  {
    if ValidHeader(index, count, totalBytes, limit) {
      if index == 0 && CanReserve(b, totalBytes) {
        AppendStaysWithin(Begin(s, count, totalBytes), Reserve(b, totalBytes), chunk, limit);
      } else if s.fragments.Some? { AppendStaysWithin(s, b, chunk, limit); }
    }
  }

  // ----- any number of sessions sharing one budget

  datatype Pool = Pool(sessions: seq<Session>, budget: Budget)

  datatype PoolEvent =
    | Receive(id: nat, plaintext: Message, limit: nat)
    | Fire(id: nat, timer: nat)
    | Dispose(id: nat)
    | Open

  /** Timers fire only while armed; events for sessions that do not exist do nothing. */
  function PoolStep(p: Pool, e: PoolEvent): Pool {
    match e
    case Open => p.(sessions := p.sessions + [FRESH])
    case Receive(i, plaintext, limit) =>
      if i < |p.sessions| then
        var o := Accept(p.sessions[i], p.budget, plaintext, limit);
        Pool(p.sessions[i := o.session], o.budget)
      else p
    case Fire(i, timer) =>
      if i < |p.sessions| && timer in p.sessions[i].armed then DropOne(p, i) else p
    case Dispose(i) => if i < |p.sessions| then DropOne(p, i) else p
  }

  function DropOne(p: Pool, i: nat): Pool
    requires i < |p.sessions|
  {
    var o := Drop(p.sessions[i], p.budget, Pending);
    Pool(p.sessions[i := o.session], o.budget)
  }

  function PoolRun(p: Pool, es: seq<PoolEvent>): Pool
    decreases |es|
  {
    if es == [] then p else PoolRun(PoolStep(p, es[0]), es[1..])
  }

  function Reserved(sessions: seq<Session>): nat {
    if sessions == [] then 0
    else Reserved(sessions[..|sessions| - 1]) + Declared(sessions[|sessions| - 1])
  }

  ghost predicate PoolInv(p: Pool) {
    && (forall i :: 0 <= i < |p.sessions| ==> Sound(p.sessions[i]))
    && p.budget.Budget?
    && p.budget.reserved == Reserved(p.sessions) <= p.budget.maximum
  }

  lemma {:induction false} ReservedUpdate(sessions: seq<Session>, i: nat, s: Session)
    requires i < |sessions|
    ensures Declared(sessions[i]) <= Reserved(sessions)
    ensures Reserved(sessions[i := s]) == Reserved(sessions) - Declared(sessions[i]) + Declared(s)
  {
    var n := |sessions| - 1;
    if i == n {
      assert sessions[i := s][..n] == sessions[..n];
    } else {
      ReservedUpdate(sessions[..n], i, s);
      assert sessions[i := s][..n] == sessions[..n][i := s];
    }
  }

  lemma SessionUpdate(p: Pool, i: nat, o: Outcome)
    requires PoolInv(p) && i < |p.sessions| && Accounts(p.sessions[i], p.budget, o)
    ensures PoolInv(Pool(p.sessions[i := o.session], o.budget)) && o.budget.maximum == p.budget.maximum
  {
    ReservedUpdate(p.sessions, i, o.session);
  }

  lemma PoolStepKeepsInv(p: Pool, e: PoolEvent)
    requires PoolInv(p)
    ensures PoolInv(PoolStep(p, e)) && PoolStep(p, e).budget.maximum == p.budget.maximum
  {
    if e.Open? {
      assert (p.sessions + [FRESH])[..|p.sessions|] == p.sessions;
    } else if e.id < |p.sessions| {
      var s := p.sessions[e.id];
      ReservedUpdate(p.sessions, e.id, s);
      if e.Receive? {
        AcceptIsSound(s, p.budget, e.plaintext, e.limit);
        SessionUpdate(p, e.id, Accept(s, p.budget, e.plaintext, e.limit));
      } else {
        DropAccounts(s, p.budget, Pending);
        SessionUpdate(p, e.id, Drop(s, p.budget, Pending));
      }
    }
  }

  /** However the records, timers and disposals of any number of sessions interleave, the
      budget holds exactly the declared sizes of the live assemblies and never more than
      its maximum, and every session's buffer and timers are sound. */
  lemma {:induction false} BudgetIsExact(p: Pool, es: seq<PoolEvent>)
    requires PoolInv(p)
    ensures PoolInv(PoolRun(p, es)) && PoolRun(p, es).budget.maximum == p.budget.maximum
    decreases |es|
  {
    if es != [] {
      PoolStepKeepsInv(p, es[0]);
      BudgetIsExact(PoolStep(p, es[0]), es[1..]);
    }
  }

  /** A record meets its own session with what the others have left of the budget, and an armed
      timer gives back what its session had declared; a timer that is not armed does nothing. */
  lemma EventMeetsItsSession(p: Pool, i: nat, plaintext: Message, limit: nat, timer: nat)
    requires PoolInv(p) && i < |p.sessions|
    ensures var q := PoolStep(p, Receive(i, plaintext, limit));
            var o := Accept(p.sessions[i], p.budget, plaintext, limit);
            q.sessions == p.sessions[i := o.session] && q.budget == o.budget
    ensures var q := PoolStep(p, Fire(i, timer));
            if timer in p.sessions[i].armed
            then && q.sessions == p.sessions[i := q.sessions[i]] && q.sessions[i].fragments.None? && q.sessions[i].armed == {}
                 && q.budget.reserved == p.budget.reserved - Declared(p.sessions[i])
            else q == p
    ensures PoolStep(p, Open).sessions == p.sessions + [FRESH] && PoolStep(p, Open).budget == p.budget
  {
    ReservedUpdate(p.sessions, i, p.sessions[i]);
  }

  function Disposals(i: nat, n: nat): seq<PoolEvent>
    requires i <= n
    decreases n - i
  {
    if i == n then [] else [Dispose(i)] + Disposals(i + 1, n)
  }

  lemma {:induction false} IdleReservesNothing(sessions: seq<Session>)
    requires forall k :: 0 <= k < |sessions| ==> sessions[k].fragments.None?
    ensures Reserved(sessions) == 0
  {
    if sessions != [] { IdleReservesNothing(sessions[..|sessions| - 1]); }
  }

  lemma DisposeDrops(p: Pool, i: nat)
    requires i < |p.sessions|
    ensures var q := PoolStep(p, Dispose(i));
            q.sessions == p.sessions[i := q.sessions[i]] && q.sessions[i].fragments.None?
  {
  }

  /** Once every session is disposed of, whatever happened before, nothing is reserved. */
  lemma {:induction false} DisposalFreesEverything(p: Pool, i: nat)
    requires PoolInv(p) && i <= |p.sessions| && forall k :: 0 <= k < i ==> p.sessions[k].fragments.None?
    ensures var q := PoolRun(p, Disposals(i, |p.sessions|));
            && q.budget == p.budget.(reserved := 0) && |q.sessions| == |p.sessions|
            && forall k :: 0 <= k < |q.sessions| ==> q.sessions[k].fragments.None?
    decreases |p.sessions| - i
  {
    if i == |p.sessions| {
      IdleReservesNothing(p.sessions);
    } else {
      var q, rest := PoolStep(p, Dispose(i)), Disposals(i + 1, |p.sessions|);
      DisposeDrops(p, i);
      PoolStepKeepsInv(p, Dispose(i));
      DisposalFreesEverything(q, i + 1);
      assert ([Dispose(i)] + rest)[1..] == rest && ([Dispose(i)] + rest)[0] == Dispose(i);
      assert PoolRun(p, Disposals(i, |p.sessions|)) == PoolRun(q, rest);
    }
  }
}
