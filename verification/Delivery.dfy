/**
 One direction of a secure session: a sender's records under an ideal cipher, a network
 that drops, repeats, reorders and forges, and the receiver's assembly.
 */
module Delivery {
  import opened Options
  import opened Records
  import opened Assembly
  import opened Streams

  /** An ideal AEAD: a ciphertext is authentic only for the key, nonce and associated data
      it was made with, and nobody without the key can make one. */
  datatype Ciphertext =
    | Sealed(key: nat, nonce: nat, sessionId: string, sequence: nat, plaintext: Message)
    | Junk

  datatype Frame = Frame(sessionId: string, sequence: nat, ciphertext: Ciphertext)

  function Unseal(key: nat, nonce: nat, sessionId: string, sequence: nat, c: Ciphertext): Option<Message> {
    if c.Sealed? && c.key == key && c.nonce == nonce && c.sessionId == sessionId && c.sequence == sequence
    then Some(c.plaintext) else None
  }

  /** The records of each message sent so far. */
  function Pieces(sent: seq<Message>): seq<seq<Message>> {
    seq(|sent|, i requires 0 <= i < |sent| => Split(sent[i]))
  }

  /** Everything the sender has encrypted, in order. */
  function Plaintexts(l: Link): seq<Message> { FlattenAll(Pieces(l.sent)) }

  /** What the sender has encrypted as its `i`-th frame. */
  function Sent(l: Link, i: nat): Ciphertext
    requires i < |Plaintexts(l)|
  {
    Sealed(l.key, i, l.sessionId, i, Plaintexts(l)[i])
  }

  /** `sent` are the messages given to encryptMessage, `received` what decryptMessage
      returned; the receive nonce equals the receive sequence. */
  datatype Link = Link(
    key: nat,
    sessionId: string,
    limit: nat,
    sent: seq<Message>,
    session: Session,
    receiveSequence: nat,
    received: seq<Message>)

  datatype Event =
    | Send(message: Message)
    | Arrive(frame: Frame, budget: Budget)   // the budget as other sessions leave it
    | Timeout(timer: nat)
    | Dispose

  /** The network can present any frame, but an authentic ciphertext only if the sender made it. */
  ghost predicate Possible(l: Link, e: Event) {
    e.Arrive? && e.frame.ciphertext.Sealed? && e.frame.ciphertext.key == l.key ==>
      exists i: nat :: i < |Plaintexts(l)| && e.frame.ciphertext == Sent(l, i)
  }

  /** `received` once the receiver has produced `output`. */
  function With(received: seq<Message>, output: Output): seq<Message> {
    if output.Delivered? then received + [output.message] else received
  }

  /** decryptMessage on the plaintext of an accepted frame. */
  function Take(l: Link, plaintext: Message, b: Budget): Link {
    var o := Accept(l.session, b, plaintext, l.limit);
    l.(session := o.session,
       receiveSequence := l.receiveSequence + 1,
       received := With(l.received, o.output))
  }

  /** decrypt then decryptMessage: a refused frame changes nothing, not even the nonce. */
  function Deliver(l: Link, f: Frame, b: Budget): Link {
    if f.sessionId != l.sessionId || f.sequence != l.receiveSequence then l
    else
      match Unseal(l.key, l.receiveSequence, l.sessionId, f.sequence, f.ciphertext)
      case None => l
      case Some(plaintext) => Take(l, plaintext, b)
  }

  function Step(l: Link, e: Event): Link {
    match e
    case Send(m) => if |m| <= MAX_SECURE_MESSAGE_BYTES then l.(sent := l.sent + [m]) else l
    case Arrive(f, b) => Deliver(l, f, b)
    case Timeout(t) => if t in l.session.armed then l.(session := Discard(l.session)) else l
    case Dispose => l.(session := Discard(l.session))
  }

  function Run(l: Link, es: seq<Event>): Link
    decreases |es|
  {
    if es == [] then l else Run(Step(l, es[0]), es[1..])
  }

  /** Every arrival of the run is possible when it happens, and no short message looks like
      a fragment. */
  ghost predicate Fair(l: Link, es: seq<Event>)
    decreases |es|
  {
    es != [] ==>
      && Possible(l, es[0])
      && (es[0].Send? ==> !LooksLikeFragment(es[0].message))
      && Fair(Step(l, es[0]), es[1..])
  }

  function Start(key: nat, sessionId: string, limit: nat): Link {
    Link(key, sessionId, limit, [], FRESH, 0, [])
  }

  // ----- in-order delivery

  /** The session's assembly holds exactly the first `j` chunks of `m`. */
  ghost predicate Holds(s: Session, m: Message, j: nat) {
    s.fragments.Some? ==>
      var f := s.fragments.value;
      && |m| > MAX_NOISE_PLAINTEXT_BYTES && 0 < j < FragmentCount(|m|)
      && f.count == FragmentCount(|m|) && f.nextIndex == j && f.totalBytes == |m|
      && f.receivedBytes == Offset(|m|, j) && f.chunks == Chunks(m, j)
  }

  /** Messages that encryptMessage accepts and decryptMessage cannot mistake. */
  ghost predicate Clean(sent: seq<Message>) {
    forall m :: m in sent ==> |m| <= MAX_SECURE_MESSAGE_BYTES && !LooksLikeFragment(m)
  }

  /** The receiver has taken the records of `sent[..k]` and the first `j` of `sent[k]`. */
  ghost predicate InStep(sent: seq<Message>, s: Session, taken: nat, received: seq<Message>, k: nat, j: nat) {
    && Clean(sent)
    && Position(Pieces(sent), taken, k, j)
    && SubsequenceOf(received, sent, k)
    && (s.fragments.Some? ==> k < |sent| && Holds(s, sent[k], j))
  }

  ghost predicate Aligned(l: Link, k: nat, j: nat) {
    InStep(l.sent, l.session, l.receiveSequence, l.received, k, j)
  }

  lemma SplitSize(m: Message)
    requires |m| <= MAX_SECURE_MESSAGE_BYTES
    ensures |Split(m)| == (if |m| <= MAX_NOISE_PLAINTEXT_BYTES then 1 else FragmentCount(|m|)) >= 1
  {
  }

  lemma PiecesAreNonempty(sent: seq<Message>)
    requires Clean(sent)
    ensures forall i :: 0 <= i < |sent| ==> |Pieces(sent)[i]| > 0
  {
  }

  /** A chunk appended to an assembly that waits for it. */
  lemma NextChunk(s: Session, b: Budget, m: Message, j: nat)
    requires MAX_NOISE_PLAINTEXT_BYTES < |m| && j < FragmentCount(|m|)
    requires s.fragments.Some?
    requires var f := s.fragments.value;
             && f.count == FragmentCount(|m|) && f.nextIndex == j && f.totalBytes == |m|
             && f.receivedBytes == Offset(|m|, j) && f.chunks == Chunks(m, j)
    ensures var o := Append(s, b, Chunk(m, j));
            if j + 1 < FragmentCount(|m|) then Holds(o.session, m, j + 1) && o.session.fragments.Some? && o.output == Pending && o.budget == b
            else o.session.fragments.None? && o.output == Delivered(m) && o.budget == Release(b, |m|)
  {
    CountCovers(|m|);
    assert Chunks(m, j) + [Chunk(m, j)] == Chunks(m, j + 1);
    assert Offset(|m|, j) + |Chunk(m, j)| == Offset(|m|, j + 1) <= |m|;
    ChunksRejoin(m);
  }

  /** The next fragment of a long message, taken by a session that holds `j` of its chunks. */
  lemma NextFragment(s: Session, b: Budget, m: Message, j: nat, limit: nat)
    requires MAX_NOISE_PLAINTEXT_BYTES < |m| && j < FragmentCount(|m|)
    requires Holds(s, m, j)
    ensures var o := AcceptFragment(s, b, j, FragmentCount(|m|), |m|, Chunk(m, j), limit);
            if j + 1 < FragmentCount(|m|) then Holds(o.session, m, j + 1) && !o.output.Delivered?
            else o.session.fragments.None? && (o.output.Delivered? ==> o.output.message == m)
  {
    if j == 0 && CanReserve(b, |m|) {
      assert Chunks(m, 0) == [];
      NextChunk(Begin(s, FragmentCount(|m|), |m|), Reserve(b, |m|), m, 0);
    } else if s.fragments.Some? {
      NextChunk(s, b, m, j);
    }
  }

  lemma NextRecord(s: Session, b: Budget, m: Message, j: nat, limit: nat)
    requires |m| <= MAX_SECURE_MESSAGE_BYTES && !LooksLikeFragment(m)
    requires j < |Split(m)| && Holds(s, m, j)
    ensures var o := Accept(s, b, Split(m)[j], limit);
            if j + 1 < |Split(m)| then Holds(o.session, m, j + 1) && !o.output.Delivered?
            else o.session.fragments.None? && (o.output.Delivered? ==> o.output.message == m)
  {
    SplitSize(m);
    if |m| > MAX_NOISE_PLAINTEXT_BYTES {
      RecordReadsBack(m, j);
      NextFragment(s, b, m, j, limit);
    }
  }

  /** A frame that changes anything carries the next record the sender made. */
  lemma OnlyTheNextFrameOpens(l: Link, f: Frame, b: Budget)
    requires Possible(l, Arrive(f, b)) && Deliver(l, f, b) != l
    ensures l.receiveSequence < |Plaintexts(l)|
    ensures Deliver(l, f, b) == Take(l, Plaintexts(l)[l.receiveSequence], b)
  {
  }

  lemma InPiece(sent: seq<Message>, taken: nat, k: nat, j: nat)
    requires Position(Pieces(sent), taken, k, j) && k < |sent|
    ensures j < |Split(sent[k])|
  {
  }

  lemma NextPiece(sent: seq<Message>, taken: nat, k: nat, j: nat)
    requires Clean(sent) && Position(Pieces(sent), taken, k, j) && k < |sent|
    ensures j < |Split(sent[k])|
    ensures if j + 1 < |Split(sent[k])| then Position(Pieces(sent), taken + 1, k, j + 1)
            else Position(Pieces(sent), taken + 1, k + 1, 0)
  {
    PiecesAreNonempty(sent);
    assert Pieces(sent)[k] == Split(sent[k]);
    NextPosition(Pieces(sent), taken, k, j);
  }

  lemma MorePieces(sent: seq<Message>, m: Message, taken: nat, k: nat, j: nat)
    requires Position(Pieces(sent), taken, k, j) && |m| <= MAX_SECURE_MESSAGE_BYTES
    ensures Position(Pieces(sent + [m]), taken, k, j)
  {
    SplitSize(m);
    assert Pieces(sent + [m]) == Pieces(sent) + [Split(m)];
    FlattenMore(Pieces(sent), Split(m), k);
  }

  /** The last record of message `k` was taken: its message is delivered or given up. */
  lemma LastTaken(sent: seq<Message>, s: Session, taken: nat, received: seq<Message>, k: nat, output: Output)
    requires Clean(sent) && k < |sent| && SubsequenceOf(received, sent, k) && Position(Pieces(sent), taken, k + 1, 0)
    requires s.fragments.None? && (output.Delivered? ==> output.message == sent[k])
    ensures InStep(sent, s, taken, With(received, output), k + 1, 0)
  {
  }

  lemma MiddleTaken(sent: seq<Message>, s: Session, taken: nat, received: seq<Message>, k: nat, j: nat)
    requires Clean(sent) && k < |sent| && SubsequenceOf(received, sent, k) && Position(Pieces(sent), taken, k, j)
    requires Holds(s, sent[k], j)
    ensures InStep(sent, s, taken, received, k, j)
  {
  }

  lemma TakeMiddle(sent: seq<Message>, s: Session, taken: nat, received: seq<Message>, k: nat, j: nat, b: Budget, limit: nat)
    requires InStep(sent, s, taken, received, k, j) && k < |sent| && j + 1 < |Split(sent[k])|
    ensures var o := Accept(s, b, Split(sent[k])[j], limit);
            InStep(sent, o.session, taken + 1, With(received, o.output), k, j + 1)
  {
    NextPiece(sent, taken, k, j);
    assert |sent[k]| <= MAX_SECURE_MESSAGE_BYTES && !LooksLikeFragment(sent[k]);
    NextRecord(s, b, sent[k], j, limit);
    MiddleTaken(sent, Accept(s, b, Split(sent[k])[j], limit).session, taken + 1, received, k, j + 1);
  }

  lemma TakeLast(sent: seq<Message>, s: Session, taken: nat, received: seq<Message>, k: nat, j: nat, b: Budget, limit: nat)
    requires InStep(sent, s, taken, received, k, j) && k < |sent| && j + 1 == |Split(sent[k])|
    ensures var o := Accept(s, b, Split(sent[k])[j], limit);
            InStep(sent, o.session, taken + 1, With(received, o.output), k + 1, 0)
  {
    NextPiece(sent, taken, k, j);
    assert |sent[k]| <= MAX_SECURE_MESSAGE_BYTES && !LooksLikeFragment(sent[k]);
    NextRecord(s, b, sent[k], j, limit);
    var o := Accept(s, b, Split(sent[k])[j], limit);
    LastTaken(sent, o.session, taken + 1, received, k, o.output);
  }

  lemma SendKeepsAlignment(l: Link, m: Message, k: nat, j: nat)
    requires Aligned(l, k, j) && |m| <= MAX_SECURE_MESSAGE_BYTES && !LooksLikeFragment(m)
    ensures Aligned(l.(sent := l.sent + [m]), k, j)
  {
    MorePieces(l.sent, m, l.receiveSequence, k, j);
    SubsequenceOfMore(l.received, l.sent, m, k);
  }

  /** The frame that opens is record `j` of message `k`. */
  lemma OpenedRecord(l: Link, f: Frame, b: Budget, k: nat, j: nat)
    requires Aligned(l, k, j) && Possible(l, Arrive(f, b)) && Deliver(l, f, b) != l
    ensures k < |l.sent| && j < |Split(l.sent[k])| && Deliver(l, f, b) == Take(l, Split(l.sent[k])[j], b)
  {
    OnlyTheNextFrameOpens(l, f, b);
    ElementAt(Pieces(l.sent), l.receiveSequence, k, j);
    InPiece(l.sent, l.receiveSequence, k, j);
  }

  lemma MiddleArrives(l: Link, f: Frame, b: Budget, k: nat, j: nat)
    requires Aligned(l, k, j) && Possible(l, Arrive(f, b)) && Deliver(l, f, b) != l
    requires k < |l.sent| && j + 1 < |Split(l.sent[k])|
    ensures Aligned(Deliver(l, f, b), k, j + 1)
  {
    OpenedRecord(l, f, b, k, j);
    TakeMiddle(l.sent, l.session, l.receiveSequence, l.received, k, j, b, l.limit);
  }

  lemma LastArrives(l: Link, f: Frame, b: Budget, k: nat, j: nat)
    requires Aligned(l, k, j) && Possible(l, Arrive(f, b)) && Deliver(l, f, b) != l
    requires k < |l.sent| && j + 1 == |Split(l.sent[k])|
    ensures Aligned(Deliver(l, f, b), k + 1, 0)
  {
    OpenedRecord(l, f, b, k, j);
    TakeLast(l.sent, l.session, l.receiveSequence, l.received, k, j, b, l.limit);
  }

  ghost predicate OnCourse(l: Link) { exists k: nat, j: nat :: Aligned(l, k, j) }

  lemma ArrivalStaysOnCourse(l: Link, f: Frame, b: Budget)
    requires OnCourse(l) && Possible(l, Arrive(f, b))
    ensures OnCourse(Deliver(l, f, b))
  {
    if Deliver(l, f, b) != l {
      var k: nat, j: nat :| Aligned(l, k, j);
      OpenedRecord(l, f, b, k, j);
      if j + 1 < |Split(l.sent[k])| { MiddleArrives(l, f, b, k, j); } else { LastArrives(l, f, b, k, j); }
    }
  }

  lemma StepStaysOnCourse(l: Link, e: Event)
    requires OnCourse(l) && Possible(l, e)
    requires e.Send? ==> !LooksLikeFragment(e.message)
    ensures OnCourse(Step(l, e))
  {
    var k: nat, j: nat :| Aligned(l, k, j);
    match e
    case Send(m) => if |m| <= MAX_SECURE_MESSAGE_BYTES { SendKeepsAlignment(l, m, k, j); }
    case Arrive(f, b) => ArrivalStaysOnCourse(l, f, b);
    case Timeout(_) => assert Aligned(Step(l, e), k, j);
    case Dispose => assert Aligned(Step(l, e), k, j);
  }

  lemma {:induction false} RunStaysOnCourse(l: Link, es: seq<Event>)
    requires OnCourse(l) && Fair(l, es)
    ensures OnCourse(Run(l, es))
    decreases |es|
  {
    if es != [] {
      StepStaysOnCourse(l, es[0]);
      RunStaysOnCourse(Step(l, es[0]), es[1..]);
    }
  }

  /** For every schedule of dropped, duplicated, reordered, altered or foreign frames, timer
      firings and budget refusals: what is received is an unaltered, in-order subsequence
      of what was sent. */
  lemma InOrderDelivery(key: nat, sessionId: string, limit: nat, es: seq<Event>)
    requires Fair(Start(key, sessionId, limit), es)
    ensures var l := Run(Start(key, sessionId, limit), es); Subsequence(l.received, l.sent)
  {
    assert Aligned(Start(key, sessionId, limit), 0, 0);
    RunStaysOnCourse(Start(key, sessionId, limit), es);
    var l := Run(Start(key, sessionId, limit), es);
    var k: nat, j: nat :| Aligned(l, k, j);
    PrefixSubsequence(l.received, l.sent, k);
  }

  // ----- the receive limit

  /** The session is sound and within its limit, and nothing longer than a record or the limit
      has been received. */
  ghost predicate Limited(l: Link) {
    && Sound(l.session) && Within(l.session, l.limit)
    && forall i :: 0 <= i < |l.received| ==>
         |l.received[i]| <= l.limit || |l.received[i]| <= MAX_NOISE_PLAINTEXT_BYTES
  }

  /** An accepted frame's plaintext is short: the sender makes no other. */
  ghost predicate ShortFrames(es: seq<Event>) {
    forall i :: 0 <= i < |es| && es[i].Arrive? && es[i].frame.ciphertext.Sealed? ==>
      |es[i].frame.ciphertext.plaintext| <= MAX_NOISE_PLAINTEXT_BYTES
  }

  lemma TakeStaysLimited(l: Link, plaintext: Message, b: Budget)
    requires Limited(l) && |plaintext| <= MAX_NOISE_PLAINTEXT_BYTES
    ensures Limited(Take(l, plaintext, b))
  {
    AcceptStaysSound(l.session, b, plaintext, l.limit);
    AcceptStaysWithin(l.session, b, plaintext, l.limit);
  }

  lemma StepStaysLimited(l: Link, e: Event)
    requires Limited(l)
    requires e.Arrive? && e.frame.ciphertext.Sealed? ==> |e.frame.ciphertext.plaintext| <= MAX_NOISE_PLAINTEXT_BYTES
    ensures Limited(Step(l, e)) && Step(l, e).limit == l.limit
  {
    if e.Arrive? && Deliver(l, e.frame, e.budget) != l {
      TakeStaysLimited(l, e.frame.ciphertext.plaintext, e.budget);
    }
  }

  /** Whatever arrives, the declared size never exceeds the session's limit, and no message
      longer than the limit is put together from fragments. */
  lemma {:induction false} RunStaysLimited(l: Link, es: seq<Event>)
    requires Limited(l) && ShortFrames(es)
    ensures Limited(Run(l, es)) && Run(l, es).limit == l.limit
    decreases |es|
  {
    if es != [] {
      StepStaysLimited(l, es[0]);
      RunStaysLimited(Step(l, es[0]), es[1..]);
    }
  }

  // ----- the round trip

  datatype Received = Received(session: Session, budget: Budget, messages: seq<Message>)

  /** Decrypted plaintexts fed to decryptMessage in order; errors do not stop the feed. */
  function ReceiveAll(s: Session, b: Budget, plaintexts: seq<Message>, limit: nat): Received
    decreases |plaintexts|
  {
    if plaintexts == [] then Received(s, b, [])
    else
      var o := Accept(s, b, plaintexts[0], limit);
      var rest := ReceiveAll(o.session, o.budget, plaintexts[1..], limit);
      rest.(messages := (if o.output.Delivered? then [o.output.message] else []) + rest.messages)
  }

  lemma {:induction false} ReceiveAppend(s: Session, b: Budget, ps: seq<Message>, qs: seq<Message>, limit: nat)
    ensures var first := ReceiveAll(s, b, ps, limit);
            var second := ReceiveAll(first.session, first.budget, qs, limit);
            ReceiveAll(s, b, ps + qs, limit) == second.(messages := first.messages + second.messages)
    decreases |ps|
  {
    if ps == [] {
      assert ps + qs == qs;
    } else {
      var o := Accept(s, b, ps[0], limit);
      assert (ps + qs)[0] == ps[0] && (ps + qs)[1..] == ps[1..] + qs;
      ReceiveAppend(o.session, o.budget, ps[1..], qs, limit);
    }
  }

  /** With room for it, fragment `j` is taken, and the last one delivers the message. */
  lemma FragmentIsTaken(s: Session, b: Budget, m: Message, j: nat, limit: nat)
    requires MAX_NOISE_PLAINTEXT_BYTES < |m| <= MAX_SECURE_MESSAGE_BYTES && |m| <= limit && j < FragmentCount(|m|)
    requires Sound(s) && Holds(s, m, j)
    requires if j == 0 then CanReserve(b, |m|) else s.fragments.Some?
    ensures var o := AcceptFragment(s, b, j, FragmentCount(|m|), |m|, Chunk(m, j), limit);
            var held := if j == 0 then Reserve(b, |m|) else b;
            if j + 1 < FragmentCount(|m|) then
              o.session.fragments.Some? && o.output == Pending && o.budget == held
            else
              o.session.fragments.None? && o.output == Delivered(m) && o.budget == Release(held, |m|)
  {
    CountCovers(|m|);
    if j == 0 {
      assert Chunks(m, 0) == [];
      NextChunk(Begin(s, FragmentCount(|m|), |m|), Reserve(b, |m|), m, 0);
    } else {
      NextChunk(s, b, m, j);
    }
  }

  /** The records of a long message from `j` on. */
  lemma {:induction false} FragmentsArrive(s: Session, b: Budget, m: Message, j: nat, limit: nat)
    requires MAX_NOISE_PLAINTEXT_BYTES < |m| <= MAX_SECURE_MESSAGE_BYTES && |m| <= limit && j < FragmentCount(|m|)
    requires Sound(s) && Holds(s, m, j)
    requires if j == 0 then CanReserve(b, |m|) else s.fragments.Some? && (b.Budget? ==> |m| <= b.reserved <= b.maximum)
    ensures var r := ReceiveAll(s, b, Split(m)[j..], limit);
            && r.messages == [m] && r.session.fragments.None? && Sound(r.session)
            && r.budget == Release(if j == 0 then Reserve(b, |m|) else b, |m|)
    decreases FragmentCount(|m|) - j
  {
    var ps := Split(m)[j..];
    SplitSize(m);
    assert ps[0] == Record(m, j) && ps[1..] == Split(m)[j + 1..];
    RecordReadsBack(m, j);
    NextFragment(s, b, m, j, limit);
    FragmentIsTaken(s, b, m, j, limit);
    AcceptStaysSound(s, b, ps[0], limit);
    var o := Accept(s, b, ps[0], limit);
    if j + 1 < FragmentCount(|m|) {
      FragmentsArrive(o.session, o.budget, m, j + 1, limit);
    } else {
      assert ps[1..] == [];
    }
  }

  lemma AcceptStaysSound(s: Session, b: Budget, plaintext: Message, limit: nat)
    requires Sound(s)
    ensures Sound(Accept(s, b, plaintext, limit).session)
  {
    AcceptIgnoresBudget(s, b, plaintext, limit);
    AcceptIsSound(s, NoBudget, plaintext, limit);
  }

  /** Unless it refuses, the budget has no say in what the session becomes. */
  lemma AcceptIgnoresBudget(s: Session, b: Budget, plaintext: Message, limit: nat)
    ensures var o := Accept(s, b, plaintext, limit);
            o.session == Accept(s, NoBudget, plaintext, limit).session || o == Outcome(s, b, Rejected(BudgetExceeded))
  {
  }

  ghost predicate CameBack(r: Received, messages: seq<Message>, b: Budget) {
    r.messages == messages && r.session.fragments.None? && Sound(r.session) && r.budget == b
  }

  /** Within both size limits, not to be mistaken, and within the budget if it must be assembled. */
  predicate Fits(m: Message, b: Budget, limit: nat) {
    && |m| <= MAX_SECURE_MESSAGE_BYTES && !LooksLikeFragment(m)
    && (|m| > MAX_NOISE_PLAINTEXT_BYTES ==> |m| <= limit && CanReserve(b, |m|))
  }

  /** A message that fits and cannot be mistaken comes back, and leaves nothing behind. */
  lemma MessageArrives(s: Session, b: Budget, m: Message, limit: nat)
    requires Fits(m, b, limit) && Sound(s) && s.fragments.None?
    ensures CameBack(ReceiveAll(s, b, Split(m), limit), [m], b)
  {
    if |m| <= MAX_NOISE_PLAINTEXT_BYTES {
      assert Split(m)[1..] == [];
    } else {
      CountCovers(|m|);
      assert Split(m)[0..] == Split(m);
      FragmentsArrive(s, b, m, 0, limit);
    }
  }

  lemma OneMoreArrives(s: Session, b: Budget, limit: nat, ps: seq<Message>, done: seq<Message>, m: Message,
                       ps': seq<Message>, done': seq<Message>)
    requires CameBack(ReceiveAll(s, b, ps, limit), done, b) && Fits(m, b, limit)
    requires ps' == ps + Split(m) && done' == done + [m]
    ensures CameBack(ReceiveAll(s, b, ps', limit), done', b)
  {
    var before := ReceiveAll(s, b, ps, limit);
    MessageArrives(before.session, b, m, limit);
    ReceiveAppend(s, b, ps, Split(m), limit);
  }

  lemma FlattenPieces(sent: seq<Message>, k: nat)
    requires 0 < k <= |sent|
    ensures Flatten(Pieces(sent), k) == Flatten(Pieces(sent), k - 1) + Split(sent[k - 1])
  {
  }

  ghost predicate PrefixIsBack(s: Session, sent: seq<Message>, b: Budget, limit: nat, k: nat)
    requires k <= |sent|
  {
    CameBack(ReceiveAll(s, b, Flatten(Pieces(sent), k), limit), sent[..k], b)
  }

  lemma NextIsBack(s: Session, sent: seq<Message>, b: Budget, limit: nat, k: nat)
    requires 0 < k <= |sent| && Fits(sent[k - 1], b, limit) && PrefixIsBack(s, sent, b, limit, k - 1)
    ensures PrefixIsBack(s, sent, b, limit, k)
  {
    FlattenPieces(sent, k);
    TakeSnoc(sent, k);
    OneMoreArrives(s, b, limit, Flatten(Pieces(sent), k - 1), sent[..k - 1], sent[k - 1],
                   Flatten(Pieces(sent), k), sent[..k]);
  }

  lemma {:induction false} PrefixComesBack(s: Session, sent: seq<Message>, b: Budget, limit: nat, k: nat)
    requires Sound(s) && s.fragments.None?
    requires k <= |sent| && forall i :: 0 <= i < |sent| ==> Fits(sent[i], b, limit)
    ensures PrefixIsBack(s, sent, b, limit, k)
  {
    if k > 0 {
      PrefixComesBack(s, sent, b, limit, k - 1);
      NextIsBack(s, sent, b, limit, k);
    }
  }

  // ----- the round trip over frames

  /** The frames made from plaintexts when the send counter stands at `first`. */
  function FramesFrom(key: nat, sessionId: string, first: nat, plaintexts: seq<Message>): seq<Frame> {
    seq(|plaintexts|, i requires 0 <= i < |plaintexts| =>
      Frame(sessionId, first + i, Sealed(key, first + i, sessionId, first + i, plaintexts[i])))
  }

  /** What decrypt makes of a frame, and the budget once it has been handled. */
  function Decrypted(l: Link, f: Frame): Option<Message> {
    if f.sessionId != l.sessionId || f.sequence != l.receiveSequence then None
    else Unseal(l.key, l.receiveSequence, l.sessionId, f.sequence, f.ciphertext)
  }

  /** A frame opens exactly when it names this session and the next counter and was sealed under
      them; any other leaves session, counter and messages as they were. */
  lemma OpensExactlyWhen(l: Link, f: Frame, b: Budget, p: Message)
    ensures Decrypted(l, f) == Some(p) <==>
            f == Frame(l.sessionId, l.receiveSequence, Sealed(l.key, l.receiveSequence, l.sessionId, l.receiveSequence, p))
    ensures var t := Step(l, Arrive(f, b));
            if Decrypted(l, f).None? then t == l else t.receiveSequence == l.receiveSequence + 1
  {
  }

  function BudgetAfter(l: Link, f: Frame, b: Budget): Budget {
    match Decrypted(l, f)
    case None => b
    case Some(plaintext) => Accept(l.session, b, plaintext, l.limit).budget
  }

  datatype Handled = Handled(link: Link, budget: Budget)

  /** Frames fed to decryptMessage in order, each with the budget the one before left. */
  function DeliverAll(l: Link, b: Budget, fs: seq<Frame>): Handled
    decreases |fs|
  {
    if fs == [] then Handled(l, b) else DeliverAll(Deliver(l, fs[0], b), BudgetAfter(l, fs[0], b), fs[1..])
  }

  lemma FramesTail(key: nat, sessionId: string, first: nat, ps: seq<Message>)
    requires ps != []
    ensures var fs := FramesFrom(key, sessionId, first, ps);
            && fs[0] == Frame(sessionId, first, Sealed(key, first, sessionId, first, ps[0]))
            && fs[1..] == FramesFrom(key, sessionId, first + 1, ps[1..])
  {
  }

  /** The frames of two batches are those of one, under counters that go on. */
  lemma FramesAppend(key: nat, sessionId: string, first: nat, ps: seq<Message>, qs: seq<Message>)
    ensures FramesFrom(key, sessionId, first, ps + qs)
         == FramesFrom(key, sessionId, first, ps) + FramesFrom(key, sessionId, first + |ps|, qs)
  {
  }

  /** The link after `n` more plaintexts have been received as `r`. */
  predicate Caught(l: Link, h: Handled, r: Received, n: nat) {
    && h.budget == r.budget && h.link.session == r.session && h.link.sent == l.sent
    && h.link.receiveSequence == l.receiveSequence + n && h.link.received == l.received + r.messages
  }

  /** One outcome, then the rest. */
  lemma TakeThenRest(l: Link, o: Outcome, h: Handled, rest: Received, n: nat)
    requires Caught(l.(session := o.session, receiveSequence := l.receiveSequence + 1, received := With(l.received, o.output)), h, rest, n)
    ensures Caught(l, h, rest.(messages := With([], o.output) + rest.messages), n + 1)
  {
  }

  lemma ReceiveOne(s: Session, b: Budget, ps: seq<Message>, limit: nat)
    requires ps != []
    ensures var o := Accept(s, b, ps[0], limit);
            var rest := ReceiveAll(o.session, o.budget, ps[1..], limit);
            ReceiveAll(s, b, ps, limit) == rest.(messages := With([], o.output) + rest.messages)
  {
  }

  /** In order, every frame opens, and the receiver takes exactly the plaintexts. */
  lemma {:induction false} FramesOpen(l: Link, b: Budget, ps: seq<Message>)
    ensures var h := DeliverAll(l, b, FramesFrom(l.key, l.sessionId, l.receiveSequence, ps));
            Caught(l, h, ReceiveAll(l.session, b, ps, l.limit), |ps|)
    decreases |ps|
  {
    if ps != [] {
      FramesTail(l.key, l.sessionId, l.receiveSequence, ps);
      var f := FramesFrom(l.key, l.sessionId, l.receiveSequence, ps)[0];
      FirstOpens(l, b, f, ps[0]);
      var o := Accept(l.session, b, ps[0], l.limit);
      FramesOpen(Take(l, ps[0], b), o.budget, ps[1..]);
      ReceiveOne(l.session, b, ps, l.limit);
      TakeThenRest(l, o, DeliverAll(Take(l, ps[0], b), o.budget, FramesFrom(l.key, l.sessionId, l.receiveSequence + 1, ps[1..])),
                   ReceiveAll(o.session, o.budget, ps[1..], l.limit), |ps| - 1);
    }
  }

  lemma FirstOpens(l: Link, b: Budget, f: Frame, p: Message)
    requires f == Frame(l.sessionId, l.receiveSequence, Sealed(l.key, l.receiveSequence, l.sessionId, l.receiveSequence, p))
    ensures Deliver(l, f, b) == Take(l, p, b) && BudgetAfter(l, f, b) == Accept(l.session, b, p, l.limit).budget
  {
  }

  lemma PlaintextsGrow(l: Link, m: Message)
    ensures Plaintexts(l.(sent := l.sent + [m])) == Plaintexts(l) + Split(m)
  {
    assert Pieces(l.sent + [m]) == Pieces(l.sent) + [Split(m)];
    FlattenMore(Pieces(l.sent), Split(m), |l.sent|);
    FlattenPieces(l.sent + [m], |l.sent| + 1);
  }

  lemma {:induction false} PlaintextsGrowBy(l: Link, messages: seq<Message>)
    ensures Plaintexts(l.(sent := l.sent + messages)) == Plaintexts(l) + FlattenAll(Pieces(messages))
    decreases |messages|
  {
    if messages == [] {
      assert l.sent + messages == l.sent;
    } else {
      var n := |messages| - 1;
      var front := messages[..n];
      PlaintextsGrowBy(l, front);
      PlaintextsGrow(l.(sent := l.sent + front), messages[n]);
      assert l.sent + front + [messages[n]] == l.sent + messages;
      PlaintextsGrow(l.(sent := front), messages[n]);
      assert front + [messages[n]] == messages;
    }
  }

  lemma {:induction false} PlaintextsAreShort(messages: seq<Message>, k: nat)
    requires k <= |messages| && forall i :: 0 <= i < |messages| ==> |messages[i]| <= MAX_SECURE_MESSAGE_BYTES
    ensures forall p :: p in Flatten(Pieces(messages), k) ==> |p| <= MAX_NOISE_PLAINTEXT_BYTES
  {
    if k > 0 {
      PlaintextsAreShort(messages, k - 1);
      if |messages[k - 1]| > MAX_NOISE_PLAINTEXT_BYTES { RecordsAreShort(messages[k - 1]); }
    }
  }

  lemma PlaintextsComeBack(s: Session, sent: seq<Message>, b: Budget, limit: nat)
    requires Sound(s) && s.fragments.None?
    requires forall m :: m in sent ==> Fits(m, b, limit)
    ensures var r := ReceiveAll(s, b, FlattenAll(Pieces(sent)), limit);
            r.messages == sent && r.session.fragments.None? && r.session.armed == {} && r.budget == b
  {
    PrefixComesBack(s, sent, b, limit, |sent|);
    assert sent[..|sent|] == sent;
  }

  /** Every sequence of messages within both size limits, with no short one that looks like a
      fragment, no timeout and enough budget: the frames that encryptMessage makes for them,
      fed in order to a receiver that is in step and has no assembly open, come back as
      exactly those messages.  Every plaintext keeps within the Noise limit, the receive
      counter catches up with the send counter, the budget is as before, and no assembly or
      timer is left. */
  lemma RoundTrip(l: Link, messages: seq<Message>, b: Budget)
    requires Sound(l.session) && l.session.fragments.None? && l.receiveSequence == |Plaintexts(l)|
    requires forall m :: m in messages ==> Fits(m, b, l.limit)
    ensures var sender := l.(sent := l.sent + messages);
            var plaintexts := FlattenAll(Pieces(messages));
            var h := DeliverAll(sender, b, FramesFrom(l.key, l.sessionId, |Plaintexts(l)|, plaintexts));
            && (forall p :: p in plaintexts ==> |p| <= MAX_NOISE_PLAINTEXT_BYTES)
            && h.link.received == l.received + messages && h.link.sent == l.sent + messages
            && h.link.receiveSequence == |Plaintexts(h.link)|
            && h.budget == b && h.link.session.fragments.None? && h.link.session.armed == {}
  {
    assert forall i :: 0 <= i < |messages| ==> Fits(messages[i], b, l.limit);
    PlaintextsAreShort(messages, |messages|);
    PlaintextsComeBack(l.session, messages, b, l.limit);
    var sender, plaintexts := l.(sent := l.sent + messages), FlattenAll(Pieces(messages));
    FramesOpen(sender, b, plaintexts);
    var h := DeliverAll(sender, b, FramesFrom(l.key, l.sessionId, |Plaintexts(l)|, plaintexts));
    CounterCatchesUp(l, messages, h.link);
  }

  lemma CounterCatchesUp(l: Link, messages: seq<Message>, after: Link)
    requires after.sent == l.sent + messages
    ensures |Plaintexts(after)| == |Plaintexts(l)| + |FlattenAll(Pieces(messages))|
  {
    PlaintextsGrowBy(l, messages);
  }

  /** One message survives the round trip exactly if it cannot be mistaken for a fragment. */
  lemma RoundTripExactly(key: nat, sessionId: string, m: Message, b: Budget, limit: nat)
    requires |m| <= MAX_SECURE_MESSAGE_BYTES
    requires |m| > MAX_NOISE_PLAINTEXT_BYTES ==> |m| <= limit && CanReserve(b, |m|)
    ensures DeliverAll(Start(key, sessionId, limit), b, FramesFrom(key, sessionId, 0, Split(m))).link.received == [m]
            <==> !LooksLikeFragment(m)
  {
    FramesOpen(Start(key, sessionId, limit), b, Split(m));
    if !LooksLikeFragment(m) {
      MessageArrives(FRESH, b, m, limit);
    } else {
      assert Split(m)[1..] == [] && Split(m)[0] == m;
      assert !Accept(FRESH, b, m, limit).output.Delivered?;
    }
  }

  /** What goes wrong otherwise: the records of a long message, themselves sent as short
      messages, make the receiver return a message that was never given to the sender. */
  lemma LookalikesForgeAMessage(key: nat, sessionId: string, m: Message, b: Budget, limit: nat)
    requires MAX_NOISE_PLAINTEXT_BYTES < |m| <= MAX_SECURE_MESSAGE_BYTES && |m| <= limit && CanReserve(b, |m|)
    ensures var sent := Split(m);
            var fs := FramesFrom(key, sessionId, 0, FlattenAll(Pieces(sent)));
            DeliverAll(Start(key, sessionId, limit), b, fs).link.received == [m] && m !in sent
  {
    RecordsAreShort(m);
    SinglePieces(Split(m), |Split(m)|);
    assert Split(m)[..|Split(m)|] == Split(m);
    MessageArrives(FRESH, b, m, limit);
    FramesOpen(Start(key, sessionId, limit), b, Split(m));
  }

  lemma RecordsAreShort(m: Message)
    requires MAX_NOISE_PLAINTEXT_BYTES < |m| <= MAX_SECURE_MESSAGE_BYTES
    ensures forall i :: 0 <= i < |Split(m)| ==> |Split(m)[i]| <= MAX_NOISE_PLAINTEXT_BYTES
  {
  }

  lemma {:induction false} SinglePieces(ps: seq<Message>, k: nat)
    requires k <= |ps| && forall i :: 0 <= i < |ps| ==> |ps[i]| <= MAX_NOISE_PLAINTEXT_BYTES
    ensures Flatten(Pieces(ps), k) == ps[..k]
  {
    if k > 0 {
      SinglePieces(ps, k - 1);
      assert Pieces(ps)[k - 1] == [ps[k - 1]];
    }
  }

  // ----- a schedule that delivers everything

  function Sends(messages: seq<Message>): seq<Event> {
    if messages == [] then [] else [Send(messages[0])] + Sends(messages[1..])
  }

  function Arrivals(l: Link, b: Budget, fs: seq<Frame>): seq<Event>
    decreases |fs|
  {
    if fs == [] then [] else [Arrive(fs[0], b)] + Arrivals(Deliver(l, fs[0], b), BudgetAfter(l, fs[0], b), fs[1..])
  }

  lemma RunCons(l: Link, e: Event, es: seq<Event>)
    ensures Run(l, [e] + es) == Run(Step(l, e), es)
    ensures Fair(l, [e] + es) <==> Possible(l, e) && (e.Send? ==> !LooksLikeFragment(e.message)) && Fair(Step(l, e), es)
  {
    assert ([e] + es)[0] == e && ([e] + es)[1..] == es;
  }

  /** The frame is one the sender has made. */
  ghost predicate Made(l: Link, f: Frame) {
    exists i: nat :: i < |Plaintexts(l)| && f.ciphertext == Sent(l, i)
  }

  lemma {:induction false} ArrivalsRun(l: Link, b: Budget, fs: seq<Frame>)
    requires forall f :: f in fs ==> Made(l, f)
    ensures Run(l, Arrivals(l, b, fs)) == DeliverAll(l, b, fs).link && Fair(l, Arrivals(l, b, fs))
    decreases |fs|
  {
    if fs != [] {
      var k := Deliver(l, fs[0], b);
      assert k.sent == l.sent && k.key == l.key && k.sessionId == l.sessionId;
      assert Made(l, fs[0]);
      forall f | f in fs[1..] ensures Made(k, f) { MadeStays(l, k, f); }
      ArrivalsRun(k, BudgetAfter(l, fs[0], b), fs[1..]);
      RunCons(l, Arrive(fs[0], b), Arrivals(k, BudgetAfter(l, fs[0], b), fs[1..]));
    }
  }

  lemma MadeStays(l: Link, k: Link, f: Frame)
    requires Made(l, f) && k.sent == l.sent && k.key == l.key && k.sessionId == l.sessionId
    ensures Made(k, f)
  {
    var i: nat :| i < |Plaintexts(l)| && f.ciphertext == Sent(l, i);
    assert f.ciphertext == Sent(k, i);
  }

  lemma {:induction false} SendsRun(l: Link, messages: seq<Message>, es: seq<Event>)
    requires forall m :: m in messages ==> |m| <= MAX_SECURE_MESSAGE_BYTES && !LooksLikeFragment(m)
    ensures var k := l.(sent := l.sent + messages);
            Run(l, Sends(messages) + es) == Run(k, es) && (Fair(k, es) ==> Fair(l, Sends(messages) + es))
    decreases |messages|
  {
    if messages == [] {
      assert Sends(messages) + es == es && l.sent + messages == l.sent;
    } else {
      var rest := Sends(messages[1..]) + es;
      assert Sends(messages) + es == [Send(messages[0])] + rest;
      RunCons(l, Send(messages[0]), rest);
      assert l.sent + [messages[0]] + messages[1..] == l.sent + messages;
      SendsRun(Step(l, Send(messages[0])), messages[1..], es);
    }
  }

  lemma FramesAreMade(l: Link)
    ensures forall f :: f in FramesFrom(l.key, l.sessionId, 0, Plaintexts(l)) ==> Made(l, f)
  {
    var fs := FramesFrom(l.key, l.sessionId, 0, Plaintexts(l));
    forall i: nat | i < |fs| ensures Made(l, fs[i]) { assert fs[i].ciphertext == Sent(l, i); }
  }

  /** In-order delivery is not empty talk: for any messages that fit there is a fair schedule of
      a new session by which all of them are received. */
  lemma SomeScheduleDelivers(key: nat, sessionId: string, limit: nat, messages: seq<Message>, b: Budget)
    requires forall m :: m in messages ==> Fits(m, b, limit)
    ensures var l := Start(key, sessionId, limit);
            exists es :: Fair(l, es) && Run(l, es).received == messages && Run(l, es).sent == messages
  {
    var l := Start(key, sessionId, limit);
    var sender := l.(sent := messages);
    assert l.sent + messages == messages && Plaintexts(l) == [];
    RoundTrip(l, messages, b);
    FramesAreMade(sender);
    var fs := FramesFrom(key, sessionId, 0, Plaintexts(sender));
    ArrivalsRun(sender, b, fs);
    SendsRun(l, messages, Arrivals(sender, b, fs));
    var es := Sends(messages) + Arrivals(sender, b, fs);
    assert Fair(l, es) && Run(l, es).received == messages && Run(l, es).sent == messages;
  }

  /** An armed timer or a disposal ends the assembly and nothing else; a timer that is not armed
      does nothing, and neither does the sending of a message over 32 MiB. */
  lemma EndingAnAssembly(l: Link, timer: nat, m: Message)
    requires Sound(l.session)
    ensures var t := Step(l, Timeout(timer));
            if timer in l.session.armed then t == l.(session := t.session) && t.session.fragments.None? && t.session.armed == {} else t == l
    ensures var t := Step(l, Event.Dispose); t == l.(session := t.session) && t.session.fragments.None? && t.session.armed == {}
    ensures Step(l, Send(m)) == if |m| <= 33_554_432 then l.(sent := l.sent + [m]) else l
  {
  }
}
