/**
 `SecureMessageAssemblyBudget` and `SecureSession` as objects that update their fields in
 place.  Each method is tied to the functions of modules Records, Assembly and Delivery.
 */
module SecureSessions {
  import opened Options
  import opened Records
  import opened Assembly
  import opened Delivery
  import opened Streams

  class AssemblyBudget {
    const maximumBytes: nat
    var reservedBytes: nat

    constructor (maximumBytes: nat)
      requires maximumBytes > 0
      ensures View() == Budget(maximumBytes, 0)
    {
      this.maximumBytes := maximumBytes;
      reservedBytes := 0;
    }

    ghost function View(): Budget
      reads this
    {
      Budget(maximumBytes, reservedBytes)
    }

    /** False stands for the error "budget exceeded". */
    method TryReserve(bytes: nat) returns (ok: bool)
      modifies this
      ensures ok == CanReserve(old(View()), bytes)
      ensures View() == if ok then Reserve(old(View()), bytes) else old(View())
    {
      if bytes <= 0 || reservedBytes + bytes > maximumBytes { return false; }
      reservedBytes := reservedBytes + bytes;
      return true;
    }

    method Free(bytes: nat)
      modifies this
      ensures View() == Release(old(View()), bytes)
    {
      reservedBytes := if reservedBytes < bytes then 0 else reservedBytes - bytes;
    }
  }

  lemma ChunkBounds(m: Message, i: nat)
    requires i < FragmentCount(|m|)
    ensures var offset := i * MAX_FRAGMENT_PAYLOAD_BYTES;
            && offset <= Min(offset + MAX_FRAGMENT_PAYLOAD_BYTES, |m|) <= |m|
            && Chunk(m, i) == m[offset..Min(offset + MAX_FRAGMENT_PAYLOAD_BYTES, |m|)]
  {
  }

  lemma RecordIsSplit(m: Message, i: nat)
    requires MAX_NOISE_PLAINTEXT_BYTES < |m| <= MAX_SECURE_MESSAGE_BYTES && i < FragmentCount(|m|)
    ensures i < |Split(m)| && Split(m)[i] == Record(m, i) && |Record(m, i)| <= MAX_NOISE_PLAINTEXT_BYTES
  {
  }

  lemma TakeAll(xs: seq<Message>)
    ensures xs[..|xs|] == xs
  {
  }

  lemma FramesSnoc(key: nat, sessionId: string, first: nat, plaintexts: seq<Message>, i: nat)
    requires i < |plaintexts|
    ensures FramesFrom(key, sessionId, first, plaintexts[..i + 1]) ==
            FramesFrom(key, sessionId, first, plaintexts[..i]) +
            [Frame(sessionId, first + i, Sealed(key, first + i, sessionId, first + i, plaintexts[i]))]
  {
  }

  /** Frames made in this way are exactly what the link's sender makes for one more message. */
  lemma FramesAreSent(l: Link, m: Message, i: nat)
    requires i < |Split(m)|
    ensures var l' := l.(sent := l.sent + [m]);
            var first := |Plaintexts(l)|;
            && first + i < |Plaintexts(l')|
            && FramesFrom(l.key, l.sessionId, first, Split(m))[i] == Frame(l.sessionId, first + i, Sent(l', first + i))
  {
    PlaintextsGrow(l, m);
  }

  class SecureSession {
    const sessionId: string
    const sendKey: nat
    const receiveKey: nat
    const maxReceiveMessageBytes: nat
    const assemblyBudget: AssemblyBudget?
    var sendSequence: nat
    var receiveSequence: nat
    var fragments: Option<Fragments>
    var armed: set<nat>
    var timers: nat

    constructor (sessionId: string, sendKey: nat, receiveKey: nat, limit: nat, budget: AssemblyBudget?)
      requires MAX_NOISE_PLAINTEXT_BYTES < limit <= MAX_SECURE_MESSAGE_BYTES
      ensures Valid() && View() == FRESH && sendSequence == receiveSequence == 0
      ensures this.sessionId == sessionId && this.sendKey == sendKey && this.receiveKey == receiveKey
      ensures maxReceiveMessageBytes == limit && assemblyBudget == budget
    {
      this.sessionId := sessionId;
      this.sendKey := sendKey;
      this.receiveKey := receiveKey;
      maxReceiveMessageBytes := limit;
      assemblyBudget := budget;
      sendSequence, receiveSequence := 0, 0;
      fragments, armed, timers := None, {}, 0;
    }

    ghost function View(): Session
      reads this
    {
      Session(fragments, armed, timers)
    }

    ghost function BudgetView(): Budget
      reads this, assemblyBudget
    {
      if assemblyBudget == null then NoBudget else assemblyBudget.View()
    }

    ghost predicate Valid()
      reads this
    {
      Sound(View())
    }

    /** The next frame of the send direction; None stands for the length error. */
    method Encrypt(plaintext: Message) returns (frame: Option<Frame>)
      modifies this`sendSequence
      ensures frame.Some? <==> |plaintext| <= MAX_NOISE_PLAINTEXT_BYTES
      ensures frame.Some? ==>
                && frame.value == FramesFrom(sendKey, sessionId, old(sendSequence), [plaintext])[0]
                && sendSequence == old(sendSequence) + 1
      ensures frame.None? ==> sendSequence == old(sendSequence)
    {
      if |plaintext| > MAX_NOISE_PLAINTEXT_BYTES { return None; }
      var sequence := sendSequence;
      sendSequence := sendSequence + 1;
      return Some(Frame(sessionId, sequence, Sealed(sendKey, sequence, sessionId, sequence, plaintext)));
    }

    /** All frames of one message: exactly its records, under consecutive counters. */
    method EncryptMessage(plaintext: Message) returns (frames: Option<seq<Frame>>)
      modifies this`sendSequence
      ensures frames.Some? <==> |plaintext| <= MAX_SECURE_MESSAGE_BYTES
      ensures frames.Some? ==>
                && frames.value == FramesFrom(sendKey, sessionId, old(sendSequence), Split(plaintext))
                && sendSequence == old(sendSequence) + |Split(plaintext)|
      ensures frames.None? ==> sendSequence == old(sendSequence)
    {
      if |plaintext| > MAX_SECURE_MESSAGE_BYTES { return None; }
      if |plaintext| <= MAX_NOISE_PLAINTEXT_BYTES {
        var frame := Encrypt(plaintext);
        return Some([frame.value]);
      }
      var made := EncryptFragments(plaintext);
      return Some(made);
    }

    method EncryptFragments(plaintext: Message) returns (frames: seq<Frame>)
      requires MAX_NOISE_PLAINTEXT_BYTES < |plaintext| <= MAX_SECURE_MESSAGE_BYTES
      modifies this`sendSequence
      ensures frames == FramesFrom(sendKey, sessionId, old(sendSequence), Split(plaintext))
      ensures sendSequence == old(sendSequence) + |Split(plaintext)|
    {
      var count := FragmentCount(|plaintext|);
      ghost var records := Split(plaintext);
      frames := [];
      SplitSize(plaintext);
      for index := 0 to count
        invariant sendSequence == old(sendSequence) + index
        invariant frames == FramesFrom(sendKey, sessionId, old(sendSequence), records[..index])
      {
        var frame := EncryptFragment(plaintext, index, count);
        FramesSnoc(sendKey, sessionId, old(sendSequence), records, index);
        frames := frames + [frame];
      }
      TakeAll(records);
    }

    method EncryptFragment(plaintext: Message, index: nat, count: nat) returns (frame: Frame)
      requires MAX_NOISE_PLAINTEXT_BYTES < |plaintext| <= MAX_SECURE_MESSAGE_BYTES
      requires count == FragmentCount(|plaintext|) && index < count
      modifies this`sendSequence
      ensures sendSequence == old(sendSequence) + 1
      ensures var n := old(sendSequence);
              frame == Frame(sessionId, n, Sealed(sendKey, n, sessionId, n, Split(plaintext)[index]))
    {
      ChunkBounds(plaintext, index);
      var offset := index * MAX_FRAGMENT_PAYLOAD_BYTES;
      var chunk := plaintext[offset..Min(offset + MAX_FRAGMENT_PAYLOAD_BYTES, |plaintext|)];
      var record := FRAGMENT_MAGIC + PutUint32(index) + PutUint32(count) + PutUint32(|plaintext|) + chunk;
      assert record == Record(plaintext, index);
      RecordIsSplit(plaintext, index);
      var made := Encrypt(record);
      frame := made.value;
    }

    /** The plaintext of the expected frame; None stands for any of the three errors, which
        leave both counters alone. */
    method Decrypt(frame: Frame) returns (plaintext: Option<Message>)
      modifies this`receiveSequence
      ensures plaintext ==
              if frame.sessionId != sessionId || frame.sequence != old(receiveSequence) then None
              else Unseal(receiveKey, old(receiveSequence), sessionId, frame.sequence, frame.ciphertext)
      ensures receiveSequence == old(receiveSequence) + if plaintext.Some? then 1 else 0
    {
      if frame.sessionId != sessionId || frame.sequence != receiveSequence { return None; }
      plaintext := Unseal(receiveKey, receiveSequence, sessionId, frame.sequence, frame.ciphertext);
      if plaintext.Some? { receiveSequence := receiveSequence + 1; }
    }

    method DiscardFragments()
      modifies this`fragments, this`armed, assemblyBudget
      ensures View() == Discard(old(View()))
      ensures BudgetView() == Drop(old(View()), old(BudgetView()), Pending).budget
    {
      if fragments.None? { return; }
      var assembly := fragments.value;
      fragments := None;
      armed := armed - {assembly.idle} - {assembly.absolute};
      if assemblyBudget != null { assemblyBudget.Free(assembly.totalBytes); }
    }

    /** A timer that is still armed runs its callback. */
    method Fire(timer: nat)
      requires Valid() && timer in armed
      modifies this`fragments, this`armed, assemblyBudget
      ensures Valid() && View() == Session(None, {}, old(timers))
      ensures BudgetView() == Release(old(BudgetView()), Declared(old(View())))
    {
      DiscardFragments();
    }

    method NewTimer() returns (timer: nat)
      modifies this`armed, this`timers
      ensures timer == old(timers) && timers == old(timers) + 1 && armed == old(armed) + {timer}
    {
      timer := timers;
      timers := timers + 1;
      armed := armed + {timer};
    }

    /** message.set(part, offset) for every chunk. */
    static method Join(chunks: seq<Message>, totalBytes: nat) returns (message: Message)
      requires Sizes(chunks) == totalBytes
      ensures message == Concat(chunks)
    {
      SizesIsLength(chunks);
      var buffer := new byte[totalBytes];
      var offset := 0;
      for p := 0 to |chunks|
        invariant offset == Sizes(chunks[..p]) <= totalBytes
        invariant buffer[..offset] == Concat(chunks[..p])
      {
        assert chunks[..p + 1][..p] == chunks[..p];
        SizesGrow(chunks, p + 1);
        SizesIsLength(chunks[..p]);
        var part := chunks[p];
        forall i | 0 <= i < |part| { buffer[offset + i] := part[i]; }
        assert buffer[..offset + |part|] == buffer[..offset] + part;
        offset := offset + |part|;
      }
      assert chunks[..|chunks|] == chunks;
      message := buffer[..];
    }

    /** What one frame yields, or None if decryption refuses it. */
    method DecryptMessage(frame: Frame) returns (output: Option<Output>)
      requires Valid()
      modifies this`receiveSequence, this`fragments, this`armed, this`timers, assemblyBudget
      ensures Valid()
      ensures var plaintext :=
                if frame.sessionId != sessionId || frame.sequence != old(receiveSequence) then None
                else Unseal(receiveKey, old(receiveSequence), sessionId, frame.sequence, frame.ciphertext);
              match plaintext
              case None =>
                output == None && View() == old(View()) && BudgetView() == old(BudgetView()) &&
                receiveSequence == old(receiveSequence)
              case Some(p) =>
                && output.Some? && receiveSequence == old(receiveSequence) + 1
                && Outcome(View(), BudgetView(), output.value) == Accept(old(View()), old(BudgetView()), p, maxReceiveMessageBytes)
    {
      var unsealed := Decrypt(frame);
      if unsealed.None? { return None; }
      var plaintext := unsealed.value;
      AcceptStaysSound(View(), BudgetView(), plaintext, maxReceiveMessageBytes);
      if !IsFragmentRecord(plaintext) {
        if fragments.Some? {
          DiscardFragments();
          return Some(Rejected(FragmentMissing));
        }
        return Some(Delivered(plaintext));
      }
      var result := HandleFragment(GetUint32(plaintext, 4), GetUint32(plaintext, 8), GetUint32(plaintext, 12),
                                   plaintext[FRAGMENT_HEADER_BYTES..]);
      return Some(result);
    }

    /** decryptMessage from the point where the header has been read. */
    method HandleFragment(index: nat, count: nat, totalBytes: nat, chunk: Message) returns (output: Output)
      requires Valid()
      modifies this`fragments, this`armed, this`timers, assemblyBudget
      ensures Outcome(View(), BudgetView(), output) ==
              AcceptFragment(old(View()), old(BudgetView()), index, count, totalBytes, chunk, maxReceiveMessageBytes)
    {
      if count < 2 || count > MAX_FRAGMENTS || index >= count ||
         totalBytes <= MAX_NOISE_PLAINTEXT_BYTES || totalBytes > maxReceiveMessageBytes
      {
        DiscardFragments();
        return Rejected(InvalidHeader);
      }
      if index == 0 {
        if fragments.Some? {
          DiscardFragments();
          return Rejected(Interleaved);
        }
        var ok := OpenAssembly(count, totalBytes);
        if !ok { return Rejected(BudgetExceeded); }
      } else if fragments.None? || fragments.value.count != count ||
                fragments.value.totalBytes != totalBytes || fragments.value.nextIndex != index
      {
        DiscardFragments();
        return Rejected(UnexpectedFragment);
      }
      output := Take(chunk);
    }

    method OpenAssembly(count: nat, totalBytes: nat) returns (ok: bool)
      requires fragments.None? && totalBytes > 0
      modifies this`fragments, this`armed, this`timers, assemblyBudget
      ensures ok == CanReserve(old(BudgetView()), totalBytes)
      ensures ok ==> View() == Begin(old(View()), count, totalBytes) && BudgetView() == Reserve(old(BudgetView()), totalBytes)
      ensures !ok ==> View() == old(View()) && BudgetView() == old(BudgetView())
    {
      if assemblyBudget != null {
        ok := assemblyBudget.TryReserve(totalBytes);
        if !ok { return false; }
      }
      var idle := NewTimer();
      var absolute := NewTimer();
      fragments := Some(Fragments(count, 0, totalBytes, 0, [], idle, absolute));
      ok := true;
    }

    /** The fragment the current assembly waits for. */
    method Take(chunk: Message) returns (output: Output)
      requires fragments.Some? && armed == {fragments.value.idle, fragments.value.absolute}
      requires fragments.value.receivedBytes == Sizes(fragments.value.chunks)
      requires fragments.value.idle != fragments.value.absolute
      modifies this`fragments, this`armed, this`timers, assemblyBudget
      ensures Outcome(View(), BudgetView(), output) == Append(old(View()), old(BudgetView()), chunk)
    {
      var before := fragments.value;
      assert (before.chunks + [chunk])[..|before.chunks|] == before.chunks;
      var assembly := before.(
        chunks := before.chunks + [chunk],
        nextIndex := before.nextIndex + 1,
        receivedBytes := before.receivedBytes + |chunk|);
      fragments := Some(assembly);
      if assembly.receivedBytes > assembly.totalBytes {
        DiscardFragments();
        return Rejected(ExceedsDeclaredLength);
      }
      if assembly.nextIndex < assembly.count {
        armed := armed - {assembly.idle};
        var idle := NewTimer();
        fragments := Some(assembly.(idle := idle));
        return Pending;
      }
      DiscardFragments();
      if assembly.receivedBytes != assembly.totalBytes { return Rejected(LengthMismatch); }
      var message := Join(assembly.chunks, assembly.totalBytes);
      return Delivered(message);
    }
  }

  /** How many frames the first `i` messages take, and which. */
  function CountTo(messages: seq<Message>, i: nat): nat
    requires i <= |messages|
  {
    |Flatten(Pieces(messages), i)|
  }

  function FramesTo(key: nat, sessionId: string, first: nat, messages: seq<Message>, i: nat): seq<Frame>
    requires i <= |messages|
  {
    FramesFrom(key, sessionId, first, Flatten(Pieces(messages), i))
  }

  lemma FramesOfNext(key: nat, sessionId: string, first: nat, messages: seq<Message>, i: nat)
    requires i < |messages|
    ensures CountTo(messages, i + 1) == CountTo(messages, i) + |Split(messages[i])|
    ensures FramesTo(key, sessionId, first, messages, i + 1)
         == FramesTo(key, sessionId, first, messages, i) + FramesFrom(key, sessionId, first + CountTo(messages, i), Split(messages[i]))
  {
    FlattenPieces(messages, i + 1);
    FramesAppend(key, sessionId, first, Flatten(Pieces(messages), i), Split(messages[i]));
  }

  method SendNext(session: SecureSession, messages: seq<Message>, i: nat, ghost first: nat) returns (frames: seq<Frame>)
    requires i < |messages| && |messages[i]| <= MAX_SECURE_MESSAGE_BYTES
    requires session.sendSequence == first + CountTo(messages, i)
    modifies session`sendSequence
    ensures FramesTo(session.sendKey, session.sessionId, first, messages, i) + frames
         == FramesTo(session.sendKey, session.sessionId, first, messages, i + 1)
    ensures session.sendSequence == first + CountTo(messages, i + 1)
  {
    var made := session.EncryptMessage(messages[i]);
    frames := made.value;
    FramesOfNext(session.sendKey, session.sessionId, first, messages, i);
  }

  /** One encryptMessage after another: the frames of all the messages' records, in order,
      under consecutive counters, as the round trip takes them. */
  method SendAll(session: SecureSession, messages: seq<Message>) returns (frames: seq<Frame>)
    requires forall i :: 0 <= i < |messages| ==> |messages[i]| <= MAX_SECURE_MESSAGE_BYTES
    modifies session`sendSequence
    ensures frames == FramesTo(session.sendKey, session.sessionId, old(session.sendSequence), messages, |messages|)
    ensures session.sendSequence == old(session.sendSequence) + CountTo(messages, |messages|)
  {
    ghost var first := session.sendSequence;
    frames := [];
    for i := 0 to |messages|
      invariant session.sendSequence == first + CountTo(messages, i)
      invariant frames == FramesTo(session.sendKey, session.sessionId, first, messages, i)
    {
      var more := SendNext(session, messages, i, first);
      frames := frames + more;
    }
  }

  lemma {:induction false} SizesIsLength(chunks: seq<Message>)
    ensures |Concat(chunks)| == Sizes(chunks)
  {
    if chunks != [] { SizesIsLength(chunks[..|chunks| - 1]); }
  }

  lemma {:induction false} SizesGrow(chunks: seq<Message>, p: nat)
    requires p <= |chunks|
    ensures Sizes(chunks[..p]) <= Sizes(chunks)
    decreases |chunks|
  {
    if p < |chunks| {
      assert chunks[..|chunks| - 1][..p] == chunks[..p];
      SizesGrow(chunks[..|chunks| - 1], p);
    } else {
      assert chunks[..p] == chunks;
    }
  }
}
