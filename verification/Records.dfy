/**
 How `SecureSession.encryptMessage` cuts a message into records, as byte sequences.

 A message of up to 65519 bytes is one record.  A longer one becomes fragment records:
 four marker bytes, then the index, the fragment count and the message length as
 big-endian 32-bit numbers, then the chunk.
 */
module Records {
  import opened Options

  type byte = x: int | 0 <= x < 256

  type Message = seq<byte>

  // Section 3 of the Noise Protocol Framework caps a transport message at 65535 bytes,
  // of which 16 are the authentication tag.
  const MAX_NOISE_PLAINTEXT_BYTES := 65535 - 16
  const MAX_SECURE_MESSAGE_BYTES := 32 * 1024 * 1024
  const FRAGMENT_HEADER_BYTES := 16
  const MAX_FRAGMENT_PAYLOAD_BYTES := MAX_NOISE_PLAINTEXT_BYTES - FRAGMENT_HEADER_BYTES
  const FRAGMENT_MAGIC: seq<byte> := [0, 0x43, 0x45, 0x01]

  function CeilDiv(n: nat, d: nat): nat
    requires d > 0
  {
    (n + d - 1) / d
  }

  const MAX_FRAGMENTS := CeilDiv(MAX_SECURE_MESSAGE_BYTES, MAX_FRAGMENT_PAYLOAD_BYTES)

  function BigEndian(w: nat): (bs: seq<byte>)
    requires w < 0x1_0000_0000
    ensures |bs| == 4 && GetUint32(bs, 0) == w
  {
    var w1 := w / 0x100;
    var w2 := w1 / 0x100;
    [w2 / 0x100, w2 % 0x100, w1 % 0x100, w % 0x100]
  }

  /** setUint32 keeps a number modulo 2^32. */
  function PutUint32(n: nat): seq<byte> { BigEndian(n % 0x1_0000_0000) }

  function GetUint32(bs: seq<byte>, at: nat): (n: int)
    requires at + 4 <= |bs|
    ensures 0 <= n < 0x1_0000_0000
  {
    (bs[at] as int) * 0x100_0000 + (bs[at + 1] as int) * 0x1_0000 + (bs[at + 2] as int) * 0x100 + bs[at + 3]
  }

  function FragmentCount(length: nat): nat { CeilDiv(length, MAX_FRAGMENT_PAYLOAD_BYTES) }

  function Min(x: int, y: int): int { if x < y then x else y }

  /** How many bytes the first `i` chunks of a message carry. */
  function Offset(length: nat, i: nat): nat { Min(i * MAX_FRAGMENT_PAYLOAD_BYTES, length) }

  function Chunk(m: Message, i: nat): Message
    requires i < FragmentCount(|m|)
  {
    m[Offset(|m|, i)..Offset(|m|, i + 1)]
  }

  function Record(m: Message, i: nat): Message
    requires i < FragmentCount(|m|)
  {
    FRAGMENT_MAGIC + PutUint32(i) + PutUint32(FragmentCount(|m|)) + PutUint32(|m|) + Chunk(m, i)
  }

  /** The plaintexts that carry a message, in sending order. */
  function Split(m: Message): seq<Message> {
    if |m| <= MAX_NOISE_PLAINTEXT_BYTES then [m]
    else seq(FragmentCount(|m|), i requires 0 <= i < FragmentCount(|m|) => Record(m, i))
  }

  predicate IsFragmentRecord(v: Message) {
    |v| >= FRAGMENT_HEADER_BYTES && v[..4] == FRAGMENT_MAGIC
  }

  /** A message that would be taken for a fragment although it is sent whole. */
  predicate LooksLikeFragment(m: Message) {
    |m| <= MAX_NOISE_PLAINTEXT_BYTES && IsFragmentRecord(m)
  }

  function Concat(parts: seq<Message>): Message {
    if parts == [] then [] else Concat(parts[..|parts| - 1]) + parts[|parts| - 1]
  }

  /** The first `i` chunks of a message. */
  function Chunks(m: Message, i: nat): seq<Message>
    requires i <= FragmentCount(|m|)
  {
    seq(i, k requires 0 <= k < i => Chunk(m, k))
  }

  // ----- properties of the cut

  lemma CountCovers(length: nat)
    ensures Offset(length, FragmentCount(length)) == length
    ensures forall i: nat :: i < FragmentCount(length) ==> i * MAX_FRAGMENT_PAYLOAD_BYTES < length
    ensures length > MAX_NOISE_PLAINTEXT_BYTES ==> FragmentCount(length) >= 2
    ensures length <= MAX_SECURE_MESSAGE_BYTES ==> FragmentCount(length) <= MAX_FRAGMENTS
  {
  }

  lemma GetPut(bs: seq<byte>, at: nat, n: nat)
    requires at + 4 <= |bs| && n < 0x1_0000_0000 && bs[at..at + 4] == PutUint32(n)
    ensures GetUint32(bs, at) == n
  {
  }

  lemma RecordLayout(a: Message, b: Message, c: Message, d: Message, e: Message)
    requires |a| == |b| == |c| == |d| == 4
    ensures var r := a + b + c + d + e;
            r[..4] == a && r[4..8] == b && r[8..12] == c && r[12..16] == d && r[16..] == e
  {
  }

  /** Every record fits a Noise transport message, and reads back as the fragment it is. */
  lemma RecordReadsBack(m: Message, i: nat)
    requires i < FragmentCount(|m|) && |m| <= MAX_SECURE_MESSAGE_BYTES
    ensures IsFragmentRecord(Record(m, i)) && |Record(m, i)| <= MAX_NOISE_PLAINTEXT_BYTES
    ensures GetUint32(Record(m, i), 4) == i
    ensures GetUint32(Record(m, i), 8) == FragmentCount(|m|)
    ensures GetUint32(Record(m, i), 12) == |m|
    ensures Record(m, i)[FRAGMENT_HEADER_BYTES..] == Chunk(m, i)
  {
    CountCovers(|m|);
    var r, c := Record(m, i), FragmentCount(|m|);
    RecordLayout(FRAGMENT_MAGIC, PutUint32(i), PutUint32(c), PutUint32(|m|), Chunk(m, i));
    GetPut(r, 4, i);
    GetPut(r, 8, c);
    GetPut(r, 12, |m|);
  }

  lemma {:induction false} ChunksConcat(m: Message, i: nat)
    requires i <= FragmentCount(|m|)
    ensures Concat(Chunks(m, i)) == m[..Offset(|m|, i)]
  {
    if i > 0 {
      ChunksConcat(m, i - 1);
      assert Chunks(m, i)[..i - 1] == Chunks(m, i - 1);
      assert Offset(|m|, i - 1) <= Offset(|m|, i);
    }
  }

  lemma ChunksRejoin(m: Message)
    ensures Concat(Chunks(m, FragmentCount(|m|))) == m
  {
    CountCovers(|m|);
    ChunksConcat(m, FragmentCount(|m|));
  }

  // ----- the bytes on the wire

  lemma LastIsShorter(length: nat)
    requires length > 0
    ensures 65503 * (FragmentCount(length) - 1) < length <= 65503 * FragmentCount(length)
  {
  }

  /** Four bytes as a number, most significant byte first. */
  function Number(a: int, b: int, c: int, d: int): int { ((a * 256 + b) * 256 + c) * 256 + d }

  lemma BytesAreANumber(bs: seq<byte>, at: nat)
    requires at + 4 <= |bs|
    ensures GetUint32(bs, at) == Number(bs[at], bs[at + 1], bs[at + 2], bs[at + 3])
  {
  }

  /** A chunk is the next 65503 bytes of the message, or what is left of it. */
  lemma ChunkIsSlice(m: Message, i: nat)
    requires i < FragmentCount(|m|)
    ensures 0 <= 65503 * i < |m| && (i + 1 < FragmentCount(|m|) ==> 65503 * (i + 1) <= |m|)
    ensures Chunk(m, i) == m[65503 * i..if i + 1 < FragmentCount(|m|) then 65503 * (i + 1) else |m|]
  {
  }

  /** The header of a fragment record byte by byte: the marker, then index, count and length. */
  lemma LayoutOnTheWire(m: Message, i: nat)
    requires |m| <= 32 * 1024 * 1024 && i < FragmentCount(|m|)
    ensures var v := Record(m, i);
            && |v| == 16 + |Chunk(m, i)| && v[0] == 0 && v[1] == 0x43 && v[2] == 0x45 && v[3] == 1
            && Number(v[4], v[5], v[6], v[7]) == i
            && Number(v[8], v[9], v[10], v[11]) == FragmentCount(|m|)
            && Number(v[12], v[13], v[14], v[15]) == |m|
            && v[16..] == Chunk(m, i)
  {
    var v := Record(m, i);
    RecordReadsBack(m, i);
    FragmentByItsBytes(v);
    BytesAreANumber(v, 4);
    BytesAreANumber(v, 8);
    BytesAreANumber(v, 12);
  }

  /** What counts as a fragment record, by its bytes. */
  lemma FragmentByItsBytes(v: Message)
    ensures IsFragmentRecord(v) <==> |v| >= 16 && v[0] == 0 && v[1] == 0x43 && v[2] == 0x45 && v[3] == 1
  {
    if |v| >= 16 { assert v[..4] == [v[0], v[1], v[2], v[3]]; }
  }

  /** A message of up to 65519 bytes goes whole, a longer one in fragments. */
  lemma SplitByLength(m: Message)
    ensures |m| <= 65519 ==> Split(m) == [m]
    ensures |m| > 65519 ==> |Split(m)| == FragmentCount(|m|) >= 2 && forall i :: 0 <= i < |Split(m)| ==> Split(m)[i] == Record(m, i)
  {
    if |m| > 0 { LastIsShorter(|m|); }
  }
}
