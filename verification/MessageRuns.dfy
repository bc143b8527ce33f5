/** One writer and one reader on a message buffer, interleaved at the level of module StreamRuns: index
reads, byte copies and index publication.
*/
module MessageRuns {
  import opened Basics
  import opened Bytes
  import opened RingWrites
  import opened StreamBuffer
  import Stream = StreamRuns

  type Message = seq<Byte>

  /** What the reader is copying out: the length of a message, or its bytes behind that. */
  datatype Stage = Prefix(capacity: nat, available: nat) | Body

  datatype State = State(
    stream: Stream.State,
    sent: seq<Message>,      // the messages published by the writer so far
    received: seq<Message>,  // the messages handed to the reader so far
    message: Message,        // the message the writer is sending
    known: nat,              // how many messages had been published when the reader looked
    stage: Stage)

  // ---------------------------------------------------------------- messages in the stream

  lemma {:induction false} StoredJoins(a: seq<Message>, b: seq<Message>)
    requires Sendable(a) && Sendable(b)
    ensures Sendable(a + b) && Stored(a + b) == Stored(a) + Stored(b)
    decreases |a|
  {
    hide Framed;
    if a == [] {
      assert a + b == b;
    } else {
      StoredJoins(a[1..], b);
      assert (a + b)[1..] == a[1..] + b;
      assert Framed(a[0]) + (Stored(a[1..]) + Stored(b)) == Framed(a[0]) + Stored(a[1..]) + Stored(b);
    }
  }

  /** Where message number r is in the stream. */
  lemma NextStored(ms: seq<Message>, r: nat)
    requires Sendable(ms) && r < |ms|
    ensures Sendable(ms[..r]) && Sendable(ms[..r + 1]) && Sendable(ms[r..])
    ensures var b, t, k := Stored(ms), |Stored(ms[..r])|, |ms[r]|;
            && t + LENGTH_BYTES + k <= |b| && b[t..] == Stored(ms[r..])
            && FromLittleEndian(b[t..t + LENGTH_BYTES]) == k
            && b[t + LENGTH_BYTES..t + LENGTH_BYTES + k] == ms[r]
            && Stored(ms[..r + 1]) == b[..t + LENGTH_BYTES + k]
  {
    hide Stored, FromLittleEndian;
    var rest := ms[r..];
    StoredJoins(ms[..r], rest);
    assert ms == ms[..r] + rest;
    FirstMessage(rest);
    StoredJoins(ms[..r + 1], ms[r + 1..]);
    assert ms == ms[..r + 1] + ms[r + 1..] && rest[1..] == ms[r + 1..];
    var b, t, k := Stored(ms), |Stored(ms[..r])|, |ms[r]|;
    assert b[t..t + LENGTH_BYTES] == Stored(rest)[..LENGTH_BYTES];
    assert b[t + LENGTH_BYTES..t + LENGTH_BYTES + k] == Stored(rest)[LENGTH_BYTES..LENGTH_BYTES + k];
    assert |Stored(ms[..r + 1])| == t + LENGTH_BYTES + k;
  }

  // ---------------------------------------------------------------- invariant

  ghost predicate WriterSends(s: State) {
    s.stream.writer.Resting? || (|s.message| + LENGTH_BYTES < TWO_32 && s.stream.writer.data == Framed(s.message))
  }

  /** The reader is at the start of a message and sees whole messages only. */
  ghost predicate ReaderSees(s: State)
    requires Sendable(s.sent)
  {
    var r := |s.received|;
    match s.stream.reader
    case Waiting => true
    case Counted(_, _, upTo) =>
      r <= s.known <= |s.sent| && Sendable(s.sent[..s.known]) && upTo == |Stored(s.sent[..s.known])|
    case Emptying(count, _) =>
      && r < |s.sent|
      && match s.stage
         case Prefix(_, available) => count == LENGTH_BYTES && LENGTH_BYTES + |s.sent[r]| <= available
         case Body => count == LENGTH_BYTES + |s.sent[r]|
  }

  ghost predicate Inv(s: State) {
    && Stream.Inv(s.stream) && Sendable(s.sent) && Sendable(s.received) && s.received <= s.sent
    && s.stream.accepted == Stored(s.sent) && s.stream.delivered == Stored(s.received)
    && WriterSends(s) && ReaderSees(s)
  }

  // ---------------------------------------------------------------- steps

  datatype Op =
    | CallSend(m: Message)
    | ReadOriginalTail
    | ReadTail
    | CompareTail       // the end of the loop, and the decision to write all or nothing
    | CopyIn
    | PublishHead       // unless the message is empty
    | CallReceive(room: nat)
    | CountBytes        // prvBytesInBuffer, and whether it is more than a length
    | CopyOut
    | ReadLength        // the length has been read: the decision to go on or to leave the message
    | PublishTail

  predicate Enabled(s: State, op: Op) {
    match op
    case CallSend(m) => s.stream.writer.Resting? && |m| + LENGTH_BYTES < TWO_32
    case ReadOriginalTail => s.stream.writer.Sampling?
    case ReadTail => s.stream.writer.Sampled?
    case CompareTail => s.stream.writer.Measured?
    case CopyIn => Stream.Enabled(s.stream, Stream.CopyIn)
    case PublishHead => Stream.Enabled(s.stream, Stream.PublishHead)
    case CallReceive(_) => s.stream.reader.Waiting?
    case CountBytes => s.stream.reader.Counted?
    case CopyOut => s.stream.reader.Emptying? && |s.stream.reader.got| < s.stream.reader.count
    case ReadLength => s.stream.reader.Emptying? && |s.stream.reader.got| == s.stream.reader.count && s.stage.Prefix?
    case PublishTail => s.stream.reader.Emptying? && |s.stream.reader.got| == s.stream.reader.count && s.stage.Body?
  }

  predicate OfWriter(op: Op) {
    op.CallSend? || op.ReadOriginalTail? || op.ReadTail? || op.CompareTail? || op.CopyIn? || op.PublishHead?
  }

  /** All of the message, with its length, or nothing. */
  function Compare(t: Stream.State): Stream.State
    requires t.writer.Measured? && t.head < |t.buf| && t.writer.second < |t.buf|
  {
    if t.tail == t.writer.first && Spaces(t.head, t.writer.second, |t.buf|) < |t.writer.data| then
      t.(writer := Stream.Resting)
    else
      Stream.Compare(t)
  }

  lemma CompareKeepsInv(s: State)
    requires Inv(s) && s.stream.writer.Measured?
    ensures Inv(s.(stream := Compare(s.stream)))
  {
    hide Stored, Framed, Stream.Pos;
    var w := s.stream.writer;
    Stream.CompareKeepsInv(s.stream);
    assert w.data[..|w.data|] == w.data;
  }

  function Publish(s: State): State
    requires s.stream.writer.Filling? && |s.stream.writer.data| <= |s.stream.buf| && s.stream.head < |s.stream.buf|
  {
    if s.message == [] then
      s.(stream := s.stream.(writer := Stream.Resting))
    else
      s.(stream := Stream.PublishedHead(s.stream), sent := s.sent + [s.message])
  }

  lemma PublishKeepsInv(s: State)
    requires Inv(s) && s.stream.writer.Filling? && s.stream.writer.done == |s.stream.writer.data|
    ensures Inv(Publish(s))
  {
    hide Stored, Framed, Stream.Pos;
    if s.message != [] {
      Stream.PublishHeadKeepsInv(s.stream);
      StoredAppends(s.sent, s.message);
      if s.stream.reader.Counted? { assert (s.sent + [s.message])[..s.known] == s.sent[..s.known]; }
    }
  }

  function Count(s: State): State
    requires s.stream.reader.Counted? && s.stream.tail < |s.stream.buf| && s.stream.reader.seen < |s.stream.buf|
  {
    var c := s.stream.reader;
    var available := BytesIn(c.seen, s.stream.tail, |s.stream.buf|);
    if available > LENGTH_BYTES then
      s.(stream := s.stream.(reader := Stream.Emptying(LENGTH_BYTES, [])), stage := Prefix(c.capacity, available))
    else
      s.(stream := s.stream.(reader := Stream.Waiting))
  }

  /** If there is more than a length, there is a whole message. */
  lemma CountKeepsInv(s: State)
    requires Inv(s) && s.stream.reader.Counted?
    ensures Inv(Count(s))
  {
    hide Stored, Stream.Pos;
    var t, r := |s.stream.delivered|, |s.received|;
    Stream.CountsFromIndices(s.stream.reader.upTo, t, |s.stream.buf|);
    assert s.received == s.sent[..r];
    if r < s.known {
      var seen := s.sent[..s.known];
      NextStored(seen, r);
      assert seen[..r] == s.received && seen[r] == s.sent[r];
    } else {
      assert s.sent[..s.known] == s.received;
    }
  }

  /** prvReadMessageFromBuffer, between its two reads. */
  function Choose(s: State): State
    requires s.stream.reader.Emptying? && |s.stream.reader.got| == LENGTH_BYTES && s.stage.Prefix?
    requires s.stage.available >= LENGTH_BYTES
  {
    var n := FromLittleEndian(s.stream.reader.got);
    var wanted := if n > s.stage.capacity then 0 else n;
    var left := s.stage.available - LENGTH_BYTES;
    var count := if wanted < left then wanted else left;
    if count == 0 then
      s.(stream := s.stream.(reader := Stream.Waiting))
    else
      s.(stream := s.stream.(reader := s.stream.reader.(count := LENGTH_BYTES + count)), stage := Body)
  }

  lemma ChooseKeepsInv(s: State)
    requires Inv(s) && Enabled(s, ReadLength)
    ensures Inv(Choose(s))
  {
    hide Stored, Stream.Pos, FromLittleEndian;
    var r := |s.received|;
    assert s.received == s.sent[..r];
    NextStored(s.sent, r);
  }

  function Deliver(s: State): State
    requires s.stream.reader.Emptying? && LENGTH_BYTES <= |s.stream.reader.got|
    requires s.stream.reader.count <= |s.stream.buf| && s.stream.tail < |s.stream.buf|
  {
    s.(stream := Stream.PublishedTail(s.stream), received := s.received + [s.stream.reader.got[LENGTH_BYTES..]])
  }

  lemma DeliverKeepsInv(s: State)
    requires Inv(s) && Enabled(s, PublishTail)
    ensures Inv(Deliver(s)) && Deliver(s).received == s.sent[..|s.received| + 1]
  {
    hide Stored, Stream.Pos, FromLittleEndian;
    var r, t, got := |s.received|, |s.stream.delivered|, s.stream.reader.got;
    assert s.received == s.sent[..r];
    NextStored(s.sent, r);
    Stream.PublishTailKeepsInv(s.stream);
    assert got[LENGTH_BYTES..] == s.sent[r];
    assert s.sent[..r + 1] == s.received + [s.sent[r]];
  }

  ghost function WriterStep(s: State, op: Op): (r: State)
    requires Inv(s) && Enabled(s, op) && OfWriter(op)
    ensures Inv(r)
  {
    hide Stored, Framed;
    match op
    case CallSend(m) => s.(stream := Stream.Step(s.stream, Stream.CallSend(Framed(m))), message := m)
    case ReadOriginalTail => s.(stream := Stream.Step(s.stream, Stream.ReadOriginalTail))
    case ReadTail => s.(stream := Stream.Step(s.stream, Stream.ReadTail))
    case CompareTail => CompareKeepsInv(s); s.(stream := Compare(s.stream))
    case CopyIn => s.(stream := Stream.Step(s.stream, Stream.CopyIn))
    case PublishHead => PublishKeepsInv(s); Publish(s)
  }

  ghost function ReaderStep(s: State, op: Op): (r: State)
    requires Inv(s) && Enabled(s, op) && !OfWriter(op)
    ensures Inv(r)
  {
    match op
    case CallReceive(room) =>
      assert s.sent[..|s.sent|] == s.sent;
      s.(stream := Stream.Step(s.stream, Stream.CallReceive(room)), known := |s.sent|)
    case CountBytes => CountKeepsInv(s); Count(s)
    case CopyOut => s.(stream := Stream.Step(s.stream, Stream.CopyOut))
    case ReadLength => ChooseKeepsInv(s); Choose(s)
    case PublishTail => DeliverKeepsInv(s); Deliver(s)
  }

  ghost function Step(s: State, op: Op): (r: State)
    requires Inv(s) && Enabled(s, op)
    ensures Inv(r)
  {
    if OfWriter(op) then WriterStep(s, op) else ReaderStep(s, op)
  }

  // ---------------------------------------------------------------- runs

  ghost predicate Legal(s: State, ops: seq<Op>)
    requires Inv(s)
    decreases |ops|
  {
    ops == [] || (Enabled(s, ops[0]) && Legal(Step(s, ops[0]), ops[1..]))
  }

  ghost function Run(s: State, ops: seq<Op>): (r: State)
    requires Inv(s) && Legal(s, ops)
    ensures Inv(r)
    decreases |ops|
  {
    if ops == [] then s else Run(Step(s, ops[0]), ops[1..])
  }

  ghost predicate Start(s: State): (start: bool)
    ensures start ==> Inv(s)
  {
    Stream.Start(s.stream) && s == State(s.stream, [], [], [], 0, Body)
  }

  /** After every interleaving the messages received are the first of those sent, each of them whole,
  and the bytes in the ring are the others, each behind its length. */
  lemma MessagesArriveWhole(s: State, ops: seq<Op>)
    requires Start(s) && Legal(s, ops)
    ensures var r := Run(s, ops);
            && r.received <= r.sent && r.stream.head < |r.stream.buf| && r.stream.tail < |r.stream.buf|
            && Sendable(r.sent[|r.received|..])
            && Stored(r.sent[|r.received|..]) ==
               Ring(r.stream.buf, r.stream.tail, BytesIn(r.stream.head, r.stream.tail, |r.stream.buf|))
  {
    hide Run, Legal, Stored, Stream.Pos, Ring;
    var r := Run(s, ops);
    Stream.RestIsInRing(r.stream);
    StoredJoins(r.received, r.sent[|r.received|..]);
    assert r.sent == r.received + r.sent[|r.received|..];
  }
}
