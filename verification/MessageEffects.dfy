/** What a call on a message buffer brings about, whatever the other side does meanwhile: a message that
fitted when it was sent is sent, the next message is received if there was one and there is room for it,
and either call ends if it is left alone.
*/
module MessageEffects {
  import opened Basics
  import opened Bytes
  import opened StreamBuffer
  import opened MessageRuns
  import Stream = StreamRuns
  import Effects = StreamEffects

  // ---------------------------------------------------------------- what a send does

  /** In s, the send of message m that began in s0 is going on or over. */
  ghost predicate Sending(s0: State, s: State, m: Message)
    requires Inv(s0)
  {
    && |s.stream.buf| == |s0.stream.buf| && |s.stream.delivered| >= |s0.stream.delivered|
    && (!s.stream.writer.Resting? ==>
          s.sent == s0.sent && s.stream.accepted == s0.stream.accepted && s.message == m)
    && (s.stream.writer.Measured? ==> s.stream.writer.since >= |s0.stream.delivered|)
    && (s.stream.writer.Resting? ==>
          || (s.sent == s0.sent + [m] && m != [])
          || (s.sent == s0.sent && (m == [] || Effects.Space(s0.stream) < |m| + LENGTH_BYTES)))
  }

  lemma FramedSize(m: Message)
    requires |m| + LENGTH_BYTES < TWO_32
    ensures |Framed(m)| == |m| + LENGTH_BYTES
  {}

  lemma SendDecides(s0: State, s: State, m: Message)
    requires Inv(s0) && Inv(s) && s.stream.writer.Measured? && Sending(s0, s, m)
    ensures Inv(s.(stream := Compare(s.stream))) && Sending(s0, s.(stream := Compare(s.stream)), m)
  {
    hide Stored, Framed, Stream.Pos;
    CompareKeepsInv(s);
    FramedSize(m);
    Stream.CountsFromIndices(|s.stream.accepted|, s.stream.writer.since, |s.stream.buf|);
  }

  lemma ReaderLeavesSender(s: State, op: Op)
    requires Inv(s) && Enabled(s, op) && !OfWriter(op)
    ensures var r := Step(s, op);
            && r.stream.writer == s.stream.writer && r.stream.accepted == s.stream.accepted
            && r.stream.buf == s.stream.buf
            && r.sent == s.sent && r.message == s.message && |r.stream.delivered| >= |s.stream.delivered|
  {
    hide Stored, Framed, Stream.Pos, FromLittleEndian, Stream.Inv, Sendable;
  }

  lemma SendingStep(s0: State, s: State, op: Op, m: Message)
    requires Inv(s0) && Inv(s) && Enabled(s, op) && !op.CallSend? && Sending(s0, s, m)
    ensures Sending(s0, Step(s, op), m)
  {
    hide Stored, Framed, Stream.Pos, FromLittleEndian, Sendable, Effects.Space, ReaderSees;
    if op.CompareTail? {
      SendDecides(s0, s, m);
    } else if !OfWriter(op) {
      ReaderLeavesSender(s, op);
    }
  }

  lemma {:induction false} SendingRun(s0: State, s: State, ops: seq<Op>, m: Message)
    requires Inv(s0) && Inv(s) && Legal(s, ops) && Sending(s0, s, m)
    requires forall op :: op in ops ==> !op.CallSend?
    ensures Sending(s0, Run(s, ops), m)
    decreases |ops|
  {
    hide Inv, Step, Enabled, Sending;
    if ops != [] {
      assert ops[0] in ops;
      SendingStep(s0, s, ops[0], m);
      SendingRun(s0, Step(s, ops[0]), ops[1..], m);
    }
  }

  /** Whatever the reader does meanwhile, a send that has ended has sent its message or nothing; it has sent
  it if it is not empty and fitted, with its length, when the send was made. */
  lemma FittingMessageIsSent(s: State, m: Message, ops: seq<Op>)
    requires Inv(s) && Enabled(s, CallSend(m)) && Legal(Step(s, CallSend(m)), ops)
    requires forall op :: op in ops ==> !op.CallSend?
    ensures var r := Run(Step(s, CallSend(m)), ops);
            && (r.sent == s.sent || (r.stream.writer.Resting? && m != [] && r.sent == s.sent + [m]))
            && (r.stream.writer.Resting? && m != [] && |m| + LENGTH_BYTES <= Effects.Space(s.stream) ==>
                  r.sent == s.sent + [m])
  {
    hide Inv, Run, Legal, Framed;
    SendingRun(s, Step(s, CallSend(m)), ops, m);
  }

  // ---------------------------------------------------------------- what a receive does

  /** There is a message, and room for it. */
  predicate Receivable(s: State, room: nat) {
    |s.received| < |s.sent| && |s.sent[|s.received|]| <= room
  }

  /** In s, the receive that began in s0 is going on or over. */
  ghost predicate Receiving(s0: State, s: State, room: nat) {
    var r := |s0.received|;
    && s0.sent <= s.sent
    && (!s.stream.reader.Waiting? ==> s.received == s0.received)
    && match s.stream.reader
       case Waiting => s.received == if Receivable(s0, room) then s0.received + [s0.sent[r]] else s0.received
       case Counted(capacity, _, _) => capacity == room && s.known == |s0.sent|
       case Emptying(_, _) =>
         && r < |s0.sent|
         && match s.stage case Prefix(capacity, _) => capacity == room case Body => |s0.sent[r]| <= room
  }

  lemma MessagesAreNotEmpty(ms: seq<Message>, r: nat)
    requires Sendable(ms) && r < |ms|
    ensures |ms[r]| > 0
  {}

  lemma CountDecides(s0: State, s: State, room: nat)
    requires Inv(s0) && Inv(s) && s.stream.reader.Counted? && Receiving(s0, s, room)
    ensures Receiving(s0, Count(s), room)
  {
    hide Stored, Stream.Pos;
    var t, r := |s.stream.delivered|, |s.received|;
    Stream.CountsFromIndices(s.stream.reader.upTo, t, |s.stream.buf|);
    assert s.received == s.sent[..r];
    if r < s.known {
      var seen := s.sent[..s.known];
      NextStored(seen, r);
      MessagesAreNotEmpty(seen, r);
      assert seen[..r] == s.received && seen[r] == s.sent[r];
    } else {
      assert s.sent[..s.known] == s.received;
    }
  }

  lemma ChooseDecides(s0: State, s: State, room: nat)
    requires Inv(s0) && Inv(s) && Enabled(s, ReadLength) && Receiving(s0, s, room)
    ensures Receiving(s0, Choose(s), room)
  {
    hide Stored, Stream.Pos, FromLittleEndian;
    var r := |s.received|;
    assert s.received == s.sent[..r];
    NextStored(s.sent, r);
    MessagesAreNotEmpty(s.sent, r);
  }

  lemma WriterLeavesReceiver(s: State, op: Op)
    requires Inv(s) && Enabled(s, op) && OfWriter(op)
    ensures var r := Step(s, op);
            && r.stream.reader == s.stream.reader && r.received == s.received && r.known == s.known
            && r.stage == s.stage && s.sent <= r.sent
  {
    hide Stored, Framed, Stream.Pos, FromLittleEndian, Stream.Inv, Sendable;
  }

  lemma ReceivingStep(s0: State, s: State, op: Op, room: nat)
    requires Inv(s0) && Inv(s) && Enabled(s, op) && !op.CallReceive? && Receiving(s0, s, room)
    ensures Receiving(s0, Step(s, op), room)
  {
    hide Stored, Framed, Stream.Pos, FromLittleEndian;
    match op
    case CountBytes => CountDecides(s0, s, room);
    case ReadLength => ChooseDecides(s0, s, room);
    case PublishTail =>
      DeliverKeepsInv(s);
      assert s.sent[..|s.received| + 1] == s.received + [s.sent[|s.received|]];
    case CopyOut =>
    case _ => WriterLeavesReceiver(s, op);
  }

  lemma {:induction false} ReceivingRun(s0: State, s: State, ops: seq<Op>, room: nat)
    requires Inv(s0) && Inv(s) && Legal(s, ops) && Receiving(s0, s, room)
    requires forall op :: op in ops ==> !op.CallReceive?
    ensures Receiving(s0, Run(s, ops), room)
    decreases |ops|
  {
    hide Inv, Step, Enabled, Receiving;
    if ops != [] {
      assert ops[0] in ops;
      ReceivingStep(s0, s, ops[0], room);
      ReceivingRun(s0, Step(s, ops[0]), ops[1..], room);
    }
  }

  /** Whatever the writer does meanwhile, a receive that has ended has given the next message if and only if
  there was one when it was made and there is room for it. */
  lemma NextMessageIsReceived(s: State, room: nat, ops: seq<Op>)
    requires Inv(s) && Enabled(s, CallReceive(room)) && Legal(Step(s, CallReceive(room)), ops)
    requires forall op :: op in ops ==> !op.CallReceive?
    ensures var r := Run(Step(s, CallReceive(room)), ops);
            r.received == if r.stream.reader.Waiting? && Receivable(s, room) then s.received + [s.sent[|s.received|]]
                          else s.received
  {
    hide Inv, Run, Legal, Stored;
    ReceivingRun(s, Step(s, CallReceive(room)), ops, room);
  }

  // ---------------------------------------------------------------- calls end

  function NextOfWriter(s: State): Op {
    match s.stream.writer
    case Sampling(_) => ReadOriginalTail
    case Sampled(_, _) => ReadTail
    case Measured(_, _, _, _) => CompareTail
    case Filling(data, done) => if done < |data| then CopyIn else PublishHead
    case Resting => PublishHead
  }

  lemma WriterGoesOn(s: State)
    requires Inv(s) && !s.stream.writer.Resting?
    ensures Enabled(s, NextOfWriter(s)) && OfWriter(NextOfWriter(s)) && !NextOfWriter(s).CallSend?
    ensures var r, p, q := Step(s, NextOfWriter(s)), Effects.Phase(s.stream), Effects.Left(s.stream);
            && (Effects.Phase(r.stream) < p || (Effects.Phase(r.stream) == p && 0 <= Effects.Left(r.stream) < q))
            && r.stream.reader == s.stream.reader && r.received == s.received
  {
    hide Stored, Framed, Stream.Pos, FromLittleEndian, BytesIn, Spaces, Sendable;
  }

  /** A send that is left alone comes to its end, wherever it stands. */
  lemma {:induction false} SendEnds(s: State) returns (ops: seq<Op>)
    requires Inv(s)
    ensures Legal(s, ops) && forall op :: op in ops ==> OfWriter(op) && !op.CallSend?
    ensures var r := Run(s, ops);
            r.stream.writer.Resting? && r.stream.reader == s.stream.reader && r.received == s.received
    decreases Effects.Phase(s.stream), Effects.Left(s.stream)
  {
    hide Inv, Step, Enabled, Effects.Phase, Effects.Left, NextOfWriter, OfWriter;
    if s.stream.writer.Resting? {
      ops := [];
    } else {
      WriterGoesOn(s);
      var rest := SendEnds(Step(s, NextOfWriter(s)));
      ops := [NextOfWriter(s)] + rest;
      assert ops[1..] == rest;
    }
  }

  /** How far the reader is from the end of its call. */
  function Distance(s: State): nat {
    match s.stream.reader
    case Waiting => 0
    case Counted(_, _, _) => 3
    case Emptying(_, _) => if s.stage.Prefix? then 2 else 1
  }

  function Missing(s: State): int {
    if s.stream.reader.Emptying? then s.stream.reader.count - |s.stream.reader.got| else 0
  }

  function NextOfReader(s: State): Op {
    match s.stream.reader
    case Waiting => PublishTail
    case Counted(_, _, _) => CountBytes
    case Emptying(count, got) =>
      if |got| < count then CopyOut else if s.stage.Prefix? then ReadLength else PublishTail
  }

  lemma ReaderGoesOn(s: State)
    requires Inv(s) && !s.stream.reader.Waiting?
    ensures Enabled(s, NextOfReader(s)) && !OfWriter(NextOfReader(s)) && !NextOfReader(s).CallReceive?
    ensures var r := Step(s, NextOfReader(s));
            && (Distance(r) < Distance(s) || (Distance(r) == Distance(s) && 0 <= Missing(r) < Missing(s)))
            && r.stream.writer == s.stream.writer && r.sent == s.sent
  {
    hide Stored, Framed, Stream.Pos, FromLittleEndian, Sendable;
  }

  /** So does a receive. */
  lemma {:induction false} ReceiveEnds(s: State) returns (ops: seq<Op>)
    requires Inv(s)
    ensures Legal(s, ops) && forall op :: op in ops ==> !OfWriter(op) && !op.CallReceive?
    ensures var r := Run(s, ops); r.stream.reader.Waiting? && r.stream.writer == s.stream.writer && r.sent == s.sent
    decreases Distance(s), Missing(s)
  {
    hide Inv, Step, Enabled, Distance, Missing, NextOfReader, OfWriter;
    if s.stream.reader.Waiting? {
      ops := [];
    } else {
      ReaderGoesOn(s);
      var rest := ReceiveEnds(Step(s, NextOfReader(s)));
      ops := [NextOfReader(s)] + rest;
      assert ops[1..] == rest;
    }
  }
}
