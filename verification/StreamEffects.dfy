/** What a call on a stream buffer brings about, whatever the other side does meanwhile: a send takes what
fitted when it was made, a receive gives what was there, and either ends if it is left alone.
*/
module StreamEffects {
  import opened Bytes
  import opened RingWrites
  import opened StreamBuffer
  import opened StreamRuns

  function Min(a: nat, b: nat): nat { if a < b then a else b }

  ghost function Space(s: State): nat
    requires Inv(s)
  {
    |s.buf| - 1 - (|s.accepted| - |s.delivered|)
  }

  // ---------------------------------------------------------------- what a send takes

  ghost predicate Took(s0: State, s: State, data: seq<Byte>, k: nat)
    requires Inv(s0)
  {
    Min(|data|, Space(s0)) <= k <= |data| && s.accepted == s0.accepted + data[..k]
  }

  /** In s, the send of the data that began in s0 is going on or over. */
  ghost predicate Sending(s0: State, s: State, data: seq<Byte>)
    requires Inv(s0)
  {
    && |s.buf| == |s0.buf| && |s.delivered| >= |s0.delivered|
    && (!s.writer.Resting? ==> s.accepted == s0.accepted)
    && match s.writer
       case Resting => exists k: nat :: Took(s0, s, data, k)
       case Sampling(d) => d == data
       case Sampled(d, _) => d == data
       case Measured(d, _, _, since) => d == data && since >= |s0.delivered|
       case Filling(d, _) => Min(|data|, Space(s0)) <= |d| <= |data| && d == data[..|d|]
  }

  lemma SendDecides(s0: State, s: State, data: seq<Byte>)
    requires Inv(s0) && Inv(s) && s.writer.Measured? && Sending(s0, s, data)
    ensures Inv(Compare(s)) && Sending(s0, Compare(s), data)
  {
    hide Pos, Ring;
    CompareKeepsInv(s);
    CountsFromIndices(|s.accepted|, s.writer.since, |s.buf|);
    var r := Compare(s);
    if r.writer.Resting? {
      assert data[..0] == [];
      assert Took(s0, r, data, 0);
    }
  }

  lemma SendingStep(s0: State, s: State, op: Op, data: seq<Byte>)
    requires Inv(s0) && Inv(s) && Enabled(s, op) && !op.CallSend? && Sending(s0, s, data)
    ensures Sending(s0, Step(s, op), data)
  {
    hide Pos, Ring;
    if op.CompareTail? {
      SendDecides(s0, s, data);
    } else if op.PublishHead? {
      assert Took(s0, Step(s, op), data, |s.writer.data|);
    } else if s.writer.Resting? {
      var k: nat :| Took(s0, s, data, k);
      assert Took(s0, Step(s, op), data, k);
    }
  }

  lemma {:induction false} SendingRun(s0: State, s: State, ops: seq<Op>, data: seq<Byte>)
    requires Inv(s0) && Inv(s) && Legal(s, ops) && Sending(s0, s, data)
    requires forall op :: op in ops ==> !op.CallSend?
    ensures Sending(s0, Run(s, ops), data)
    decreases |ops|
  {
    hide Inv, Step, Enabled, Sending;
    if ops != [] {
      assert ops[0] in ops;
      SendingStep(s0, s, ops[0], data);
      SendingRun(s0, Step(s, ops[0]), ops[1..], data);
    }
  }

  /** Whatever the reader does meanwhile, a send that has ended has taken the first bytes of its data: as
  many as fitted when it was made, or more. Until then it has taken none. */
  lemma SendTakesWhatFits(s: State, data: seq<Byte>, ops: seq<Op>)
    requires Inv(s) && Enabled(s, CallSend(data)) && Legal(Step(s, CallSend(data)), ops)
    requires forall op :: op in ops ==> !op.CallSend?
    ensures var r := Run(Step(s, CallSend(data)), ops);
            if r.writer.Resting? then
              exists k: nat :: Min(|data|, Space(s)) <= k <= |data| && r.accepted == s.accepted + data[..k]
            else r.accepted == s.accepted
  {
    hide Inv, Run, Legal;
    var r := Run(Step(s, CallSend(data)), ops);
    SendingRun(s, Step(s, CallSend(data)), ops, data);
    if r.writer.Resting? {
      var k: nat :| Took(s, r, data, k);
      assert Min(|data|, Space(s)) <= k <= |data| && r.accepted == s.accepted + data[..k];
    }
  }

  // ---------------------------------------------------------------- what a receive gives

  /** In s, the receive that began in s0 is going on or over. */
  ghost predicate Receiving(s0: State, s: State, room: nat)
    requires Inv(s0)
  {
    var c := Min(room, |s0.accepted| - |s0.delivered|);
    && |s.buf| == |s0.buf| && s0.accepted <= s.accepted
    && (!s.reader.Waiting? ==> s.delivered == s0.delivered)
    && match s.reader
       case Waiting => s.delivered == s0.accepted[..|s0.delivered| + c]
       case Counted(capacity, _, upTo) => capacity == room && upTo == |s0.accepted|
       case Emptying(count, _) => count == c
  }

  lemma ReceiveDecides(s0: State, s: State, room: nat)
    requires Inv(s0) && Inv(s) && s.reader.Counted? && Receiving(s0, s, room)
    ensures Inv(Empty(s)) && Receiving(s0, Empty(s), room)
  {
    hide Pos, Ring;
    CopyOutKeepsInv(s);
    CountsFromIndices(|s0.accepted|, |s.delivered|, |s.buf|);
  }

  lemma ReceivingStep(s0: State, s: State, op: Op, room: nat)
    requires Inv(s0) && Inv(s) && Enabled(s, op) && !op.CallReceive? && Receiving(s0, s, room)
    ensures Receiving(s0, Step(s, op), room)
  {
    hide Pos, Ring;
    if op.CopyOut? && s.reader.Counted? {
      ReceiveDecides(s0, s, room);
    } else if op.PublishTail? {
      var t := |s0.delivered|;
      assert s0.accepted[..t] + s0.accepted[t..t + s.reader.count] == s0.accepted[..t + s.reader.count];
    }
  }

  lemma {:induction false} ReceivingRun(s0: State, s: State, ops: seq<Op>, room: nat)
    requires Inv(s0) && Inv(s) && Legal(s, ops) && Receiving(s0, s, room)
    requires forall op :: op in ops ==> !op.CallReceive?
    ensures Receiving(s0, Run(s, ops), room)
    decreases |ops|
  {
    hide Inv, Step, Enabled, Receiving;
    if ops != [] {
      assert ops[0] in ops;
      ReceivingStep(s0, s, ops[0], room);
      ReceivingRun(s0, Step(s, ops[0]), ops[1..], room);
    }
  }

  /** Whatever the writer does meanwhile, a receive that has ended has given just the bytes that were there
  when it was made, as many as it had room for. Until then it has given none. */
  lemma ReceiveGivesWhatIsThere(s: State, room: nat, ops: seq<Op>)
    requires Inv(s) && Enabled(s, CallReceive(room)) && Legal(Step(s, CallReceive(room)), ops)
    requires forall op :: op in ops ==> !op.CallReceive?
    ensures var r := Run(Step(s, CallReceive(room)), ops);
            r.delivered == if r.reader.Waiting? then s.accepted[..Min(|s.accepted|, |s.delivered| + room)]
                           else s.delivered
  {
    hide Inv, Run, Legal;
    ReceivingRun(s, Step(s, CallReceive(room)), ops, room);
  }

  // ---------------------------------------------------------------- calls end

  /** How far the writer is from the end of its call, if the reader does nothing. */
  function Phase(s: State): nat {
    match s.writer
    case Resting => 0
    case Filling(_, _) => 1
    case Measured(_, first, _, _) => if first == s.tail then 2 else 5
    case Sampled(_, first) => if first == s.tail then 3 else 6
    case Sampling(_) => 4
  }

  function Left(s: State): int { if s.writer.Filling? then |s.writer.data| - s.writer.done else 0 }

  function NextOfWriter(s: State): Op {
    match s.writer
    case Sampling(_) => ReadOriginalTail
    case Sampled(_, _) => ReadTail
    case Measured(_, _, _, _) => CompareTail
    case Filling(data, done) => if done < |data| then CopyIn else PublishHead
    case Resting => PublishHead
  }

  lemma WriterGoesOn(s: State)
    requires Inv(s) && !s.writer.Resting?
    ensures Enabled(s, NextOfWriter(s)) && OfWriter(NextOfWriter(s)) && !NextOfWriter(s).CallSend? && Left(s) >= 0
    ensures var r := Step(s, NextOfWriter(s));
            && (Phase(r) < Phase(s) || (Phase(r) == Phase(s) && 0 <= Left(r) < Left(s)))
            && r.reader == s.reader && r.delivered == s.delivered
  {
    hide Pos, Ring, BytesIn, Spaces;
  }

  /** A send that is left alone comes to its end, wherever it stands. */
  lemma {:induction false} SendEnds(s: State) returns (ops: seq<Op>)
    requires Inv(s)
    ensures Legal(s, ops) && forall op :: op in ops ==> OfWriter(op) && !op.CallSend?
    ensures var r := Run(s, ops); r.writer.Resting? && r.reader == s.reader && r.delivered == s.delivered
    decreases Phase(s), Left(s)
  {
    hide Inv, Step, Enabled, Phase, Left, NextOfWriter, OfWriter;
    if s.writer.Resting? {
      ops := [];
    } else {
      WriterGoesOn(s);
      var rest := SendEnds(Step(s, NextOfWriter(s)));
      ops := [NextOfWriter(s)] + rest;
      assert ops[1..] == rest;
    }
  }

  function Ahead(s: State): int {
    match s.reader
    case Waiting => 0
    case Counted(_, _, _) => |s.buf| + 2
    case Emptying(count, got) => count - |got| + 1
  }

  lemma ReaderGoesOn(s: State)
    requires Inv(s) && !s.reader.Waiting?
    ensures var op := if Enabled(s, PublishTail) then PublishTail else CopyOut;
            && Enabled(s, op) && 0 <= Ahead(Step(s, op)) < Ahead(s)
            && Step(s, op).writer == s.writer && Step(s, op).accepted == s.accepted
  {
    hide Pos, Ring;
  }

  /** So does a receive. */
  lemma {:induction false} ReceiveEnds(s: State) returns (ops: seq<Op>)
    requires Inv(s)
    ensures Legal(s, ops) && forall op :: op in ops ==> op.CopyOut? || op.PublishTail?
    ensures var r := Run(s, ops); r.reader.Waiting? && r.writer == s.writer && r.accepted == s.accepted
    decreases Ahead(s)
  {
    hide Inv, Step, Enabled, Ahead;
    if s.reader.Waiting? {
      ops := [];
    } else {
      ReaderGoesOn(s);
      var op := if Enabled(s, PublishTail) then PublishTail else CopyOut;
      var rest := ReceiveEnds(Step(s, op));
      ops := [op] + rest;
      assert ops[1..] == rest;
    }
  }
}
