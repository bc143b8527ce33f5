/** One writer and one reader on a stream buffer, interleaved at the level of index reads, byte
copies and index publication. Memory is sequentially consistent and the buffer is not reset.
*/
module StreamRuns {
  import opened Bytes
  import opened RingWrites
  import opened StreamBuffer

  /** Where the writer is in xStreamBufferSend. */
  datatype Writer =
    | Resting
    | Sampling(data: seq<Byte>)                 // before the loop of xStreamBufferSpacesAvailable
    | Sampled(data: seq<Byte>, first: nat)      // xOriginalTail has been read
    | Measured(data: seq<Byte>, first: nat, second: nat, since: nat) // xTail has been read for xSpace
    | Filling(data: seq<Byte>, done: nat)       // inside the copies of prvWriteBytesToBuffer

  /** Where the reader is in xStreamBufferReceive. */
  datatype Reader =
    | Waiting
    | Counted(capacity: nat, seen: nat, upTo: nat) // xHead has been read by prvBytesInBuffer
    | Emptying(count: nat, got: seq<Byte>)         // inside the copies of prvReadBytesFromBuffer

  datatype State = State(
    buf: seq<Byte>,
    head: nat,
    tail: nat,
    writer: Writer,
    reader: Reader,
    accepted: seq<Byte>,   // all the bytes published by the writer so far
    delivered: seq<Byte>)  // all the bytes handed to the reader so far

  // ---------------------------------------------------------------- positions and counts

  /** The ring position of byte number x of the stream. */
  function Pos(x: nat, n: nat): (p: nat)
    requires n > 0
    ensures p < n
  {
    x % n
  }

  lemma PosMoves(x: nat, i: nat, n: nat)
    requires 0 < n && i <= n
    ensures At(Pos(x, n), i, n) == Pos(x + i, n)
  {
    var q, r := x / n, x % n;
    assert x == q * n + r;
    if r + i < n {
      QuotientAndRest(x + i, n, q, r + i);
    } else if r + i < 2 * n {
      assert (q + 1) * n == q * n + n;
      QuotientAndRest(x + i, n, q + 1, r + i - n);
    }
  }

  lemma QuotientAndRest(x: nat, n: nat, q: nat, r: nat)
    requires x == q * n + r && r < n
    ensures x % n == r
  {
    var d := x / n - q;
    assert x == (x / n) * n + x % n;
    assert d * n == (x / n) * n - q * n;
    assert d * n + x % n == r;
    assert d >= 1 ==> d * n >= n;
    assert d <= -1 ==> d * n + n <= 0;
  }

  /** Bytes less than a lap apart are in different places. */
  lemma PosApart(j: nat, k: nat, n: nat)
    requires 0 < n && j < k < j + n
    ensures Pos(j, n) != Pos(k, n)
  {
    PosMoves(j, k - j, n);
  }

  lemma CountsFromIndices(h: nat, t: nat, n: nat)
    requires 0 < n && t <= h < t + n
    ensures BytesIn(Pos(h, n), Pos(t, n), n) == h - t && Spaces(Pos(h, n), Pos(t, n), n) == n - 1 - (h - t)
  {
    PosMoves(t, h - t, n);
  }

  // ---------------------------------------------------------------- invariant

  /** The indices are the counts of bytes published, and the unread bytes are in the ring. */
  ghost predicate Unread(s: State) {
    var n, h, t := |s.buf|, |s.accepted|, |s.delivered|;
    && 0 < n && t <= h < t + n && s.head == Pos(h, n) && s.tail == Pos(t, n)
    && (forall j :: t <= j < h ==> s.buf[Pos(j, n)] == s.accepted[j])
  }

  ghost predicate WriterOk(s: State)
    requires Unread(s)
  {
    var n, h, t := |s.buf|, |s.accepted|, |s.delivered|;
    match s.writer
    case Measured(_, _, second, since) => second == Pos(since, n) && since <= t && h < since + n
    case Filling(data, done) =>
      && done <= |data| && h + |data| < t + n
      && (forall i :: 0 <= i < done ==> s.buf[Pos(h + i, n)] == data[i])
    case _ => true
  }

  ghost predicate ReaderOk(s: State)
    requires Unread(s)
  {
    var n, h, t := |s.buf|, |s.accepted|, |s.delivered|;
    && s.delivered == s.accepted[..t]
    && match s.reader
       case Waiting => true
       case Counted(_, seen, upTo) => seen == Pos(upTo, n) && t <= upTo <= h
       case Emptying(count, got) => |got| <= count && t + count <= h && got == s.accepted[t..t + |got|]
  }

  ghost predicate Inv(s: State) {
    Unread(s) && WriterOk(s) && ReaderOk(s)
  }

  // ---------------------------------------------------------------- steps of the writer

  datatype Op =
    | CallSend(input: seq<Byte>)
    | ReadOriginalTail
    | ReadTail
    | CompareTail      // the end of the loop, and the decision how much to write
    | CopyIn
    | PublishHead
    | CallReceive(room: nat)
    | CopyOut
    | PublishTail

  predicate Enabled(s: State, op: Op) {
    match op
    case CallSend(_) => s.writer.Resting?
    case ReadOriginalTail => s.writer.Sampling?
    case ReadTail => s.writer.Sampled?
    case CompareTail => s.writer.Measured?
    case CopyIn => s.writer.Filling? && s.writer.done < |s.writer.data|
    case PublishHead => s.writer.Filling? && s.writer.done == |s.writer.data|
    case CallReceive(_) => s.reader.Waiting?
    case CopyOut => s.reader.Counted? || (s.reader.Emptying? && |s.reader.got| < s.reader.count)
    case PublishTail => s.reader.Emptying? && |s.reader.got| == s.reader.count
  }

  /** Take as much of the data as the space allows; nothing is written if that is none of it. */
  function BeginWrite(data: seq<Byte>, space: nat): Writer {
    var count := if |data| < space then |data| else space;
    if count == 0 then Resting else Filling(data[..count], 0)
  }

  function BeginRead(capacity: nat, available: nat): Reader {
    var count := if capacity < available then capacity else available;
    if count == 0 then Waiting else Emptying(count, [])
  }

  predicate OfWriter(op: Op) { !op.CallReceive? && !op.CopyOut? && !op.PublishTail? }

  ghost function WriterStep(s: State, op: Op): (r: State)
    requires Inv(s) && Enabled(s, op) && OfWriter(op)
    ensures Inv(r)
  {
    match op
    case CallSend(input) => s.(writer := Sampling(input))
    case ReadOriginalTail => s.(writer := Sampled(s.writer.data, s.tail))
    case ReadTail => s.(writer := Measured(s.writer.data, s.writer.first, s.tail, |s.delivered|))
    case CompareTail => CompareKeepsInv(s); Compare(s)
    case CopyIn => CopyInKeepsInv(s); Fill(s)
    case PublishHead => PublishHeadKeepsInv(s); PublishedHead(s)
  }

  ghost function ReaderStep(s: State, op: Op): (r: State)
    requires Inv(s) && Enabled(s, op) && !OfWriter(op)
    ensures Inv(r)
  {
    match op
    case CallReceive(room) => s.(reader := Counted(room, s.head, |s.accepted|))
    case CopyOut => CopyOutKeepsInv(s); Empty(s)
    case PublishTail => PublishTailKeepsInv(s); PublishedTail(s)
  }

  ghost function Step(s: State, op: Op): (r: State)
    requires Inv(s) && Enabled(s, op)
    ensures Inv(r)
  {
    if OfWriter(op) then WriterStep(s, op) else ReaderStep(s, op)
  }

  function Compare(s: State): State
    requires s.writer.Measured? && s.head < |s.buf| && s.writer.second < |s.buf|
  {
    var w := s.writer;
    s.(writer := if s.tail != w.first then Sampling(w.data)
                 else BeginWrite(w.data, Spaces(s.head, w.second, |s.buf|)))
  }

  function Fill(s: State): State
    requires s.writer.Filling? && s.writer.done < |s.writer.data| <= |s.buf| && s.head < |s.buf|
  {
    var w := s.writer;
    s.(buf := s.buf[At(s.head, w.done, |s.buf|) := w.data[w.done]], writer := w.(done := w.done + 1))
  }

  function PublishedHead(s: State): State
    requires s.writer.Filling? && |s.writer.data| <= |s.buf| && s.head < |s.buf|
  {
    s.(head := At(s.head, |s.writer.data|, |s.buf|), accepted := s.accepted + s.writer.data, writer := Resting)
  }

  /** The count follows from the head seen; then the bytes are copied one by one. */
  function Empty(s: State): State
    requires s.tail < |s.buf|
    requires s.reader.Counted? ==> s.reader.seen < |s.buf|
    requires s.reader.Emptying? ==> |s.reader.got| <= |s.buf|
  {
    match s.reader
    case Waiting => s
    case Counted(capacity, seen, _) => s.(reader := BeginRead(capacity, BytesIn(seen, s.tail, |s.buf|)))
    case Emptying(count, got) => s.(reader := Emptying(count, got + [s.buf[At(s.tail, |got|, |s.buf|)]]))
  }

  function PublishedTail(s: State): State
    requires s.reader.Emptying? && s.reader.count <= |s.buf| && s.tail < |s.buf|
  {
    s.(tail := At(s.tail, s.reader.count, |s.buf|), delivered := s.delivered + s.reader.got, reader := Waiting)
  }

  /** The space measured may be out of date, but only on the safe side. */
  lemma CompareKeepsInv(s: State)
    requires Inv(s) && s.writer.Measured?
    ensures Inv(Compare(s))
  {
    hide Pos;
    CountsFromIndices(|s.accepted|, s.writer.since, |s.buf|);
  }

  /** A byte being written is in none of the places of unread bytes. */
  lemma WritesSpareUnread(s: State, j: nat)
    requires Inv(s) && s.writer.Filling? && s.writer.done < |s.writer.data|
    requires |s.delivered| <= j < |s.accepted| + s.writer.done
    ensures At(s.head, s.writer.done, |s.buf|) != Pos(j, |s.buf|)
  {
    hide Pos;
    var n, k := |s.buf|, |s.accepted| + s.writer.done;
    PosMoves(|s.accepted|, s.writer.done, n);
    PosApart(j, k, n);
  }

  lemma CopyInKeepsInv(s: State)
    requires Inv(s) && s.writer.Filling? && s.writer.done < |s.writer.data|
    ensures Inv(Fill(s))
  {
    hide Pos;
    var n, h, r := |s.buf|, |s.accepted|, Fill(s);
    PosMoves(h, s.writer.done, n);
    forall j: nat | |s.delivered| <= j < h + s.writer.done ensures r.buf[Pos(j, n)] == s.buf[Pos(j, n)] {
      WritesSpareUnread(s, j);
    }
  }

  lemma PublishHeadKeepsInv(s: State)
    requires Inv(s) && s.writer.Filling? && s.writer.done == |s.writer.data|
    ensures Inv(PublishedHead(s))
  {
    hide Pos;
    var h, n, r := |s.accepted|, |s.buf|, PublishedHead(s);
    PosMoves(h, |s.writer.data|, n);
    forall j | |s.delivered| <= j < |r.accepted| ensures s.buf[Pos(j, n)] == r.accepted[j] {
      if j >= h { assert s.buf[Pos(h + (j - h), n)] == s.writer.data[j - h]; }
    }
  }

  lemma CopyOutKeepsInv(s: State)
    requires Inv(s) && Enabled(s, CopyOut)
    ensures Inv(Empty(s))
  {
    hide Pos;
    var t, n := |s.delivered|, |s.buf|;
    match s.reader
    case Counted(_, _, upTo) => CountsFromIndices(upTo, t, n);
    case Emptying(_, got) =>
      PosMoves(t, |got|, n);
      assert s.accepted[t..t + |got| + 1] == s.accepted[t..t + |got|] + [s.accepted[t + |got|]];
  }

  lemma PublishTailKeepsInv(s: State)
    requires Inv(s) && s.reader.Emptying? && |s.reader.got| == s.reader.count
    ensures Inv(PublishedTail(s))
  {
    hide Pos;
    var t, k := |s.delivered|, s.reader.count;
    PosMoves(t, k, |s.buf|);
    assert s.accepted[..t] + s.accepted[t..t + k] == s.accepted[..t + k];
  }

  // ---------------------------------------------------------------- runs

  ghost predicate Legal(s: State, ops: seq<Op>)
    requires Inv(s)
    decreases |ops|
  {
    ops == [] || (Enabled(s, ops[0]) && Legal(Step(s, ops[0]), ops[1..]))
  }

  ghost function Run(s: State, ops: seq<Op>): (r: State)
    requires Inv(s) && Legal(s, ops)
    ensures Inv(r)
    decreases |ops|
  {
    if ops == [] then s else Run(Step(s, ops[0]), ops[1..])
  }

  ghost predicate Start(s: State): (start: bool)
    ensures start ==> Inv(s)
  {
    0 < |s.buf| && s == State(s.buf, 0, 0, Resting, Waiting, [], [])
  }

  /** What has been published and not been read is in the ring, in order. */
  lemma RestIsInRing(r: State)
    requires Inv(r)
    ensures r.head < |r.buf| && r.tail < |r.buf| && r.delivered <= r.accepted
    ensures r.accepted == r.delivered + Ring(r.buf, r.tail, BytesIn(r.head, r.tail, |r.buf|))
  {
    hide Pos;
    var t, h, n := |r.delivered|, |r.accepted|, |r.buf|;
    CountsFromIndices(h, t, n);
    var ring, missing := Ring(r.buf, r.tail, h - t), r.accepted[t..];
    forall i | 0 <= i < h - t ensures ring[i] == missing[i] {
      PosMoves(t, i, n);
    }
    assert r.accepted == r.accepted[..t] + r.accepted[t..];
  }

  /** After every interleaving, what the reader has been given is a prefix of what the writer has
  been told was accepted, and what is missing is in the ring, in order. */
  lemma ReaderGetsAPrefix(s: State, ops: seq<Op>)
    requires Start(s) && Legal(s, ops)
    ensures var r := Run(s, ops);
            && r.delivered <= r.accepted
            && r.head < |r.buf| && r.tail < |r.buf|
            && r.accepted == r.delivered + Ring(r.buf, r.tail, BytesIn(r.head, r.tail, |r.buf|))
  {
    hide Run, Legal, Pos, Ring;
    RestIsInRing(Run(s, ops));
  }
}
