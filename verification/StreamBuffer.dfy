/** Stream and message buffers, FreeRtos/kernel/stream_buffer.c: a ring of bytes between xTail and
xHead, and discrete messages framed on top of it by a length prefix.
*/
module StreamBuffer {
  import opened Basics
  import opened Bytes
  import opened RingWrites

  // ---------------------------------------------------------------- positions in the ring

  /** prvBytesInBuffer. */
  function BytesIn(head: nat, tail: nat, n: nat): (count: nat)
    requires head < n && tail < n
    ensures count < n && At(tail, count, n) == head
  {
    var count := n + head - tail;
    if count >= n then count - n else count
  }

  /** xStreamBufferSpacesAvailable. */
  function Spaces(head: nat, tail: nat, n: nat): (space: nat)
    requires head < n && tail < n
    ensures space + BytesIn(head, tail, n) == n - 1
  {
    var space := n + tail - head - 1;
    if space >= n then space - n else space
  }

  ghost function Ring(buf: seq<Byte>, at: nat, count: nat): (b: seq<Byte>)
    requires at < |buf| && count <= |buf|
    ensures |b| == count
  {
    seq(count, i requires 0 <= i < count => buf[At(at, i, |buf|)])
  }

  /** What is written after the bytes in the ring extends them. */
  lemma WriteExtends(before: seq<Byte>, after: seq<Byte>, tail: nat, count: nat, data: seq<Byte>)
    requires tail < |before| && count + |data| < |before| && Written(before, after, At(tail, count, |before|), data)
    ensures Ring(after, tail, count + |data|) == Ring(before, tail, count) + data
  {
    var n := |before|;
    var head := At(tail, count, n);
    forall i | 0 <= i < count ensures after[At(tail, i, n)] == before[At(tail, i, n)] {}
    forall i | 0 <= i < |data| ensures At(head, i, n) == At(tail, count + i, n) {}
  }

  /** What is written into the free space leaves the bytes in the ring alone. */
  lemma WriteSpares(before: seq<Byte>, after: seq<Byte>, tail: nat, count: nat, data: seq<Byte>)
    requires tail < |before| && count + |data| < |before| && Written(before, after, At(tail, count, |before|), data)
    ensures Ring(after, tail, count) == Ring(before, tail, count)
  {
    WriteExtends(before, after, tail, count, data);
    RingDrops(after, tail, count + |data|, count);
  }

  lemma RingDrops(buf: seq<Byte>, tail: nat, count: nat, k: nat)
    requires tail < |buf| && k <= count < |buf|
    ensures Ring(buf, At(tail, k, |buf|), count - k) == Ring(buf, tail, count)[k..]
    ensures Ring(buf, tail, k) == Ring(buf, tail, count)[..k]
  {}

  // ---------------------------------------------------------------- messages

  const LENGTH_BYTES: nat := 4 // sbBYTES_TO_STORE_MESSAGE_LENGTH

  /** A message as it is stored: its length, then its bytes. */
  function Framed(m: seq<Byte>): (f: seq<Byte>)
    requires |m| < TWO_32
    ensures |f| == LENGTH_BYTES + |m|
  {
    LittleEndian(|m|) + m
  }

  ghost predicate Sendable(ms: seq<seq<Byte>>) {
    forall i :: 0 <= i < |ms| ==> 0 < |ms[i]| < TWO_32
  }

  ghost function Stored(ms: seq<seq<Byte>>): (b: seq<Byte>)
    requires Sendable(ms)
    ensures b == [] <==> ms == []
    ensures ms != [] ==> |b| > LENGTH_BYTES
  {
    if ms == [] then [] else Framed(ms[0]) + Stored(ms[1..])
  }

  lemma {:induction false} StoredAppends(ms: seq<seq<Byte>>, m: seq<Byte>)
    requires Sendable(ms) && 0 < |m| < TWO_32
    ensures Sendable(ms + [m]) && Stored(ms + [m]) == Stored(ms) + Framed(m)
  {
    hide Framed;
    if ms == [] {
      assert ms + [m] == [m] && Stored([m]) == Framed(m) + Stored([]);
    } else {
      StoredAppends(ms[1..], m);
      assert (ms + [m])[0] == ms[0] && (ms + [m])[1..] == ms[1..] + [m];
      assert Framed(ms[0]) + (Stored(ms[1..]) + Framed(m)) == Framed(ms[0]) + Stored(ms[1..]) + Framed(m);
    }
  }

  /** The first bytes stored are the length of the first message, and then come its bytes. */
  lemma FirstMessage(ms: seq<seq<Byte>>)
    requires Sendable(ms) && ms != []
    ensures var b, k := Stored(ms), |ms[0]|;
            && LENGTH_BYTES + k <= |b|
            && FromLittleEndian(b[..LENGTH_BYTES]) == k && b[LENGTH_BYTES..LENGTH_BYTES + k] == ms[0]
            && b[LENGTH_BYTES + k..] == Stored(ms[1..])
  {
    LittleEndianRoundTrip(|ms[0]|);
    assert Stored(ms)[..LENGTH_BYTES] == LittleEndian(|ms[0]|);
  }

  /** The ring behind a length prefix. */
  lemma RestOfRing(buf: seq<Byte>, tail: nat, available: nat, count: nat)
    requires tail < |buf| && LENGTH_BYTES + count <= available < |buf|
    ensures var next, b := At(tail, LENGTH_BYTES, |buf|), Ring(buf, tail, available);
            && Ring(buf, next, count) == b[LENGTH_BYTES..LENGTH_BYTES + count]
            && Ring(buf, At(next, count, |buf|), available - LENGTH_BYTES - count) == b[LENGTH_BYTES + count..]
  {
    RingDrops(buf, tail, available, LENGTH_BYTES);
    RingDrops(buf, At(tail, LENGTH_BYTES, |buf|), available - LENGTH_BYTES, count);
  }

  // ---------------------------------------------------------------- the buffer

  class Buffer {
    const storage: array<Byte>  // pucBuffer
    const isMessageBuffer: bool // sbFLAGS_IS_MESSAGE_BUFFER
    var head: nat               // xHead
    var tail: nat               // xTail
    ghost var messages: seq<seq<Byte>>

    ghost predicate Valid()
      reads this, storage
    {
      && head < storage.Length && tail < storage.Length < TWO_32
      && (isMessageBuffer ==> Sendable(messages) && Contents() == Stored(messages))
    }

    /** The bytes sent and not yet received. */
    ghost function Contents(): seq<Byte>
      requires head < storage.Length && tail < storage.Length
      reads this, storage
    {
      Ring(storage[..], tail, BytesIn(head, tail, storage.Length))
    }

    constructor (n: nat, isMessageBuffer: bool)
      requires 0 < n < TWO_32
      ensures Valid() && fresh(storage) && this.isMessageBuffer == isMessageBuffer && storage.Length == n
      ensures Contents() == [] && messages == []
    {
      storage := new Byte[n];
      this.isMessageBuffer := isMessageBuffer;
      head, tail, messages := 0, 0, [];
    }

    /** prvWriteBytesToBuffer: up to two copies, the second from the start of the storage. */
    method WriteBytes(data: seq<Byte>, at: nat) returns (next: nat)
      requires at < storage.Length && 0 < |data| < storage.Length
      modifies storage
      ensures Written(old(storage[..]), storage[..], at, data)
      ensures next == At(at, |data|, storage.Length)
    {
      var n := storage.Length;
      var first := if n - at < |data| then n - at else |data|;
      forall i | 0 <= i < first {
        storage[at + i] := data[i];
      }
      if |data| > first {
        forall i | 0 <= i < |data| - first {
          storage[i] := data[first + i];
        }
      }
      next := at + |data|;
      if next >= n {
        next := next - n;
      }
    }

    /** prvReadBytesFromBuffer. */
    method ReadBytes(count: nat, at: nat) returns (data: seq<Byte>, next: nat)
      requires at < storage.Length && 0 < count < storage.Length
      ensures data == Ring(storage[..], at, count) && next == At(at, count, storage.Length)
    {
      var n := storage.Length;
      var first := if n - at < count then n - at else count;
      data := storage[at..at + first];
      if count > first {
        data := data + storage[..count - first];
      }
      next := at + count;
      if next >= n {
        next := next - n;
      }
    }

    /** prvWriteMessageToBuffer on a stream buffer: as much as there is space for. */
    method WriteStream(data: seq<Byte>, space: nat) returns (sent: nat)
      requires Valid() && !isMessageBuffer && space <= Spaces(head, tail, storage.Length)
      modifies this`head, storage
      ensures Valid() && sent == (if |data| < space then |data| else space)
      ensures Contents() == old(Contents()) + data[..sent]
    {
      sent := if |data| < space then |data| else space;
      if sent != 0 {
        ghost var before, count := storage[..], BytesIn(head, tail, storage.Length);
        head := WriteBytes(data[..sent], head);
        WriteExtends(before, storage[..], tail, count, data[..sent]);
        assert BytesIn(head, tail, storage.Length) == count + sent;
      }
    }

    /** prvWriteMessageToBuffer on a message buffer: all of the message or nothing. An empty message
    leaves its length prefix in the free space and is never seen again. */
    method WriteMessage(data: seq<Byte>, space: nat) returns (sent: nat)
      requires Valid() && isMessageBuffer && space <= Spaces(head, tail, storage.Length)
      requires |data| + LENGTH_BYTES < TWO_32
      modifies this`head, this`messages, storage
      ensures Valid()
      ensures sent == if space >= |data| + LENGTH_BYTES then |data| else 0
      ensures messages == if sent > 0 then old(messages) + [data] else old(messages)
    {
      ghost var before, count := storage[..], BytesIn(head, tail, storage.Length);
      var next := head;
      sent := 0;
      if space >= |data| + LENGTH_BYTES {
        next := WriteBytes(LittleEndian(|data|), next);
        ghost var middle := storage[..];
        WriteSpares(before, middle, tail, count, LittleEndian(|data|));
        sent := |data|;
        if sent != 0 {
          head := WriteBytes(data, next);
          WrittenTwice(before, middle, storage[..], At(tail, count, storage.Length), LittleEndian(|data|), data);
          WriteExtends(before, storage[..], tail, count, Framed(data));
          assert BytesIn(head, tail, storage.Length) == count + |Framed(data)|;
          StoredAppends(messages, data);
          messages := messages + [data];
        }
      }
    }

    /** xStreamBufferSendFromISR, or xStreamBufferSend without a block time. */
    method Send(data: seq<Byte>) returns (sent: nat)
      requires Valid() && (isMessageBuffer ==> |data| + LENGTH_BYTES < TWO_32)
      modifies this`head, this`messages, storage
      ensures Valid()
      ensures var space := storage.Length - 1 - |old(Contents())|;
              if isMessageBuffer then
                && sent == (if space >= |data| + LENGTH_BYTES then |data| else 0)
                && messages == if sent > 0 then old(messages) + [data] else old(messages)
              else
                && sent == (if |data| < space then |data| else space)
                && Contents() == old(Contents()) + data[..sent]
    {
      var space := Spaces(head, tail, storage.Length);
      if isMessageBuffer {
        sent := WriteMessage(data, space);
      } else {
        sent := WriteStream(data, space);
      }
    }

    /** prvReadMessageFromBuffer on a stream buffer: as much as there is, up to the capacity. */
    method ReadStream(capacity: nat, available: nat) returns (data: seq<Byte>)
      requires Valid() && !isMessageBuffer && available == |Contents()|
      modifies this`tail
      ensures Valid() && old(Contents()) == data + Contents()
      ensures |data| == if capacity < available then capacity else available
    {
      var count := if capacity < available then capacity else available;
      data := [];
      if count != 0 {
        RingDrops(storage[..], tail, available, count);
        data, tail := ReadBytes(count, tail);
        assert BytesIn(head, tail, storage.Length) == available - count;
      }
    }

    /** prvReadMessageFromBuffer on a message buffer: the whole first message, or nothing if the
    capacity is too small for it. */
    method ReadMessage(capacity: nat, available: nat) returns (data: seq<Byte>)
      requires Valid() && isMessageBuffer && available == |Contents()| > LENGTH_BYTES
      modifies this`tail, this`messages
      ensures Valid() && old(messages) != []
      ensures if |old(messages)[0]| <= capacity then
                data == old(messages)[0] && messages == old(messages)[1..]
              else
                data == [] && messages == old(messages) && tail == old(tail)
    {
      FirstMessage(messages);
      RingDrops(storage[..], tail, available, LENGTH_BYTES);
      var prefix, next := ReadBytes(LENGTH_BYTES, tail);
      var wanted := FromLittleEndian(prefix);
      if wanted > capacity {
        wanted := 0;
      }
      var left := available - LENGTH_BYTES;
      var count := if wanted < left then wanted else left;
      data := [];
      if count != 0 {
        RestOfRing(storage[..], tail, available, count);
        data, tail := ReadBytes(count, next);
        assert BytesIn(head, tail, storage.Length) == left - count;
        messages := messages[1..];
      }
    }

    /** xStreamBufferReceiveFromISR, or xStreamBufferReceive once it has stopped waiting. */
    method Receive(capacity: nat) returns (data: seq<Byte>)
      requires Valid()
      modifies this`tail, this`messages
      ensures Valid()
      ensures isMessageBuffer ==>
        if old(messages) != [] && |old(messages)[0]| <= capacity then
          data == old(messages)[0] && messages == old(messages)[1..]
        else
          data == [] && messages == old(messages) && tail == old(tail)
      ensures !isMessageBuffer ==>
        old(Contents()) == data + Contents()
        && |data| == if capacity < |old(Contents())| then capacity else |old(Contents())|
    {
      var available := BytesIn(head, tail, storage.Length);
      data := [];
      if available > (if isMessageBuffer then LENGTH_BYTES else 0) {
        if isMessageBuffer {
          data := ReadMessage(capacity, available);
        } else {
          data := ReadStream(capacity, available);
        }
      }
    }

    /** xStreamBufferNextMessageLengthBytes, with its assertion that a message buffer stores nothing
    or more than a length. */
    method NextMessageLength() returns (n: nat)
      requires Valid()
      ensures n == if isMessageBuffer && messages != [] then |messages[0]| else 0
    {
      n := 0;
      if isMessageBuffer {
        var available := BytesIn(head, tail, storage.Length);
        if available > LENGTH_BYTES {
          FirstMessage(messages);
          RingDrops(storage[..], tail, available, LENGTH_BYTES);
          var prefix, _ := ReadBytes(LENGTH_BYTES, tail);
          n := FromLittleEndian(prefix);
        } else {
          assert available == 0;
        }
      }
    }
  }
}
