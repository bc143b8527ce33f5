/** What a client of the firmware receiver sends and what it gets: the header it makes is the header that
is read, and an image is installed if and only if the checksum that goes with it is its own.
*/
module OtaClient {
  import opened Basics
  import opened Bytes
  import opened Crc32
  import opened OtaSession

  // ---------------------------------------------------------------- the header

  /** The byte of this value. */
  function ToOctet(b: Byte): bv8
    decreases b as nat
  {
    if b == 0 then 0 else ToOctet(b - 1) + 1
  }

  lemma NextOctet(x: bv8)
    ensures Octet(x) < 255 ==> Octet(x + 1) == Octet(x) + 1
  {
    if x < 255 { assert (x + 1) as nat == x as nat + 1; }
  }

  lemma {:induction false} OctetRoundTrip(b: Byte)
    ensures Octet(ToOctet(b)) == b
    decreases b as nat
  {
    hide Octet;
    if b == 0 {
      ZeroOctet();
    } else {
      OctetRoundTrip(b - 1);
      NextOctet(ToOctet(b - 1));
    }
  }

  lemma ZeroOctet()
    ensures Octet(0) == 0
  {}

  lemma OctetBack(b: bv8)
    ensures ToOctet(Octet(b)) == b
  {
    OctetRoundTrip(Octet(b));
    SameOctet(b, ToOctet(Octet(b)));
  }

  lemma SameOctet(x: bv8, y: bv8)
    requires Octet(x) == Octet(y)
    ensures x == y
  {
    assert (x as nat) as bv8 == x;
    assert (y as nat) as bv8 == y;
  }

  /** A 32-bit number as a client sends it, the least significant byte first. */
  function Word(n: nat): (b: seq<bv8>)
    requires n < TWO_32
    ensures |b| == 4
  {
    var b := LittleEndian(n);
    [ToOctet(b[0]), ToOctet(b[1]), ToOctet(b[2]), ToOctet(b[3])]
  }

  lemma WordRoundTrip(n: nat)
    requires n < TWO_32
    ensures Word32(Word(n)) == n
  {
    hide ToOctet, Octet, LittleEndian, FromLittleEndian;
    var b := LittleEndian(n);
    OctetRoundTrip(b[0]);
    OctetRoundTrip(b[1]);
    OctetRoundTrip(b[2]);
    OctetRoundTrip(b[3]);
    assert [b[0], b[1], b[2], b[3]] == b;
    LittleEndianRoundTrip(n);
  }

  lemma BytesRoundTrip(b: seq<Byte>)
    requires |b| == 4
    ensures LittleEndian(FromLittleEndian(b)) == b
  {
    var n := FromLittleEndian(b);
    var b1: nat, b2: nat, b3: nat := b[1], b[2], b[3];
    assert n / 0x100 == b1 + 0x100 * (b2 + 0x100 * b3);
    assert n / 0x100 / 0x100 == b2 + 0x100 * b3;
  }

  lemma WordBack(b: seq<bv8>)
    requires |b| == 4
    ensures Word(Word32(b)) == b
  {
    hide ToOctet, Octet, LittleEndian, FromLittleEndian;
    var o := [Octet(b[0]), Octet(b[1]), Octet(b[2]), Octet(b[3])];
    BytesRoundTrip(o);
    OctetBack(b[0]);
    OctetBack(b[1]);
    OctetBack(b[2]);
    OctetBack(b[3]);
  }

  /** The header that announces n bytes with checksum c. */
  function HeaderOf(n: nat, c: nat): (h: seq<bv8>)
    requires n < TWO_32 && c < TWO_32
    ensures |h| == HEADER_SIZE
  {
    MAGIC + Word(n) + Word(c)
  }

  /** What is announced is what is read, and it is refused if and only if the size is not from 1 to
  640 KB. */
  lemma HeaderRoundTrip(n: nat, c: nat)
    requires n < TWO_32 && c < TWO_32
    ensures var h := HeaderOf(n, c);
            && TotalSize(h) == n && ExpectedCrc(h) == c
            && Refusal(h) == if 0 < n <= MAX_SIZE then None else Some(SizeMismatch)
  {
    hide Word, Word32;
    var h := HeaderOf(n, c);
    assert h[..8] == MAGIC && h[8..12] == Word(n) && h[12..16] == Word(c);
    WordRoundTrip(n);
    WordRoundTrip(c);
  }

  /** Every sixteen bytes that begin with the magic are the header that announces what is read; all
  others are refused as such. */
  lemma HeaderIsAnnouncement(h: seq<bv8>)
    requires |h| == HEADER_SIZE
    ensures h[..8] == MAGIC <==> h == HeaderOf(TotalSize(h), ExpectedCrc(h))
    ensures h[..8] != MAGIC <==> Refusal(h) == Some(Error)
  {
    hide Word, Word32;
    WordBack(h[8..12]);
    WordBack(h[12..16]);
    assert h == h[..8] + h[8..12] + h[12..16];
    assert HeaderOf(TotalSize(h), ExpectedCrc(h))[..8] == MAGIC;
  }

  // ---------------------------------------------------------------- an image from end to end

  /** What a client sends: the header, then the image. */
  function Upload(image: seq<bv8>, c: nat): seq<bv8>
    requires 0 < |image| <= MAX_SIZE && c < TWO_32
  {
    HeaderOf(|image|, c) + image
  }

  /** The session while the upload is under way, and after it. */
  lemma UploadDigested(image: seq<bv8>, c: nat, k: nat)
    requires 0 < |image| <= MAX_SIZE && c < TWO_32 && k <= |Upload(image, c)|
    ensures var s := Digest([], Upload(image, c)[..k]);
            if k < HEADER_SIZE then s == Session(Upload(image, c)[..k], None, [], false)
            else if k < HEADER_SIZE + |image| then
              s == Session([], Some(Image(|image|, c, image[..k - HEADER_SIZE])), [], false)
            else s == if Checksum(image) == c then Session([], None, [Ok], true) else Session([], None, [CrcFail], false)
  {
    hide HeaderOf, TotalSize, ExpectedCrc, Refusal, Checksum;
    var h, b := HeaderOf(|image|, c), Upload(image, c)[..k];
    HeaderRoundTrip(|image|, c);
    if k >= HEADER_SIZE {
      assert b[..HEADER_SIZE] == h && b[HEADER_SIZE..] == image[..k - HEADER_SIZE];
      if k == HEADER_SIZE + |image| {
        assert b[HEADER_SIZE..] == image && image[..|image|] == image && image[|image|..] == [];
        assert [] + [Ok] == [Ok] && [] + [CrcFail] == [CrcFail];
      }
    }
  }

  lemma {:induction false} UploadStops(image: seq<bv8>, c: nat, chunks: seq<seq<bv8>>)
    requires 0 < |image| <= MAX_SIZE && c < TWO_32 && Concat(chunks) <= Upload(image, c)
    ensures StopsAtFailures(chunks)
    decreases |chunks|
  {
    hide Digest, HeaderOf, Checksum, TotalSize, ExpectedCrc;
    if chunks != [] {
      var n := |chunks| - 1;
      var before := Concat(chunks[..n]);
      assert before == Upload(image, c)[..|before|];
      UploadStops(image, c, chunks[..n]);
      UploadDigested(image, c, |before|);
    }
  }

  /** However an upload falls into reads, it is answered once it is complete: OK, and the device
  restarts, if and only if the checksum announced is that of the image. */
  lemma UploadIsJudged(image: seq<bv8>, c: nat, chunks: seq<seq<bv8>>)
    requires 0 < |image| <= MAX_SIZE && c < TWO_32
    requires Legal(START, chunks) && Concat(chunks) == Upload(image, c)
    ensures Run(START, chunks) ==
            if Checksum(image) == c then Session([], None, [Ok], true) else Session([], None, [CrcFail], false)
  {
    hide Digest, HeaderOf, Checksum, Run, Legal, StopsAtFailures, Concat;
    UploadStops(image, c, chunks);
    ChunkingDoesNotMatter(chunks);
    UploadDigested(image, c, |Upload(image, c)|);
    assert Upload(image, c)[..|Upload(image, c)|] == Upload(image, c);
  }

  /** And until it is complete it is not answered at all. */
  lemma UploadIsAwaited(image: seq<bv8>, c: nat, chunks: seq<seq<bv8>>)
    requires 0 < |image| <= MAX_SIZE && c < TWO_32
    requires Legal(START, chunks) && Concat(chunks) < Upload(image, c)
    ensures Run(START, chunks).responses == [] && !Run(START, chunks).rebooted
  {
    hide Digest, HeaderOf, Checksum, Run, Legal, StopsAtFailures, Concat;
    UploadStops(image, c, chunks);
    ChunkingDoesNotMatter(chunks);
    UploadDigested(image, c, |Concat(chunks)|);
    assert Concat(chunks) == Upload(image, c)[..|Concat(chunks)|];
  }

  // ---------------------------------------------------------------- a header that is refused

  lemma {:induction false} HeaderStops(h: seq<bv8>, chunks: seq<seq<bv8>>)
    requires |h| == HEADER_SIZE && Refusal(h).Some? && Concat(chunks) <= h
    ensures StopsAtFailures(chunks)
    decreases |chunks|
  {
    hide Refusal, TotalSize, ExpectedCrc, Checksum;
    if chunks != [] {
      var before := Concat(chunks[..|chunks| - 1]);
      HeaderStops(h, chunks[..|chunks| - 1]);
      assert before == h[..|before|];
      if |before| == HEADER_SIZE { assert h[..HEADER_SIZE] == h && h[HEADER_SIZE..] == []; }
      assert Digest([], before).image.None?;
    }
  }

  /** However a bad header falls into reads, it is answered by what is wrong with it, and the next one is
  awaited. */
  lemma BadHeaderIsAnswered(h: seq<bv8>, chunks: seq<seq<bv8>>)
    requires |h| == HEADER_SIZE && Legal(START, chunks) && Concat(chunks) == h
    requires h[..8] == MAGIC ==> TotalSize(h) == 0 || TotalSize(h) > MAX_SIZE
    ensures Run(START, chunks) == Session([], None, [if h[..8] == MAGIC then SizeMismatch else Error], false)
  {
    hide Run, Legal, StopsAtFailures, Concat, TotalSize, ExpectedCrc;
    HeaderStops(h, chunks);
    ChunkingDoesNotMatter(chunks);
    var status := if h[..8] == MAGIC then SizeMismatch else Error;
    assert h[..HEADER_SIZE] == h && h[HEADER_SIZE..] == [] && [] + [status] == [status];
  }
}
