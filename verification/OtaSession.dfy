/** What the main loop of App/tcp/ota_server.c makes of the bytes it reads, when the flash works: a
reference that knows nothing of sectors and reads, and the proof that how the bytes fall into reads
does not matter, as far as that is true.
*/
module OtaSession {
  import opened Basics
  import opened Bytes
  import opened Crc32

  const HEADER_SIZE: nat := 16       // OTA_HEADER_SIZE
  const MAX_SIZE: nat := 0xA_0000    // OTA_MAX_FIRMWARE_SIZE
  const SECTOR: nat := 0x1000        // OTA_FLASH_SECTOR_SIZE
  const MAGIC: seq<bv8> := [0x47, 0x44, 0x33, 0x32, 0x4F, 0x54, 0x41, 0x31] // "GD32OTA1"

  datatype Status = Ok | Error | SizeMismatch | CrcFail | FlashError

  /** A firmware image on its way in. */
  datatype Image = Image(total: nat, crc: nat, payload: seq<bv8>)

  datatype Session = Session(header: seq<bv8>, image: Option<Image>, responses: seq<Status>, rebooted: bool)

  const START := Session([], None, [], false)

  function Octet(b: bv8): Byte { b as nat }

  /** A 32-bit number as memcpy reads it from four bytes, the least significant first. */
  function Word32(b: seq<bv8>): (n: nat)
    requires |b| == 4
    ensures n < TWO_32
  {
    FromLittleEndian([Octet(b[0]), Octet(b[1]), Octet(b[2]), Octet(b[3])])
  }

  function TotalSize(h: seq<bv8>): nat
    requires |h| == HEADER_SIZE
  {
    Word32(h[8..12])
  }

  function ExpectedCrc(h: seq<bv8>): nat
    requires |h| == HEADER_SIZE
  {
    Word32(h[12..16])
  }

  /** The answer to a complete header, if it is refused. */
  function Refusal(h: seq<bv8>): (r: Option<Status>)
    requires |h| == HEADER_SIZE
    ensures r.None? ==> h[..8] == MAGIC && 0 < TotalSize(h) <= MAX_SIZE
    ensures r.Some? ==> r.value == Error || r.value == SizeMismatch
  {
    if h[..8] != MAGIC then Some(Error)
    else if TotalSize(h) == 0 || TotalSize(h) > MAX_SIZE then Some(SizeMismatch)
    else None
  }

  // ---------------------------------------------------------------- the loop, read by read

  /** The most that the next read asks for. */
  function Requested(s: Session): nat {
    if s.image.Some? then SECTOR - |s.image.value.payload| % SECTOR
    else if |s.header| <= HEADER_SIZE then HEADER_SIZE - |s.header| else 0
  }

  /** A read asks for the rest of the header, or for all up to the end of a sector. */
  lemma ReadsToTheEnd(s: Session)
    ensures s.image.None? && |s.header| <= HEADER_SIZE ==> |s.header| + Requested(s) == HEADER_SIZE
    ensures s.image.Some? ==> 0 < Requested(s) <= SECTOR && (|s.image.value.payload| + Requested(s)) % SECTOR == 0
  {
    if s.image.Some? {
      var n := |s.image.value.payload|;
      assert n + Requested(s) == SECTOR * (n / SECTOR + 1);
    }
  }

  function Answer(s: Session, status: Status): Session {
    Session([], None, s.responses + [status], status == Ok)
  }

  /** A complete header has been read. */
  function Headed(s: Session, h: seq<bv8>): Session
    requires |h| == HEADER_SIZE
  {
    match Refusal(h)
    case Some(status) => Answer(s, status)
    case None => Session([], Some(Image(TotalSize(h), ExpectedCrc(h), [])), s.responses, false)
  }

  function Verdict(image: Image): Status
    requires |image.payload| >= image.total
  {
    if Checksum(image.payload[..image.total]) == image.crc then Ok else CrcFail
  }

  /** One turn of the main loop, in which the read returns `chunk`. */
  function Turn(s: Session, chunk: seq<bv8>): Session
    requires |chunk| <= Requested(s)
  {
    if s.rebooted then s
    else match s.image
      case None =>
        var h := s.header + chunk;
        if |h| < HEADER_SIZE then s.(header := h) else if |h| == HEADER_SIZE then Headed(s, h) else s
      case Some(image) =>
        var next := image.(payload := image.payload + chunk);
        if |next.payload| >= next.total then Answer(s, Verdict(next)) else s.(image := Some(next))
  }

  // ---------------------------------------------------------------- the bytes as one stream

  /** The session after all these bytes, if reads never ran past an image: headers are refused one
  after the other until one is accepted, an image that passes its check restarts the device, and
  after one that fails the next header follows. */
  function Digest(responses: seq<Status>, bytes: seq<bv8>): (s: Session)
    ensures responses <= s.responses
    decreases |bytes|
  {
    if |bytes| < HEADER_SIZE then
      Session(bytes, None, responses, false)
    else
      var h, rest := bytes[..HEADER_SIZE], bytes[HEADER_SIZE..];
      match Refusal(h)
      case Some(status) => Digest(responses + [status], rest)
      case None =>
        var image := Image(TotalSize(h), ExpectedCrc(h), rest);
        if |rest| < image.total then Session([], Some(image), responses, false)
        else if Verdict(image) == Ok then Session([], None, responses + [Ok], true)
        else Digest(responses + [CrcFail], rest[image.total..])
  }

  /** The read takes bytes behind an image that fails its check. */
  predicate ReadsPastFailure(s: Session, chunk: seq<bv8>) {
    !s.rebooted && s.image.Some? &&
    var image := s.image.value;
    var next := image.(payload := image.payload + chunk);
    |next.payload| > image.total && Verdict(next) == CrcFail
  }

  lemma HeaderFollows(responses: seq<Status>, bytes: seq<bv8>, chunk: seq<bv8>)
    requires |bytes| < HEADER_SIZE && |chunk| <= HEADER_SIZE - |bytes|
    ensures Turn(Digest(responses, bytes), chunk) == Digest(responses, bytes + chunk)
  {
    hide Checksum, TotalSize, ExpectedCrc;
    var all := bytes + chunk;
    if |all| == HEADER_SIZE {
      assert all[..HEADER_SIZE] == all && all[HEADER_SIZE..] == [];
    }
  }

  /** A session is not idle with bytes still to be looked at. */
  lemma BytesLeaveATrace(responses: seq<Status>, bytes: seq<bv8>)
    requires bytes != []
    ensures Digest(responses, bytes) != Session([], None, responses, false)
  {
    hide Checksum, TotalSize, ExpectedCrc, Refusal;
  }

  /** The bytes of an open image, and one more read. */
  lemma ImageFollows(s: Session, image: Image, chunk: seq<bv8>, h: seq<bv8>)
    requires |h| == HEADER_SIZE && Refusal(h).None? && image.total == TotalSize(h) && image.crc == ExpectedCrc(h)
    requires s == Session([], Some(image), s.responses, false) && |image.payload| < image.total
    requires |chunk| <= Requested(s)
    ensures Turn(s, chunk) == Digest(s.responses, h + (image.payload + chunk)) <==> !ReadsPastFailure(s, chunk)
  {
    hide Checksum, TotalSize, ExpectedCrc;
    var rest := image.payload + chunk;
    var all := h + rest;
    assert all[..HEADER_SIZE] == h && all[HEADER_SIZE..] == rest;
    var next := image.(payload := rest);
    if |rest| >= image.total && Verdict(next) == CrcFail {
      if |rest| == image.total {
        assert rest[image.total..] == [];
      } else {
        BytesLeaveATrace(s.responses + [CrcFail], rest[image.total..]);
      }
    }
  }

  /** One read of any length follows the bytes if and only if it does not run past an image that
  fails its check. */
  lemma {:induction false} TurnFollowsBytes(responses: seq<Status>, bytes: seq<bv8>, chunk: seq<bv8>)
    requires |chunk| <= Requested(Digest(responses, bytes))
    ensures var s := Digest(responses, bytes);
            Turn(s, chunk) == Digest(responses, bytes + chunk) <==> !ReadsPastFailure(s, chunk)
    decreases |bytes|
  {
    hide Checksum, TotalSize, ExpectedCrc, Refusal, Turn, ReadsPastFailure;
    if |bytes| < HEADER_SIZE {
      HeaderFollows(responses, bytes, chunk);
      NoImageNoFailure(Digest(responses, bytes), chunk);
    } else {
      var h, rest, all := bytes[..HEADER_SIZE], bytes[HEADER_SIZE..], bytes + chunk;
      assert bytes == h + rest && all == h + (rest + chunk);
      assert all[..HEADER_SIZE] == h && all[HEADER_SIZE..] == rest + chunk;
      match Refusal(h)
      case Some(status) => TurnFollowsBytes(responses + [status], rest, chunk);
      case None =>
        var image := Image(TotalSize(h), ExpectedCrc(h), rest);
        if |rest| < image.total {
          ImageFollows(Digest(responses, bytes), image, chunk, h);
        } else {
          assert (rest + chunk)[..image.total] == rest[..image.total];
          assert (rest + chunk)[image.total..] == rest[image.total..] + chunk;
          if Verdict(image) == Ok {
            RestartedStays(Digest(responses, bytes), chunk);
          } else {
            TurnFollowsBytes(responses + [CrcFail], rest[image.total..], chunk);
          }
        }
    }
  }

  lemma NoImageNoFailure(s: Session, chunk: seq<bv8>)
    requires s.image.None?
    ensures !ReadsPastFailure(s, chunk)
  {}

  lemma RestartedStays(s: Session, chunk: seq<bv8>)
    requires s.rebooted && |chunk| <= Requested(s)
    ensures Turn(s, chunk) == s && !ReadsPastFailure(s, chunk)
  {}

  // ---------------------------------------------------------------- runs

  function Concat(chunks: seq<seq<bv8>>): seq<bv8> {
    if chunks == [] then [] else Concat(chunks[..|chunks| - 1]) + chunks[|chunks| - 1]
  }

  /** No read returns more than was asked for. */
  predicate Legal(s: Session, chunks: seq<seq<bv8>>)
    decreases |chunks|, 0
  {
    chunks == [] ||
    (var n := |chunks| - 1;
     Legal(s, chunks[..n]) && |chunks[n]| <= Requested(Run(s, chunks[..n])))
  }

  function Run(s: Session, chunks: seq<seq<bv8>>): Session
    requires Legal(s, chunks)
    decreases |chunks|, 1
  {
    if chunks == [] then s else
      var n := |chunks| - 1;
      Turn(Run(s, chunks[..n]), chunks[n])
  }

  /** After every read the session is where the bytes read so far take it. */
  ghost predicate FollowsBytes(chunks: seq<seq<bv8>>)
    requires Legal(START, chunks)
    decreases |chunks|
  {
    Run(START, chunks) == Digest([], Concat(chunks)) && (chunks != [] ==> FollowsBytes(chunks[..|chunks| - 1]))
  }

  /** No read runs past an image that fails its check. This is a matter of the bytes alone, and of
  where the reads end. */
  ghost predicate StopsAtFailures(chunks: seq<seq<bv8>>)
    decreases |chunks|
  {
    chunks == [] ||
    (var n := |chunks| - 1;
     StopsAtFailures(chunks[..n]) && !ReadsPastFailure(Digest([], Concat(chunks[..n])), chunks[n]))
  }

  /** How the bytes fall into reads does not matter, throughout a run, if and only if no read runs
  past an image that fails its check. */
  lemma {:induction false} ChunkingDoesNotMatter(chunks: seq<seq<bv8>>)
    requires Legal(START, chunks)
    ensures FollowsBytes(chunks) <==> StopsAtFailures(chunks)
    decreases |chunks|
  {
    hide Turn, Digest, Requested, ReadsPastFailure;
    if chunks == [] {
      NothingRead();
    } else {
      var n := |chunks| - 1;
      ChunkingDoesNotMatter(chunks[..n]);
      if FollowsBytes(chunks[..n]) {
        TurnFollowsBytes([], Concat(chunks[..n]), chunks[n]);
      }
    }
  }

  lemma NothingRead()
    ensures Digest([], []) == START
  {}

  /** Two runs over the same bytes that both stop at failing images end in the same session. */
  lemma SameBytesSameSession(chunks: seq<seq<bv8>>, chunks': seq<seq<bv8>>)
    requires Legal(START, chunks) && Legal(START, chunks') && Concat(chunks) == Concat(chunks')
    requires StopsAtFailures(chunks) && StopsAtFailures(chunks')
    ensures Run(START, chunks) == Run(START, chunks')
  {
    hide Run, Legal, Digest, StopsAtFailures, Concat;
    ChunkingDoesNotMatter(chunks);
    ChunkingDoesNotMatter(chunks');
  }

  // ---------------------------------------------------------------- the first image

  /** The answers up to and including the one to the first image, and whether it has been judged. */
  function FirstAnswers(bytes: seq<bv8>): (seq<Status>, bool)
    decreases |bytes|
  {
    if |bytes| < HEADER_SIZE then ([], false)
    else
      var h, rest := bytes[..HEADER_SIZE], bytes[HEADER_SIZE..];
      match Refusal(h)
      case Some(status) => var (more, judged) := FirstAnswers(rest); ([status] + more, judged)
      case None =>
        var image := Image(TotalSize(h), ExpectedCrc(h), rest);
        if |rest| < image.total then ([], false) else ([Verdict(image)], true)
  }

  lemma {:induction false} FirstAnswersFirst(responses: seq<Status>, bytes: seq<bv8>)
    ensures var (first, judged) := FirstAnswers(bytes);
            && responses + first <= Digest(responses, bytes).responses
            && (!judged ==> responses + first == Digest(responses, bytes).responses)
    decreases |bytes|
  {
    hide Checksum, TotalSize, ExpectedCrc, Refusal;
    if |bytes| >= HEADER_SIZE {
      var h, rest := bytes[..HEADER_SIZE], bytes[HEADER_SIZE..];
      if Refusal(h).Some? {
        FirstAnswersFirst(responses + [Refusal(h).value], rest);
        assert responses + ([Refusal(h).value] + FirstAnswers(rest).0)
            == responses + [Refusal(h).value] + FirstAnswers(rest).0;
      }
    }
  }

  /** Once the first image has been judged, more bytes change nothing about it. */
  lemma {:induction false} JudgedForGood(bytes: seq<bv8>, more: seq<bv8>)
    ensures FirstAnswers(bytes).1 ==> FirstAnswers(bytes + more) == FirstAnswers(bytes)
    decreases |bytes|
  {
    hide Checksum, TotalSize, ExpectedCrc, Refusal;
    if |bytes| >= HEADER_SIZE {
      var h, rest, all := bytes[..HEADER_SIZE], bytes[HEADER_SIZE..], bytes + more;
      assert all[..HEADER_SIZE] == h && all[HEADER_SIZE..] == rest + more;
      if Refusal(h).Some? {
        JudgedForGood(rest, more);
      } else if |rest| >= TotalSize(h) {
        assert (rest + more)[..TotalSize(h)] == rest[..TotalSize(h)];
      }
    }
  }

  /** The read that completes the first image answers it, however far it runs past it. */
  lemma {:induction false} FirstImageAnswered(responses: seq<Status>, bytes: seq<bv8>, chunk: seq<bv8>)
    requires !FirstAnswers(bytes).1 && Digest(responses, bytes).image.Some?
    requires var image := Digest(responses, bytes).image.value;
             |image.payload + chunk| >= image.total
    ensures var s := Digest(responses, bytes);
            var image := s.image.value;
            responses + FirstAnswers(bytes + chunk).0 == s.responses + [Verdict(image.(payload := image.payload + chunk))]
    decreases |bytes|
  {
    hide Checksum, TotalSize, ExpectedCrc, Refusal;
    var h, rest, all := bytes[..HEADER_SIZE], bytes[HEADER_SIZE..], bytes + chunk;
    assert all[..HEADER_SIZE] == h && all[HEADER_SIZE..] == rest + chunk;
    if Refusal(h).Some? {
      FirstImageAnswered(responses + [Refusal(h).value], rest, chunk);
      assert responses + ([Refusal(h).value] + FirstAnswers(rest + chunk).0)
          == responses + [Refusal(h).value] + FirstAnswers(rest + chunk).0;
    }
  }

  lemma TurnAnswersMore(s: Session, chunk: seq<bv8>)
    requires |chunk| <= Requested(s)
    ensures s.responses <= Turn(s, chunk).responses
    ensures ReadsPastFailure(s, chunk) ==> Turn(s, chunk).responses == s.responses + [CrcFail]
  {
    hide Checksum, TotalSize, ExpectedCrc;
  }

  /** However the bytes fall into reads, wherever the reads end, the answers up to and including the
  one to the first image depend on the bytes alone. */
  lemma {:induction false} FirstAnswersAlways(chunks: seq<seq<bv8>>)
    requires Legal(START, chunks)
    ensures var (first, judged) := FirstAnswers(Concat(chunks));
            && first <= Run(START, chunks).responses
            && (!judged ==> Run(START, chunks) == Digest([], Concat(chunks)))
    decreases |chunks|
  {
    hide Turn, Digest, Requested, ReadsPastFailure, FirstAnswers;
    if chunks == [] {
      NothingRead();
      NoAnswersYet();
    } else {
      var n := |chunks| - 1;
      var b, chunk := Concat(chunks[..n]), chunks[n];
      var s := Run(START, chunks[..n]);
      FirstAnswersAlways(chunks[..n]);
      TurnAnswersMore(s, chunk);
      JudgedForGood(b, chunk);
      FirstAnswersFirst([], b + chunk);
      if !FirstAnswers(b).1 {
        TurnFollowsBytes([], b, chunk);
        if ReadsPastFailure(s, chunk) { FailureAnswered(b, chunk); }
      }
    }
  }

  lemma FailureAnswered(bytes: seq<bv8>, chunk: seq<bv8>)
    requires !FirstAnswers(bytes).1 && ReadsPastFailure(Digest([], bytes), chunk)
    ensures FirstAnswers(bytes + chunk).0 == Digest([], bytes).responses + [CrcFail] && FirstAnswers(bytes + chunk).1
  {
    hide Checksum, TotalSize, ExpectedCrc, Digest, FirstAnswers;
    FirstImageAnswered([], bytes, chunk);
    FirstImageJudged([], bytes, chunk);
  }

  lemma {:induction false} FirstImageJudged(responses: seq<Status>, bytes: seq<bv8>, chunk: seq<bv8>)
    requires !FirstAnswers(bytes).1 && Digest(responses, bytes).image.Some?
    requires var image := Digest(responses, bytes).image.value;
             |image.payload + chunk| >= image.total
    ensures FirstAnswers(bytes + chunk).1
    decreases |bytes|
  {
    hide Checksum, TotalSize, ExpectedCrc, Refusal;
    var h, rest, all := bytes[..HEADER_SIZE], bytes[HEADER_SIZE..], bytes + chunk;
    assert all[..HEADER_SIZE] == h && all[HEADER_SIZE..] == rest + chunk;
    if Refusal(h).Some? { FirstImageJudged(responses + [Refusal(h).value], rest, chunk); }
  }

  lemma NoAnswersYet()
    ensures FirstAnswers([]) == ([], false)
  {}

  /** A run over the start of a stream that has judged the first image has given the answers up to and
  including that one which the whole stream calls for, however far it has read. */
  lemma SameVerdict(chunks: seq<seq<bv8>>, stream: seq<bv8>)
    requires Legal(START, chunks) && Concat(chunks) <= stream && FirstAnswers(Concat(chunks)).1
    ensures FirstAnswers(stream).0 <= Run(START, chunks).responses
  {
    hide Run, Legal, FirstAnswers, Concat;
    var b := Concat(chunks);
    FirstAnswersAlways(chunks);
    JudgedForGood(b, stream[|b|..]);
    assert stream == b + stream[|b|..];
  }

  // ---------------------------------------------------------------- after a failed image

  function After(earlier: seq<Status>, s: Session): Session { s.(responses := earlier + s.responses) }

  /** A run that has ended with the answer to an image that failed, or to a header that was refused,
  goes on as a new run would: a client that waits for the answer is treated as on its first attempt. */
  lemma {:induction false} RetryStartsAfresh(chunks: seq<seq<bv8>>, more: seq<seq<bv8>>)
    requires Legal(START, chunks) && Run(START, chunks).(responses := []) == START && Legal(START, more)
    ensures Legal(START, chunks + more)
    ensures Run(START, chunks + more) == After(Run(START, chunks).responses, Run(START, more))
    decreases |more|
  {
    hide Turn, Requested;
    var s := Run(START, chunks);
    if more == [] {
      assert chunks + more == chunks;
    } else {
      var n := |more| - 1;
      RetryStartsAfresh(chunks, more[..n]);
      var all := chunks + more;
      assert all[..|all| - 1] == chunks + more[..n] && all[|all| - 1] == more[n];
      TurnIgnoresAnswers(s.responses, Run(START, more[..n]), more[n]);
    }
  }

  lemma TurnIgnoresAnswers(earlier: seq<Status>, s: Session, chunk: seq<bv8>)
    requires |chunk| <= Requested(s)
    ensures |chunk| <= Requested(After(earlier, s))
    ensures Turn(After(earlier, s), chunk) == After(earlier, Turn(s, chunk))
  {
    hide Checksum, TotalSize, ExpectedCrc, Refusal;
    assert forall st :: earlier + (s.responses + [st]) == earlier + s.responses + [st];
  }

  /** A client that does not wait may find that reads matter: the read that completes an image also
  takes what has arrived behind it, as far as the sector goes, and throws it away if the image fails.
  Here the same bytes get two answers or one. */
  lemma ReadAheadSwallowsRetry(h: seq<bv8>, x: bv8, junk: seq<bv8>)
    requires |h| == HEADER_SIZE && Refusal(h).None? && TotalSize(h) == 1 && Checksum([x]) != ExpectedCrc(h)
    requires |junk| == HEADER_SIZE && junk[..8] != MAGIC
    ensures var apart, together := [h, [x], junk], [h, [x] + junk];
            && Concat(apart) == Concat(together)
            && Legal(START, apart) && Run(START, apart).responses == [CrcFail, Error]
            && Legal(START, together) && Run(START, together).responses == [CrcFail]
  {
    hide Turn, Requested, Checksum, TotalSize, ExpectedCrc, Refusal, Legal, Run, Concat;
    OneByteAnnounced(h);
    FailsAtOnce(ExpectedCrc(h), x, []);
    FailsAtOnce(ExpectedCrc(h), x, junk);
    JunkRefused(junk);
    assert [x] + [] == [x] && h + ([x] + junk) == h + [x] + junk;
    TwoOrThree(h, [x], junk);
    TwoOrThree(h, [x] + junk, junk);
  }

  lemma OneByteAnnounced(h: seq<bv8>)
    requires |h| == HEADER_SIZE && Refusal(h).None? && TotalSize(h) == 1
    ensures |h| <= Requested(START) && Turn(START, h) == Session([], Some(Image(1, ExpectedCrc(h), [])), [], false)
  {
    hide TotalSize, ExpectedCrc;
    assert START.header + h == h;
  }

  lemma FailsAtOnce(c: nat, x: bv8, more: seq<bv8>)
    requires Checksum([x]) != c && |more| < SECTOR
    ensures var s := Session([], Some(Image(1, c, [])), [], false);
            |[x] + more| <= Requested(s) && Turn(s, [x] + more) == Session([], None, [CrcFail], false)
  {
    hide Checksum;
    assert ([] + ([x] + more))[..1] == [x];
  }

  lemma JunkRefused(junk: seq<bv8>)
    requires |junk| == HEADER_SIZE && junk[..8] != MAGIC
    ensures var s := Session([], None, [CrcFail], false);
            |junk| <= Requested(s) && Turn(s, junk) == Session([], None, [CrcFail, Error], false)
  {
    hide TotalSize, ExpectedCrc;
    assert [] + junk == junk && [CrcFail] + [Error] == [CrcFail, Error];
  }

  /** Such bytes exist: at most one byte has the CRC that the header asks for. */
  lemma ReadAheadHappens() returns (h: seq<bv8>, x: bv8, junk: seq<bv8>)
    ensures |h| == HEADER_SIZE && Refusal(h).None? && TotalSize(h) == 1 && Checksum([x]) != ExpectedCrc(h)
    ensures |junk| == HEADER_SIZE && junk[..8] != MAGIC
  {
    hide Checksum, Crc;
    h := MAGIC + [1, 0, 0, 0] + [0, 0, 0, 0];
    junk := seq(HEADER_SIZE, _ => 0);
    assert h[8..12] == [1, 0, 0, 0] && h[..8] == MAGIC;
    assert junk[0] != MAGIC[0];
    OneIsOne();
    NearImagesDiffer([0], [1], 0);
    SameChecksum([0], [1]);
    x := if Checksum([0]) != ExpectedCrc(h) then 0 else 1;
  }

  lemma OneIsOne()
    ensures Word32([1, 0, 0, 0]) == 1
  {}

  lemma HeaderRead(h: seq<bv8>)
    requires |h| == HEADER_SIZE
    ensures Legal(START, [h]) && Run(START, [h]) == Turn(START, h) && Concat([h]) == h
  {
    hide Turn;
    assert [h][..0] == [];
    assert Legal(START, []) && Run(START, []) == START && Concat([]) == [];
  }

  lemma TwoOrThree(h: seq<bv8>, a: seq<bv8>, b: seq<bv8>)
    requires |h| == HEADER_SIZE && |a| <= Requested(Turn(START, h))
    ensures Legal(START, [h, a]) && Run(START, [h, a]) == Turn(Turn(START, h), a) && Concat([h, a]) == h + a
    ensures |b| <= Requested(Turn(Turn(START, h), a)) ==>
            Legal(START, [h, a, b]) && Run(START, [h, a, b]) == Turn(Turn(Turn(START, h), a), b)
    ensures Concat([h, a, b]) == h + a + b
  {
    hide Turn, Requested;
    HeaderRead(h);
    assert [h, a][..1] == [h] && [h, a, b][..2] == [h, a];
  }
}
