/** The main loop of ota_server_task in App/tcp/ota_server.c, with its sector buffer and the flash
behind it. Each turn is proved to follow module OtaSession when the flash is reliable, and to be safe
whatever the flash does.
*/
module OtaServer {
  import opened Basics
  import opened Crc32
  import opened OtaFlash
  import opened OtaSession
  import RingWrites

  /** The first n bytes of the slot. */
  function SlotPrefix(mem: Cells, n: nat): Cells
    requires |mem| == SPACE && n <= SLOT_SIZE
  {
    mem[SLOT_ADDR..SLOT_ADDR + n]
  }

  /** A write inside one sector of the slot leaves the sectors before it alone. */
  lemma EarlierSectorsKept(m: Cells, r: Cells, sector: nat)
    requires |m| == SPACE && sector * SECTOR + SECTOR <= SLOT_SIZE
    requires SameOutside(m, r, SLOT_ADDR + sector * SECTOR, SLOT_ADDR + sector * SECTOR + SECTOR)
    ensures SlotPrefix(r, sector * SECTOR) == SlotPrefix(m, sector * SECTOR)
    ensures SameOutside(m, r, SLOT_ADDR, SLOT_END)
  {}

  class Receiver {
    const flash: Flash
    var header: seq<bv8>       // header_buf, as far as header_received
    var headerValid: bool
    const sectorBuf: array<bv8>
    var pos: nat               // sector_buf_pos
    var currentSector: nat
    var received: nat
    var totalSize: nat
    var expectedCrc: nat
    var responses: seq<Status>
    var rebooted: bool
    ghost var payload: seq<bv8> // the payload bytes read since the header was accepted

    ghost predicate Shape()
      reads this, flash
    {
      flash.Valid() && sectorBuf.Length == SECTOR && |header| < HEADER_SIZE
    }

    /** Completed sectors in flash, followed by the sector buffer, are the payload read so far. */
    ghost predicate Receiving()
      reads this, flash, sectorBuf
      requires Shape()
    {
      && 0 < totalSize <= MAX_SIZE && received < totalSize
      && received == |payload| == currentSector * SECTOR + pos && pos < SECTOR
      && SlotPrefix(flash.mem, currentSector * SECTOR) + sectorBuf[..pos] == payload
    }

    ghost predicate Valid()
      reads this, flash, sectorBuf
    {
      Shape() && (headerValid ==> header == [] && Receiving()) && (!headerValid ==> pos == 0)
    }

    ghost function Abs(): Session
      reads this
    {
      Session(header, if headerValid then Some(Image(totalSize, expectedCrc, payload)) else None, responses, rebooted)
    }

    constructor (flash: Flash)
      requires flash.Valid()
      ensures Valid() && this.flash == flash && Abs() == START && fresh(sectorBuf)
    {
      this.flash := flash;
      sectorBuf := new bv8[SECTOR];
      header, headerValid, pos, currentSector, received, totalSize, expectedCrc := [], false, 0, 0, 0, 0, 0;
      responses, rebooted, payload := [], false, [];
    }

    /** ota_flush_sector: erase, then write. Both stay inside the sector, whatever happens. */
    method FlushSector(n: nat, sector: nat) returns (ok: bool)
      requires Shape() && n <= SECTOR && sector * SECTOR + SECTOR <= SLOT_SIZE
      modifies flash
      ensures flash.Valid()
      ensures SameOutside(old(flash.mem), flash.mem, SLOT_ADDR + sector * SECTOR, SLOT_ADDR + sector * SECTOR + SECTOR)
      ensures ok ==> SlotPrefix(flash.mem, sector * SECTOR + n) == SlotPrefix(old(flash.mem), sector * SECTOR) + sectorBuf[..n]
      ensures flash.Reliable() ==> ok
    {
      hide Flash.Reliable, SameOutside, EraseAccepted, SectorAddress, WriteAccepted;
      hide RingWrites.Written, Floor8, Ceil8, SlotPrefix, Patch;
      ghost var m, from := flash.mem, SLOT_ADDR + sector * SECTOR;
      if n == 0 {
        NothingFlushed(m, sector);
        assert sectorBuf[..0] == [];
        return true;
      }
      SectorOfSlot(sector, n);
      ok := flash.EraseSector(sector);
      if !ok {
        return;
      }
      ghost var erased := flash.mem;
      ok := flash.Write(sector * SECTOR, sectorBuf[..n]);
      OutsideOfBoth(m, erased, flash.mem, from, from + SECTOR, Floor8(from), Ceil8(from + n));
      if ok {
        PatchedPrefix(m, erased, sector, sectorBuf[..n]);
      }
    }

    /** Phase 1 of the loop: accumulate the header, and parse it when it is complete. */
    method HeaderTurn(chunk: seq<bv8>)
      requires Valid() && !headerValid && !rebooted && |chunk| <= HEADER_SIZE - |header|
      modifies this
      ensures Valid() && Abs() == Turn(old(Abs()), chunk)
    {
      hide TotalSize, ExpectedCrc, Checksum;
      header := header + chunk;
      if |header| < HEADER_SIZE {
        return;
      }
      if header[..8] != MAGIC {
        responses := responses + [Error];
        header := [];
        return;
      }
      totalSize, expectedCrc := TotalSize(header), ExpectedCrc(header);
      if totalSize == 0 || totalSize > MAX_SIZE {
        responses := responses + [SizeMismatch];
        header := [];
        return;
      }
      headerValid, header := true, [];
      received, pos, currentSector, payload := 0, 0, 0, [];
      assert SlotPrefix(flash.mem, 0) + sectorBuf[..0] == [];
    }

    /** Between the phases of a payload turn: as Receiving, but the image may be complete and the
    sector buffer full. The sector that the buffer belongs to is one of the slot. */
    ghost predicate Filled()
      reads this, flash, sectorBuf
    {
      && Shape() && headerValid && header == [] && 0 < totalSize <= MAX_SIZE
      && received == |payload| == currentSector * SECTOR + pos && pos <= SECTOR
      && currentSector * SECTOR <= SLOT_SIZE && (pos > 0 ==> currentSector * SECTOR < totalSize)
      && SlotPrefix(flash.mem, currentSector * SECTOR) + sectorBuf[..pos] == payload
    }

    /** The read: the bytes go behind those in the sector buffer. */
    method StoreChunk(chunk: seq<bv8>)
      requires Valid() && headerValid && |chunk| <= SECTOR - pos
      modifies this`pos, this`received, this`payload, sectorBuf
      ensures Filled() && payload == old(payload) + chunk
    {
      forall i | 0 <= i < |chunk| {
        sectorBuf[pos + i] := chunk[i];
      }
      assert sectorBuf[..pos + |chunk|] == old(sectorBuf[..pos]) + chunk;
      pos := pos + |chunk|;
      received := received + |chunk|;
      payload := payload + chunk;
    }

    /** Give up: answer, and wait for the next header. */
    method Abandon(status: Status)
      requires Shape() && header == []
      modifies this`responses, this`headerValid, this`pos
      ensures Valid() && !headerValid && responses == old(responses) + [status]
    {
      responses := responses + [status];
      headerValid, pos := false, 0;
    }

    /** Flush full sectors to flash. The buffer never holds more than one, so nothing is ever left
    to be moved to its start. */
    method FlushFull() returns (ok: bool)
      requires Filled()
      modifies this`currentSector, this`pos, flash
      ensures SameOutside(old(flash.mem), flash.mem, SLOT_ADDR, SLOT_END)
      ensures ok ==> Filled() && pos < SECTOR
      ensures !ok ==> Shape() && !flash.Reliable()
    {
      hide Flash.Reliable;
      ok := true;
      while pos >= SECTOR
        invariant ok && Filled() && SameOutside(old(flash.mem), flash.mem, SLOT_ADDR, SLOT_END)
        decreases pos
      {
        ghost var m := flash.mem;
        SectorInSlot(currentSector, totalSize);
        ok := FlushSector(SECTOR, currentSector);
        EarlierSectorsKept(m, flash.mem, currentSector);
        OutsideOfBoth(old(flash.mem), m, flash.mem, SLOT_ADDR, SLOT_END, SLOT_ADDR, SLOT_END);
        if !ok {
          break;
        }
        currentSector := currentSector + 1;
        pos := pos - SECTOR;
        if pos > 0 {
          assert false;
        }
        assert sectorBuf[..0] == [];
      }
    }

    /** The image is complete: flush the last partial sector, check the CRC of what is in the slot,
    and answer. OK is answered, and the device restarts, only if the slot holds the payload. */
    method Finish() returns (status: Status)
      requires Filled() && pos < SECTOR && received >= totalSize && !rebooted
      modifies this`responses, this`headerValid, this`pos, this`rebooted, flash
      ensures Valid() && !headerValid
      ensures responses == old(responses) + [status] && rebooted == (status == Ok)
      ensures SameOutside(old(flash.mem), flash.mem, SLOT_ADDR, SLOT_END)
      ensures status == FlashError ==> !flash.Reliable()
      ensures status != FlashError ==>
        var image := Image(totalSize, expectedCrc, payload);
        SlotPrefix(flash.mem, image.total) == payload[..image.total] && status == Verdict(image)
    {
      hide Flash.Reliable, Crc, Number;
      ghost var m := flash.mem;
      var ok := FlushLast();
      if !ok {
        status := FlashError;
        Abandon(status);
        return;
      }
      var crc := flash.Crc32Of(0, totalSize);
      PrefixOfPrefix(flash.mem, received, totalSize);
      if Number(crc) != expectedCrc {
        status := CrcFail;
        Abandon(status);
        return;
      }
      status := Ok;
      Abandon(status);
      rebooted := true;
    }

    /** The flush of the last sector, which may be empty. */
    method FlushLast() returns (ok: bool)
      requires Filled() && pos < SECTOR
      modifies flash
      ensures flash.Valid() && SameOutside(old(flash.mem), flash.mem, SLOT_ADDR, SLOT_END)
      ensures ok ==> received <= SLOT_SIZE && SlotPrefix(flash.mem, received) == payload
      ensures !ok ==> !flash.Reliable()
    {
      hide Flash.Reliable;
      if pos == 0 {
        assert sectorBuf[..0] == [];
        return true;
      }
      SectorInSlot(currentSector, totalSize);
      ok := FlushSector(pos, currentSector);
      EarlierSectorsKept(old(flash.mem), flash.mem, currentSector);
    }

    /** Phase 2 of the loop. */
    method PayloadTurn(chunk: seq<bv8>)
      requires Valid() && headerValid && !rebooted && |chunk| <= SECTOR - pos
      modifies this`pos, this`currentSector, this`received, this`payload, this`headerValid
      modifies this`responses, this`rebooted, sectorBuf, flash
      ensures Valid() && SameOutside(old(flash.mem), flash.mem, SLOT_ADDR, SLOT_END)
      ensures payload == old(payload) + chunk
      ensures headerValid ==> Abs() == Turn(old(Abs()), chunk)
      ensures !headerValid ==> |responses| == |old(responses)| + 1 && responses[..|old(responses)|] == old(responses)
      ensures !headerValid ==> rebooted == (responses[|responses| - 1] == Ok)
      ensures !headerValid && responses[|responses| - 1] != FlashError ==>
        var image := Image(totalSize, expectedCrc, payload);
        && image.total <= SLOT_SIZE && image.total <= |payload|
        && SlotPrefix(flash.mem, image.total) == payload[..image.total]
        && responses[|responses| - 1] == Verdict(image)
      ensures !headerValid && responses[|responses| - 1] == FlashError ==> !flash.Reliable()
    {
      hide Flash.Reliable, Checksum, Verdict, SlotPrefix, SameOutside;
      OutsideOfNothing(flash.mem);
      if chunk == [] {
        assert payload == payload + chunk;
        return;
      }
      StoreChunk(chunk);
      var ok := FlushFull();
      ghost var m := flash.mem;
      if !ok {
        Abandon(FlashError);
        return;
      }
      if received >= totalSize {
        var status := Finish();
        OutsideOfBoth(old(flash.mem), m, flash.mem, SLOT_ADDR, SLOT_END, SLOT_ADDR, SLOT_END);
      }
    }

    /** What the next read asks the stream buffer for. */
    method Ask() returns (n: nat)
      requires Valid()
      ensures n == Requested(Abs())
    {
      if !headerValid {
        n := HEADER_SIZE - |header|;
      } else {
        n := SECTOR - pos;
        assert |payload| % SECTOR == pos;
      }
    }

    /** The slot holds the image announced, and its CRC is the one announced. */
    ghost predicate Installed()
      reads this, flash
    {
      && flash.Valid() && totalSize <= |payload| && totalSize <= SLOT_SIZE
      && SlotPrefix(flash.mem, totalSize) == payload[..totalSize] && Checksum(payload[..totalSize]) == expectedCrc
    }

    /** One turn of the main loop. */
    method Iterate(chunk: seq<bv8>)
      requires Valid() && !rebooted && |chunk| <= Requested(Abs())
      modifies this, sectorBuf, flash
      ensures Valid() && SameOutside(old(flash.mem), flash.mem, SLOT_ADDR, SLOT_END)
      ensures flash.Reliable() ==> Abs() == Turn(old(Abs()), chunk)
      ensures rebooted ==> old(headerValid) && payload == old(payload) + chunk && Installed()
      ensures rebooted ==> totalSize == old(totalSize) && expectedCrc == old(expectedCrc)
    {
      hide Flash.Reliable, Checksum, SlotPrefix, SameOutside, Headed;
      if !headerValid {
        OutsideOfNothing(flash.mem);
        HeaderTurn(chunk);
        NoRestart(old(Abs()), chunk);
      } else {
        ghost var was := responses;
        assert |payload| % SECTOR == pos;
        PayloadTurn(chunk);
        assert !headerValid ==> responses == was + [responses[|was|]];
      }
    }

    /** The main loop, for as long as reads return and the device has not restarted. Whatever the
    stream buffer offers, a read takes no more than it asked for. */
    method Serve(offers: seq<seq<bv8>>) returns (ghost taken: seq<seq<bv8>>)
      requires Valid() && !rebooted
      modifies this, sectorBuf, flash
      ensures Valid() && SameOutside(old(flash.mem), flash.mem, SLOT_ADDR, SLOT_END)
      ensures flash.Reliable() ==> Legal(old(Abs()), taken) && Abs() == Run(old(Abs()), taken)
      ensures rebooted ==> Installed()
    {
      hide Flash.Reliable, SameOutside, Valid, Turn, Requested, Installed;
      OutsideOfNothing(flash.mem);
      taken := [];
      var i := 0;
      while i < |offers| && !rebooted
        invariant Valid() && SameOutside(old(flash.mem), flash.mem, SLOT_ADDR, SLOT_END)
        invariant rebooted ==> Installed()
        invariant flash.Reliable() ==> Legal(old(Abs()), taken) && Abs() == Run(old(Abs()), taken)
        decreases |offers| - i
      {
        ghost var m := flash.mem;
        var asked := Ask();
        var chunk := if |offers[i]| < asked then offers[i] else offers[i][..asked];
        assert (taken + [chunk])[..|taken|] == taken;
        taken := taken + [chunk];
        Iterate(chunk);
        OutsideOfBoth(old(flash.mem), m, flash.mem, SLOT_ADDR, SLOT_END, SLOT_ADDR, SLOT_END);
        i := i + 1;
      }
    }
  }

  /** A header turn never restarts the device. */
  lemma NoRestart(s: Session, chunk: seq<bv8>)
    requires s.image.None? && !s.rebooted && |chunk| <= Requested(s)
    ensures !Turn(s, chunk).rebooted
  {
    hide TotalSize, ExpectedCrc;
  }

  lemma OutsideOfNothing(mem: Cells)
    ensures SameOutside(mem, mem, SLOT_ADDR, SLOT_END)
  {}

  lemma PrefixOfPrefix(mem: Cells, n: nat, k: nat)
    requires |mem| == SPACE && k <= n <= SLOT_SIZE
    ensures SlotPrefix(mem, n)[..k] == SlotPrefix(mem, k)
  {}

  lemma SectorInSlot(sector: nat, total: nat)
    requires sector * SECTOR < total <= MAX_SIZE
    ensures sector * SECTOR + SECTOR <= SLOT_SIZE
  {}

  /** Erasing and writing a sector of the slot is accepted, and stays inside the sector. */
  lemma SectorOfSlot(sector: nat, n: nat)
    requires n <= SECTOR && sector * SECTOR + SECTOR <= SLOT_SIZE
    ensures EraseAccepted(sector) && SectorAddress(sector) == SLOT_ADDR + sector * SECTOR
    ensures WriteAccepted(sector * SECTOR, n)
    ensures var from := SLOT_ADDR + sector * SECTOR;
            Floor8(from) == from && Ceil8(from + n) <= from + SECTOR
  {
    EraseStaysInside(sector);
  }

  lemma NothingFlushed(m: Cells, sector: nat)
    requires |m| == SPACE && sector * SECTOR <= SLOT_SIZE
    ensures SameOutside(m, m, SLOT_ADDR + sector * SECTOR, SLOT_ADDR + sector * SECTOR + SECTOR)
    ensures SlotPrefix(m, sector * SECTOR) == SlotPrefix(m, sector * SECTOR) + []
  {}

  lemma PatchedPrefix(m: Cells, erased: Cells, sector: nat, d: Cells)
    requires |m| == SPACE && sector * SECTOR + SECTOR <= SLOT_SIZE && |d| <= SECTOR
    requires SameOutside(m, erased, SLOT_ADDR + sector * SECTOR, SLOT_ADDR + sector * SECTOR + SECTOR)
    ensures SlotPrefix(Patch(erased, SLOT_ADDR + sector * SECTOR, d), sector * SECTOR + |d|) ==
            SlotPrefix(m, sector * SECTOR) + d
  {}
}
