/** The flash driver of the firmware update, App/ota/ota_flash.c: byte-granular writes built from
aligned doublewords that are read back after programming.

Programming and erasing may fail in any way the hardware likes: an oracle says for each use what
state is reported and what the cells hold afterwards.
*/
module OtaFlash {
  import opened Basics
  import opened Crc32
  import opened RingWrites

  const SPACE: nat := TWO_32             // the 32-bit address space
  const SLOT_ADDR: nat := 0x080C_0000    // SECONDARY_SLOT_ADDR
  const SLOT_SIZE: nat := 0x000A_0000    // SECONDARY_SLOT_SIZE
  const SECTOR_SIZE: nat := 0x1000       // FLASH_SECTOR_SIZE
  const SLOT_END: nat := SLOT_ADDR + SLOT_SIZE

  type Cells = seq<bv8>

  type Doubleword = d: Cells | |d| == 8 witness [0, 0, 0, 0, 0, 0, 0, 0]

  type Sector = s: Cells | |s| == SECTOR_SIZE witness seq(SECTOR_SIZE, _ => 0)

  /** What the hardware reports, and what the cells hold. */
  datatype Outcome<T> = Outcome(ready: bool, stored: T)

  // ---------------------------------------------------------------- copying bytes

  /** Memory m with d copied to address a. */
  function Patch(m: Cells, a: nat, d: Cells): (r: Cells)
    requires a + |d| <= |m|
    ensures |r| == |m|
  {
    m[..a] + d + m[a + |d|..]
  }

  lemma PatchNothing(m: Cells, a: nat)
    requires a <= |m|
    ensures Patch(m, a, []) == m
  {}

  /** Reading a doubleword, changing some of its bytes and writing it back copies just those. */
  lemma ReadModifyWrite(m: Cells, aligned: nat, skip: nat, d: Cells)
    requires skip + |d| <= 8 && aligned + 8 <= |m|
    ensures Patch(m, aligned, Patch(m[aligned..aligned + 8], skip, d)) == Patch(m, aligned + skip, d)
  {
    var word := Patch(m[aligned..aligned + 8], skip, d);
    var l, r := Patch(m, aligned, word), Patch(m, aligned + skip, d);
    forall i | 0 <= i < |m| ensures l[i] == r[i] {
      if aligned <= i < aligned + 8 { assert l[i] == word[i - aligned]; }
    }
  }

  /** Nothing outside the range has changed. */
  ghost predicate SameOutside(m: Cells, r: Cells, from: nat, to: nat) {
    |r| == |m| && forall i :: 0 <= i < |m| && !(from <= i < to) ==> r[i] == m[i]
  }

  lemma OutsideOfBoth(m: Cells, r: Cells, s: Cells, from: nat, to: nat, f: nat, t: nat)
    requires SameOutside(m, r, from, to) && SameOutside(r, s, f, t) && from <= f && t <= to
    ensures SameOutside(m, s, from, to)
  {}

  function Floor8(a: nat): nat { a - a % 8 }

  function Ceil8(a: nat): nat { if a % 8 == 0 then a else a - a % 8 + 8 }

  /** The doublewords that a write inside the slot touches are inside the slot. */
  lemma DoublewordsInside(offset: nat, len: nat)
    requires offset + len <= SLOT_SIZE
    ensures var a := SLOT_ADDR + offset;
            && SLOT_ADDR <= Floor8(a) <= a && a + len <= Ceil8(a + len) <= SLOT_END
            && Floor8(a) % 8 == 0 && Ceil8(a + len) % 8 == 0 && Floor8(a) <= Ceil8(a + len)
            && (a % 8 != 0 ==> Floor8(a) + 8 <= Ceil8(a + len))
  {}

  lemma PatchIsWritten(m: Cells, a: nat, d: Cells)
    requires a < |m| && a + |d| <= |m|
    ensures Written(m, Patch(m, a, d), a, d)
  {
    var r := Patch(m, a, d);
    forall p | a <= p < a + |d| ensures r[p] == d[p - a] && exists i :: 0 <= i < |d| && p == At(a, i, |m|) {
      assert p == At(a, p - a, |m|);
    }
  }

  lemma WrittenIsPatch(m: Cells, r: Cells, a: nat, d: Cells)
    requires Written(m, r, a, d) && a + |d| <= |m|
    ensures r == Patch(m, a, d)
  {
    forall p | 0 <= p < |m| ensures r[p] == Patch(m, a, d)[p] {
      if a <= p < a + |d| { assert p == At(a, p - a, |m|); }
    }
  }

  lemma WrittenNothing(m: Cells, a: nat)
    requires a < |m|
    ensures Written(m, m, a, []) && At(a, 0, |m|) == a
  {}

  lemma WrittenStaysWithin(m: Cells, r: Cells, a: nat, d: Cells, to: nat)
    requires Written(m, r, a, d) && a + |d| <= to && a + |d| <= |m|
    ensures SameOutside(m, r, a, to)
  {
    WrittenIsPatch(m, r, a, d);
  }

  /** The cells at `len` addresses from a on, taken modulo 2^32. */
  function CellsFrom(m: Cells, a: nat, len: nat): (d: Cells)
    requires |m| == SPACE
    ensures |d| == len
  {
    seq(len, i requires 0 <= i < len => m[(a + i) % SPACE])
  }

  lemma CellsWithin(m: Cells, a: nat, len: nat)
    requires |m| == SPACE && a + len <= SPACE
    ensures CellsFrom(m, a, len) == m[a..a + len]
  {}

  /** Every doubleword of a write is aligned, also past the end of the address space. */
  lemma AlignedNext(a: nat, done: nat)
    requires a < SPACE && a % 8 == 0 && done % 8 == 0 && done < SPACE
    ensures done + 8 <= SPACE && At(a, done, SPACE) % 8 == 0 && At(a, done, SPACE) + 8 <= SPACE
    ensures (At(a, done, SPACE) + 8) % SPACE == At(a, done + 8, SPACE)
  {}

  lemma CeilAbove(a: nat, done: nat, len: nat)
    requires a % 8 == 0 && done % 8 == 0 && done < len && a + len <= SPACE && a < SPACE
    ensures At(a, done, SPACE) == a + done && a + done + 8 <= Ceil8(a + len)
  {}

  lemma AddressOfSector(sector: nat)
    ensures SectorAddress(sector) < SLOT_END ==> SectorAddress(sector) + SECTOR_SIZE <= SLOT_END
  {}

  lemma CeilGrows(a: nat, len: nat)
    ensures Floor8(a) <= a <= Ceil8(a) <= Ceil8(a + len) && a + len <= Ceil8(a + len)
  {}

  lemma WiderOutside(m: Cells, r: Cells, from: nat, to: nat, wider: nat)
    requires SameOutside(m, r, from, to) && to <= wider
    ensures SameOutside(m, r, from, wider)
  {}

  lemma NothingOutside(m: Cells, a: nat, len: nat)
    ensures SameOutside(m, m, Floor8(a), Ceil8(a + len))
  {}

  /** The last doubleword of a write starts where the aligned ones end. */
  lemma TailAligned(a: nat, body: nat, len: nat)
    requires a < SPACE && body < len < SPACE && a % 8 == 0 && body % 8 == 0
    ensures At(a, body, SPACE) % 8 == 0
    ensures a + len <= SPACE ==> At(a, body, SPACE) == a + body && a + body + 8 <= Ceil8(a + len)
  {}

  // ---------------------------------------------------------------- the range checks

  /** The check of ota_flash_write, in 32-bit arithmetic. */
  predicate WriteAccepted(offset: nat, len: nat) { (offset + len) % SPACE <= SLOT_SIZE }

  /** An accepted write stays inside the slot if and only if the sum did not wrap. */
  lemma WriteStaysInside(offset: nat, len: nat)
    requires offset < SPACE && len < SPACE && WriteAccepted(offset, len)
    ensures offset + len <= SLOT_SIZE <==> offset + len < SPACE
  {}

  lemma WrappedWriteAccepted()
    ensures WriteAccepted(0xFFFF_FFF8, 16) && 0xFFFF_FFF8 + 16 > SLOT_SIZE
  {}

  function SectorAddress(sector: nat): nat { (SLOT_ADDR + sector * SECTOR_SIZE) % SPACE }

  /** The check of ota_flash_erase_sector. */
  predicate EraseAccepted(sector: nat) { SectorAddress(sector) < SLOT_END }

  const SECTORS_IN_SPACE: nat := 0x10_0000 // the sector addresses repeat after so many
  const SECTORS_TO_WRAP: nat := 0xF_7F40   // from the slot to the end of the address space
  const SECTORS_IN_SLOT: nat := 0xA0

  /** Exactly which sector indices are accepted, and which of those are sectors of the slot. Among
  the indices that do not wrap they are the same. */
  lemma EraseStaysInside(sector: nat)
    ensures var k := sector % SECTORS_IN_SPACE;
            && (EraseAccepted(sector) <==> k < SECTORS_IN_SLOT || k >= SECTORS_TO_WRAP)
            && (EraseAccepted(sector) ==> (SLOT_ADDR <= SectorAddress(sector) <==> k < SECTORS_IN_SLOT))
            && (k < SECTORS_IN_SLOT ==> SectorAddress(sector) == SLOT_ADDR + k * SECTOR_SIZE)
    ensures SLOT_ADDR + sector * SECTOR_SIZE < SPACE ==> (EraseAccepted(sector) <==> sector < SECTORS_IN_SLOT)
  {
    var q, k := sector / SECTORS_IN_SPACE, sector % SECTORS_IN_SPACE;
    assert sector * SECTOR_SIZE == q * SPACE + k * SECTOR_SIZE;
    assert SectorAddress(sector) == (SLOT_ADDR + k * SECTOR_SIZE) % SPACE;
  }

  lemma WrappedEraseAccepted()
    ensures EraseAccepted(SECTORS_TO_WRAP) && SectorAddress(SECTORS_TO_WRAP) < SLOT_ADDR
  {}

  // ---------------------------------------------------------------- the driver

  class Flash {
    var mem: Cells                       // the whole address space
    var uses: nat                        // how often the hardware has been used
    const program: (nat, nat, Doubleword) -> Outcome<Doubleword> // by use, address and data
    const erase: (nat, nat) -> Outcome<Sector>                   // by use and address

    ghost predicate Valid()
      reads this
    {
      |mem| == SPACE
    }

    /** Hardware that does what it is told. */
    ghost predicate Reliable() {
      && (forall n, a, d :: program(n, a, d) == Outcome(true, d))
      && (forall n, a :: erase(n, a).ready && erase(n, a).stored[..4] == [0xFF, 0xFF, 0xFF, 0xFF])
    }

    constructor (mem: Cells, program: (nat, nat, Doubleword) -> Outcome<Doubleword>,
                 erase: (nat, nat) -> Outcome<Sector>)
      requires |mem| == SPACE
      ensures Valid() && this.mem == mem && this.program == program && this.erase == erase
    {
      this.mem, this.uses, this.program, this.erase := mem, 0, program, erase;
    }

    /** program_doubleword: success means that the doubleword reads back as it should. */
    method ProgramDoubleword(addr: nat, data: Doubleword) returns (ok: bool)
      requires Valid() && addr % 8 == 0 && addr < SPACE
      modifies this
      ensures Valid() && SameOutside(old(mem), mem, addr, addr + 8)
      ensures ok ==> mem == Patch(old(mem), addr, data)
      ensures Reliable() ==> ok
    {
      var outcome := program(uses, addr, data);
      mem := Patch(mem, addr, outcome.stored);
      uses := uses + 1;
      ok := outcome.ready && mem[addr..addr + 8] == data;
      assert mem[addr..addr + 8] == outcome.stored;
    }

    /** ota_flash_erase_sector: only the sector at the address computed is touched, and success means
    that its first word reads erased. */
    method EraseSector(sector: nat) returns (ok: bool)
      requires Valid()
      modifies this
      ensures Valid()
      ensures !EraseAccepted(sector) ==> !ok && mem == old(mem)
      ensures EraseAccepted(sector) ==>
        var addr := SectorAddress(sector);
        && addr + SECTOR_SIZE <= SLOT_END && SameOutside(old(mem), mem, addr, addr + SECTOR_SIZE)
        && (ok ==> mem[addr..addr + 4] == [0xFF, 0xFF, 0xFF, 0xFF])
      ensures EraseAccepted(sector) && Reliable() ==> ok
    {
      AddressOfSector(sector);
      var addr := SectorAddress(sector);
      if addr >= SLOT_END {
        return false;
      }
      var outcome := erase(uses, addr);
      mem := Patch(mem, addr, outcome.stored);
      uses := uses + 1;
      if !outcome.ready {
        return false;
      }
      ok := mem[addr..addr + 4] == [0xFF, 0xFF, 0xFF, 0xFF];
      assert mem[addr..addr + 4] == outcome.stored[..4];
    }

    /** The part of a doubleword that comes before or after the aligned ones: read, patch, program. */
    method WritePart(aligned: nat, skip: nat, part: Cells) returns (ok: bool)
      requires Valid() && aligned % 8 == 0 && aligned < SPACE && skip + |part| <= 8
      modifies this
      ensures Valid() && SameOutside(old(mem), mem, aligned, aligned + 8)
      ensures ok ==> mem == Patch(old(mem), aligned + skip, part)
      ensures Reliable() ==> ok
    {
      var buf := Patch(mem[aligned..aligned + 8], skip, part);
      ReadModifyWrite(mem, aligned, skip, part);
      ok := ProgramDoubleword(aligned, buf);
    }

    /** The unaligned bytes at the start of a write, if any. */
    method WriteHead(a: nat, data: Cells) returns (ok: bool, done: nat)
      requires Valid() && a < SPACE
      modifies this
      ensures Valid() && done <= |data| && a + done <= SPACE
      ensures SameOutside(old(mem), mem, Floor8(a), Ceil8(a))
      ensures ok ==> mem == Patch(old(mem), a, data[..done]) && (done == |data| || (a + done) % 8 == 0)
      ensures Reliable() ==> ok
    {
      ok, done := true, 0;
      if a % 8 != 0 {
        var head := 8 - a % 8;
        if head > |data| {
          head := |data|;
        }
        ok := WritePart(a - a % 8, a % 8, data[..head]);
        done := head;
      } else {
        PatchNothing(mem, a);
      }
    }

    /** The aligned doublewords of a write, which go on at address 0 after the last. */
    method WriteBody(a: nat, data: Cells) returns (ok: bool, done: nat)
      requires Valid() && a < SPACE && |data| < SPACE && (|data| == 0 || a % 8 == 0)
      modifies this
      ensures Valid() && done <= |data|
      ensures a + |data| <= SPACE ==> SameOutside(old(mem), mem, a, Ceil8(a + |data|))
      ensures ok ==> Written(old(mem), mem, a, data[..done]) && |data| - done < 8 && done % 8 == 0
      ensures Reliable() ==> ok
    {
      hide Written, Patch, SameOutside, Reliable, At, Ceil8;
      ok, done := true, 0;
      ghost var m := mem;
      WrittenNothing(mem, a);
      CeilGrows(a, |data|);
      var addr := a;
      while |data| - done >= 8
        invariant Valid() && done <= |data| && done % 8 == 0 && ok && addr == At(a, done, SPACE)
        invariant Written(m, mem, a, data[..done])
        decreases |data| - done
      {
        ghost var before := mem;
        AlignedNext(a, done);
        ok := ProgramDoubleword(addr, data[done..done + 8]);
        if a + |data| <= SPACE {
          WrittenStaysWithin(m, before, a, data[..done], Ceil8(a + |data|));
          CeilAbove(a, done, |data|);
        }
        if !ok {
          if a + |data| <= SPACE { OutsideOfBoth(m, before, mem, a, Ceil8(a + |data|), addr, addr + 8); }
          return;
        }
        PatchIsWritten(before, addr, data[done..done + 8]);
        WrittenTwice(m, before, mem, a, data[..done], data[done..done + 8]);
        assert data[..done] + data[done..done + 8] == data[..done + 8];
        addr := (addr + 8) % SPACE;
        done := done + 8;
      }
      if a + |data| <= SPACE {
        WrittenStaysWithin(m, mem, a, data[..done], Ceil8(a + |data|));
      }
    }

    /** What follows the unaligned start of a write. */
    method WriteRest(a: nat, data: Cells) returns (ok: bool)
      requires Valid() && a < SPACE && |data| < SPACE && (|data| == 0 || a % 8 == 0)
      modifies this
      ensures Valid()
      ensures ok ==> Written(old(mem), mem, a, data)
      ensures Reliable() ==> ok
      ensures a + |data| <= SPACE ==> SameOutside(old(mem), mem, a, Ceil8(a + |data|))
    {
      hide Written, Patch, SameOutside, Reliable, Ceil8;
      var done;
      ok, done := WriteBody(a, data);
      if ok && done < |data| {
        ghost var m, m1 := old(mem), mem;
        TailAligned(a, done, |data|);
        var addr := (a + done) % SPACE;
        ok := WritePart(addr, 0, data[done..]);
        if a + |data| <= SPACE {
          OutsideOfBoth(m, m1, mem, a, Ceil8(a + |data|), addr, addr + 8);
        }
        if ok {
          PatchIsWritten(m1, addr, data[done..]);
          WrittenTwice(m, m1, mem, a, data[..done], data[done..]);
          assert data[..done] + data[done..] == data;
        }
      } else {
        assert done == |data| ==> data[..done] == data;
      }
    }

    /** The bytes of a write, once the range has been checked. */
    method WriteAll(a: nat, data: Cells) returns (ok: bool)
      requires Valid() && a < SPACE && |data| < SPACE
      modifies this
      ensures Valid()
      ensures ok ==> Written(old(mem), mem, a, data)
      ensures Reliable() ==> ok
      ensures a + |data| < SPACE ==> SameOutside(old(mem), mem, Floor8(a), Ceil8(a + |data|))
    {
      hide Written, Patch, SameOutside, Reliable, Floor8, Ceil8;
      var done;
      ok, done := WriteHead(a, data);
      ghost var m, m1 := old(mem), mem;
      CeilGrows(a, |data|);
      WiderOutside(m, m1, Floor8(a), Ceil8(a), Ceil8(a + |data|));
      if ok {
        PatchIsWritten(m, a, data[..done]);
        var next := (a + done) % SPACE;
        ok := WriteRest(next, data[done..]);
        if a + |data| < SPACE {
          assert next + |data[done..]| == a + |data|;
          OutsideOfBoth(m, m1, mem, Floor8(a), Ceil8(a + |data|), next, Ceil8(a + |data|));
        }
        if ok {
          WrittenTwice(m, m1, mem, a, data[..done], data[done..]);
          assert data[..done] + data[done..] == data;
        }
      }
    }

    /** ota_flash_write: success means that the bytes have been copied and no other byte of the flash
    has changed. A write that the check rightly accepts stays inside the slot, also if it fails. */
    method Write(offset: nat, data: Cells) returns (ok: bool)
      requires Valid() && offset < SPACE && |data| < SPACE
      modifies this
      ensures Valid()
      ensures !WriteAccepted(offset, |data|) ==> !ok && mem == old(mem)
      ensures ok ==> Written(old(mem), mem, (SLOT_ADDR + offset) % SPACE, data)
      ensures WriteAccepted(offset, |data|) && Reliable() ==> ok
      ensures offset + |data| <= SLOT_SIZE ==>
        var a := SLOT_ADDR + offset;
        && SLOT_ADDR <= Floor8(a) && Ceil8(a + |data|) <= SLOT_END
        && SameOutside(old(mem), mem, Floor8(a), Ceil8(a + |data|))
        && (ok ==> mem == Patch(old(mem), a, data))
    {
      hide Written, Patch, SameOutside, Reliable, Floor8, Ceil8;
      NothingOutside(mem, SLOT_ADDR + offset, |data|);
      if !WriteAccepted(offset, |data|) {
        return false;
      }
      var a := (SLOT_ADDR + offset) % SPACE;
      ok := WriteAll(a, data);
      if offset + |data| <= SLOT_SIZE {
        DoublewordsInside(offset, |data|);
        if ok { WrittenIsPatch(old(mem), mem, a, data); }
      }
    }

    /** ota_flash_crc32: of any range, which goes on at address 0 after the last. */
    method Crc32Of(offset: nat, len: nat) returns (crc: bv32)
      requires Valid()
      ensures crc == Crc(CellsFrom(mem, SLOT_ADDR + offset, len))
      ensures SLOT_ADDR + offset + len <= SPACE ==> crc == Crc(mem[SLOT_ADDR + offset..SLOT_ADDR + offset + len])
    {
      crc := ComputeCrc(CellsFrom(mem, SLOT_ADDR + offset, len));
      if SLOT_ADDR + offset + len <= SPACE { CellsWithin(mem, SLOT_ADDR + offset, len); }
    }
  }
}
