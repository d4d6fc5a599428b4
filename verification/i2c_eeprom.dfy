/** Byte access to an EEPROM that rolls over inside its page (components/i2c_eeprom/i2c_eeprom.cpp). */
module I2cEeproms {
  import opened Arithmetic
  import opened Utf8

  const WORD: nat := 0x10000
  /** Parts above this take two address bytes. */
  const ONE_BYTE_PARTS: nat := 2048
  /** What one address byte reaches. */
  const ONE_BYTE_REACH: nat := 256

  // --- The chip ---

  /** `data` written one byte after the other from `offset` on inside the page at `base`, back to the
      page's first byte past its last. */
  function Rolled(mem: seq<Byte>, page: nat, base: nat, offset: nat, data: seq<Byte>): (r: seq<Byte>)
    requires offset < page && base + page <= |mem|
    ensures |r| == |mem|
    decreases |data|
  {
    if data == [] then mem
    else Rolled(mem[base + offset := data[0]], page, base, (offset + 1) % page, data[1..])
  }

  /** What a caller means by writing `data` at `at`. */
  function Flat(mem: seq<Byte>, at: nat, data: seq<Byte>): (r: seq<Byte>)
    requires at + |data| <= |mem|
    ensures |r| == |mem|
  {
    mem[..at] + data + mem[at + |data|..]
  }

  lemma {:induction false} RolledInsidePage(mem: seq<Byte>, page: nat, base: nat, offset: nat, data: seq<Byte>)
    requires offset < page && base + page <= |mem| && offset + |data| <= page
    ensures Rolled(mem, page, base, offset, data) == Flat(mem, base + offset, data)
    decreases |data|
  {
    if data == [] {
      assert Flat(mem, base + offset, data) == mem;
    } else {
      var next := mem[base + offset := data[0]];
      if offset + 1 < page {
        Remainder(offset + 1, 0, offset + 1, page);
        RolledInsidePage(next, page, base, offset + 1, data[1..]);
        assert Flat(next, base + offset + 1, data[1..]) == Flat(mem, base + offset, data);
      } else {
        assert data[1..] == [];
        assert next == Flat(mem, base + offset, data);
      }
    }
  }

  lemma FlatJoins(mem: seq<Byte>, at: nat, a: seq<Byte>, b: seq<Byte>)
    requires at + |a| + |b| <= |mem|
    ensures Flat(Flat(mem, at, a), at + |a|, b) == Flat(mem, at, a + b)
  {}

  lemma FlatReadsBack(mem: seq<Byte>, at: nat, data: seq<Byte>)
    requires at + |data| <= |mem|
    ensures Flat(mem, at, data)[at..at + |data|] == data
    ensures forall i :: 0 <= i < |mem| && !(at <= i < at + |data|) ==> Flat(mem, at, data)[i] == mem[i]
  {}

  /** The real page being a multiple of the page size, a chunk that does not cross a multiple of the
      latter does not cross one of the former. */
  lemma ChunkInsidePage(address: nat, chunk: nat, pageSize: nat, page: nat)
    requires pageSize > 0 && page > 0 && page % pageSize == 0
    requires chunk <= pageSize - address % pageSize
    ensures OffsetOf(address, page) + chunk <= page
  {
    var t := page / pageSize;
    Divided(page, pageSize);
    var q, r := address / pageSize, address % pageSize;
    Divided(address, pageSize);
    var k, rest := address / page, address % page;
    Divided(address, page);
    assert k * page == k * (t * pageSize) == k * t * pageSize;
    var m := q - k * t;
    assert rest == m * pageSize + r by {
      Subtract(q, k * t, pageSize);
    }
    if m >= t {
      Enough(m, t, pageSize);
    } else {
      Less(m, t, pageSize);
    }
  }

  lemma Subtract(a: int, b: int, n: nat)
    ensures (a - b) * n == a * n - b * n
  {}

  lemma Enough(a: int, b: int, n: nat)
    requires a >= b
    ensures a * n >= b * n
  {
    assert (a - b) * n >= 0;
    Subtract(a, b, n);
  }

  function Word(high: nat, low: nat): nat {
    high * 256 + low
  }

  class Chip {
    const page: nat
    const wide: bool
    var mem: seq<Byte>
    var pointer: nat

    ghost predicate Valid()
      reads this
    {
      && 0 < page && |mem| % page == 0 && 0 < |mem| <= WORD
      && wide == (|mem| > ONE_BYTE_PARTS)
      && pointer < |mem|
    }

    constructor (page: nat, wide: bool, mem: seq<Byte>)
      requires 0 < page && |mem| % page == 0 && 0 < |mem| <= WORD && wide == (|mem| > ONE_BYTE_PARTS)
      ensures Valid() && this.page == page && this.mem == mem
    {
      this.page := page;
      this.wide := wide;
      this.mem := mem;
      pointer := 0;
    }

    /** Where a frame's address bytes point. */
    function AddressIn(frame: seq<Byte>): nat
      requires |frame| >= if wide then 2 else 1
    {
      if wide then Word(frame[0], frame[1]) else frame[0]
    }

    function DataIn(frame: seq<Byte>): seq<Byte>
      requires |frame| >= if wide then 2 else 1
    {
      if wide then frame[2..] else frame[1..]
    }

    /** A transaction the chip does not answer writes nothing. */
    method Write(frame: seq<Byte>) returns (ok: bool)
      requires Valid() && |frame| >= (if wide then 2 else 1) && AddressIn(frame) < |mem|
      modifies this
      ensures Valid() && |mem| == |old(mem)|
      ensures PageFits(old(mem), page, AddressIn(frame))
      ensures ok ==> pointer == AddressIn(frame)
      ensures ok ==>
                mem == Rolled(old(mem), page, BaseOf(AddressIn(frame), page), OffsetOf(AddressIn(frame), page),
                              DataIn(frame))
      ensures !ok ==> mem == old(mem)
    {
      var at := AddressIn(frame);
      PageStart(|mem|, page, at);
      ok := *;
      if ok {
        mem := Rolled(mem, page, BaseOf(at, page), OffsetOf(at, page), DataIn(frame));
        pointer := at;
      }
    }

    /** Bytes from where the last transaction left the address on. */
    method Read(n: nat) returns (ok: bool, bytes: seq<Byte>)
      requires Valid() && pointer + n <= |mem|
      modifies this`pointer
      ensures Valid()
      ensures ok ==> bytes == mem[old(pointer)..old(pointer) + n]
    {
      ok := *;
      bytes := mem[pointer..pointer + n];
      pointer := (pointer + n) % |mem|;
    }
  }

  predicate PageFits(mem: seq<Byte>, page: nat, at: nat) {
    page > 0 && BaseOf(at, page) + page <= |mem| && OffsetOf(at, page) < page
  }

  /** Where the page of an address begins, and how far into it the address is. */
  function BaseOf(at: nat, page: nat): nat
    requires page > 0
  {
    at / page * page
  }

  function OffsetOf(at: nat, page: nat): nat
    requires page > 0
  {
    at % page
  }

  lemma PageStart(size: nat, page: nat, at: nat)
    requires 0 < page && size % page == 0 && at < size
    ensures BaseOf(at, page) + page <= size && at == BaseOf(at, page) + OffsetOf(at, page)
    ensures OffsetOf(at, page) < page
  {
    Divided(size, page);
    Divided(at, page);
    var t, q := size / page, at / page;
    if q >= t {
      Enough(q, t, page);
    } else {
      Less(q, t, page);
    }
  }

  // --- The driver ---

  class I2cEeprom {
    const chip: Chip
    var size: nat
    var pageSize: nat
    var twoByteAddress: bool
    var writeProtected: bool

    /** The part it was set up for is the part on the bus, and its pages hold whole ones of ours. */
    ghost predicate Valid()
      reads this, chip
    {
      && chip.Valid() && size == |chip.mem| && twoByteAddress == chip.wide
      && pageSize > 0 && chip.page % pageSize == 0
    }

    constructor (chip: Chip, pageSize: nat)
      requires chip.Valid() && chip.page % (if pageSize > 0 then pageSize else 1) == 0
      ensures Valid() && this.chip == chip && !writeProtected
    {
      this.chip := chip;
      size := |chip.mem|;
      twoByteAddress := |chip.mem| > ONE_BYTE_PARTS;
      this.pageSize := if pageSize > 0 then pageSize else 1;
      writeProtected := false;
    }

    function Reach(): nat
      reads this
    {
      if twoByteAddress || size < ONE_BYTE_REACH then size else ONE_BYTE_REACH
    }

    predicate InRange(memaddr: nat, count: nat)
      reads this
    {
      memaddr + count <= Reach()
    }

    function AddressBytes(at: nat): (frame: seq<Byte>)
      requires at < WORD
      reads this
      ensures |frame| == if twoByteAddress then 2 else 1
    {
      if twoByteAddress then [at / 256, at % 256] else [at % 256]
    }

    /** Written bytes are exactly the ones asked for; a chunk that fails leaves exactly the chunks
        before it, which end at a page boundary. */
    method Put(memaddr: nat, value: seq<Byte>) returns (ok: bool)
      requires Valid() && memaddr < WORD
      modifies chip
      ensures Valid() && |chip.mem| == |old(chip.mem)|
      ensures ok ==> !writeProtected && InRange(memaddr, |value|)
      ensures ok ==> memaddr + |value| <= |chip.mem| && chip.mem == Flat(old(chip.mem), memaddr, value)
      ensures !ok && (writeProtected || !InRange(memaddr, |value|)) ==> chip.mem == old(chip.mem)
      ensures !ok && !writeProtected && InRange(memaddr, |value|) ==>
                exists k :: 0 <= k < |value| && memaddr + k <= |chip.mem| &&
                  (k == 0 || (memaddr + k) % pageSize == 0) && chip.mem == Flat(old(chip.mem), memaddr, value[..k])
    {
      hide Flat;
      if writeProtected {
        return false;
      }
      if !InRange(memaddr, |value|) {
        return false;
      }
      ghost var was := chip.mem;
      var done := 0;
      FlatNone(was, memaddr, value);
      while done < |value|
        invariant Valid() && |chip.mem| == |was| && done <= |value|
        invariant done == 0 || done == |value| || (memaddr + done) % pageSize == 0
        invariant chip.mem == Flat(was, memaddr, value[..done])
      {
        var at := (memaddr + done) % WORD;
        Fits(memaddr + done);
        var left := |value| - done;
        var chunk := if left < pageSize - at % pageSize then left else pageSize - at % pageSize;
        ok := PutChunk(at, value[done..done + chunk]);
        if !ok {
          return false;
        }
        FlatGoesOn(was, memaddr, value, done, chunk);
        if chunk < left {
          NextBoundary(at, pageSize);
        }
        done := done + chunk;
      }
      assert value[..|value|] == value;
      return true;
    }

    /** One page write. */
    method PutChunk(at: nat, data: seq<Byte>) returns (ok: bool)
      requires Valid() && InRange(at, |data|) && 0 < |data| <= pageSize - at % pageSize && at < WORD
      modifies chip
      ensures Valid() && |chip.mem| == |old(chip.mem)|
      ensures chip.mem == if ok then Flat(old(chip.mem), at, data) else old(chip.mem)
    {
      hide Rolled, Flat, Word;
      var frame := AddressBytes(at) + data;
      AddressDecodes(at, twoByteAddress, frame, data);
      ok := chip.Write(frame);
      if ok {
        RolledIsFlat(old(chip.mem), chip.page, pageSize, at, data);
      }
    }

    /** What is read is what the memory holds there. */
    method Get(memaddr: nat, count: nat) returns (ok: bool, value: seq<Byte>)
      requires Valid() && memaddr < WORD
      modifies chip
      ensures Valid() && chip.mem == old(chip.mem)
      ensures ok ==> InRange(memaddr, count) && memaddr + count <= |chip.mem|
      ensures ok ==> value == chip.mem[memaddr..memaddr + count]
    {
      value := [];
      if !InRange(memaddr, count) {
        return false, value;
      }
      if memaddr == Reach() {
        // No byte to read: the address past the last one.
        ok := *;
        return ok, value;
      }
      var frame := AddressBytes(memaddr);
      AddressDecodes(memaddr, twoByteAddress, frame, []);
      ok := chip.Write(frame);
      if !ok {
        return false, value;
      }
      ok, value := chip.Read(count);
    }
  }

  lemma RolledIsFlat(mem: seq<Byte>, page: nat, pageSize: nat, at: nat, data: seq<Byte>)
    requires pageSize > 0 && PageFits(mem, page, at) && page % pageSize == 0 && |mem| % page == 0
    requires at + |data| <= |mem| && |data| <= pageSize - at % pageSize && at < |mem|
    ensures Rolled(mem, page, BaseOf(at, page), OffsetOf(at, page), data) == Flat(mem, at, data)
  {
    hide Rolled, Flat, BaseOf, OffsetOf;
    ChunkInsidePage(at, |data|, pageSize, page);
    PageStart(|mem|, page, at);
    RolledInsidePage(mem, page, BaseOf(at, page), OffsetOf(at, page), data);
  }

  lemma Fits(at: nat)
    ensures at < WORD ==> at % WORD == at
  {}

  lemma FlatNone(mem: seq<Byte>, at: nat, value: seq<Byte>)
    requires at <= |mem|
    ensures Flat(mem, at, value[..0]) == mem
  {}

  lemma FlatGoesOn(mem: seq<Byte>, at: nat, value: seq<Byte>, done: nat, chunk: nat)
    requires at + |value| <= |mem| && done + chunk <= |value|
    ensures Flat(Flat(mem, at, value[..done]), at + done, value[done..done + chunk])
         == Flat(mem, at, value[..done + chunk])
  {
    FlatJoins(mem, at, value[..done], value[done..done + chunk]);
    assert value[..done] + value[done..done + chunk] == value[..done + chunk];
  }

  lemma AddressDecodes(at: nat, wide: bool, frame: seq<Byte>, data: seq<Byte>)
    requires at < if wide then WORD else ONE_BYTE_REACH
    requires frame == (if wide then [at / 256, at % 256] else [at % 256]) + data
    ensures if wide then Word(frame[0], frame[1]) == at && frame[2..] == data
            else frame[0] == at && frame[1..] == data
  {}

  lemma NextBoundary(at: nat, pageSize: nat)
    requires pageSize > 0
    ensures (at + (pageSize - at % pageSize)) % pageSize == 0
  {
    Divided(at, pageSize);
    Distribute(at / pageSize, 1, pageSize);
    Remainder(at + (pageSize - at % pageSize), at / pageSize + 1, 0, pageSize);
  }
}
