/** EEPROM access in bursts.  The device's address counter wraps around inside a page. */
module Eeprom {
  const I2C_RXTX_LEN := 128

  function Pow2(n: nat): (r: nat)
    ensures r > 0
  {
    if n == 0 then 1 else 2 * Pow2(n - 1)
  }

  /** Bytes transferred by the burst at `offset`: up to the end of the page as computed from the
    * low eight bits of the offset, and no more than the bus allows. */
  function BurstLen(offset: nat, end: nat, page: nat): (r: nat)
    requires offset < end && page > 0
    ensures 0 < r <= end - offset && r <= I2C_RXTX_LEN
  {
    var blkOff := offset % 256;
    var room := page - blkOff % page;
    var most := if room > I2C_RXTX_LEN then I2C_RXTX_LEN else room;
    if end - offset > most then most else end - offset
  }

  /** The cell that byte `i` of a burst at `offset` goes to. */
  function Cell(offset: nat, i: nat, page: nat): (r: nat)
    requires page > 0
  {
    offset - offset % page + (offset % page + i) % page
  }

  predicate InOnePage(offset: nat, len: nat, page: nat)
    requires page > 0
  {
    offset % page + len <= page
  }

  lemma {:induction false} CellInPage(offset: nat, len: nat, page: nat, i: nat)
    requires page > 0 && InOnePage(offset, len, page) && i < len
    ensures Cell(offset, i, page) == offset + i
  {
  }

  /** For pages of up to 256 bytes a burst is the longest one that stays in its page, within what
    * is left and what the bus takes. */
  lemma {:induction false} BurstStaysInPage(offset: nat, end: nat, bits: nat)
    requires offset < end && bits <= 8
    ensures InOnePage(offset, BurstLen(offset, end, Pow2(bits)), Pow2(bits))
    ensures BurstLen(offset, end, Pow2(bits)) <= 128
    ensures forall n: nat :: InOnePage(offset, n, Pow2(bits)) && offset + n <= end && n <= 128 ==>
              n <= BurstLen(offset, end, Pow2(bits))
  {
    LowBitsSuffice(offset, bits);
  }

  /** Every page size up to 256 divides 256. */
  lemma {:induction false} LowBitsSuffice(offset: nat, bits: nat)
    requires bits <= 8
    ensures (offset % 256) % Pow2(bits) == offset % Pow2(bits)
  {
    hide Pow2;
    Pow2Values();
    var low, high := offset % 256, offset / 256;
    if {
      case bits == 0 =>
      case bits == 1 => Multiple(low, high, 128, 2);
      case bits == 2 => Multiple(low, high, 64, 4);
      case bits == 3 => Multiple(low, high, 32, 8);
      case bits == 4 => Multiple(low, high, 16, 16);
      case bits == 5 => Multiple(low, high, 8, 32);
      case bits == 6 => Multiple(low, high, 4, 64);
      case bits == 7 => Multiple(low, high, 2, 128);
      case bits == 8 => Multiple(low, high, 1, 256);
    }
  }

  lemma {:induction false} Pow2Values()
    ensures Pow2(0) == 1 && Pow2(1) == 2 && Pow2(2) == 4 && Pow2(3) == 8 && Pow2(4) == 16
    ensures Pow2(5) == 32 && Pow2(6) == 64 && Pow2(7) == 128 && Pow2(8) == 256 && Pow2(9) == 512
  {
    assert Pow2(4) == 16;
  }

  lemma {:induction false} Multiple(low: nat, high: nat, pages: nat, page: nat)
    requires page > 0 && pages * page == 256
    ensures (256 * high + low) % page == low % page
  {
    var q, r := low / page, low % page;
    assert page * (pages * high) == 256 * high by {
      assert page * (pages * high) == (pages * page) * high;
    }
    assert page * (pages * high + q) == page * (pages * high) + page * q;
    Remainder(256 * high + low, page, pages * high + q, r);
  }

  lemma {:induction false} Remainder(x: nat, m: nat, q: nat, r: nat)
    requires m > 0 && x == m * q + r && r < m
    ensures x % m == r
  {
    var q' := x / m;
    if q > q' {
      NextMultiple(m, q', q);
    } else if q < q' {
      NextMultiple(m, q, q');
    }
  }

  lemma {:induction false} NextMultiple(m: nat, a: nat, b: nat)
    requires a < b
    ensures m * b >= m * a + m
    decreases b
  {
    if b > a + 1 { NextMultiple(m, a, b - 1); }
    assert m * b == m * (b - 1) + m;
  }

  lemma {:induction false} BigPages(bits: nat)
    requires bits > 8
    ensures Pow2(bits) >= 512 && Pow2(bits) % 256 == 0
  {
    Pow2Values();
    if bits > 9 { BigPages(bits - 1); }
  }

  lemma {:induction false} LastByteRunsOn(page: nat)
    requires page >= 512 && page % 256 == 0
    ensures !InOnePage(page - 1, BurstLen(page - 1, page + 127, page), page)
  {
    assert (page - 1) % 256 == 255;
    Remainder(page - 1, page, 0, page - 1);
    Remainder(255, page, 0, 255);
  }

  /** With larger pages the low eight bits mislead: the last byte of a page starts a burst that
    * runs on.  So bursts stay in their page if and only if pages have at most 256 bytes. */
  lemma {:induction false} PagesUpTo256(bits: nat)
    ensures (forall offset: nat, end: nat :: offset < end ==>
               InOnePage(offset, BurstLen(offset, end, Pow2(bits)), Pow2(bits)))
            <==> bits <= 8
  {
    hide Pow2, InOnePage, BurstLen;
    if bits <= 8 {
      forall offset: nat, end: nat | offset < end
        ensures InOnePage(offset, BurstLen(offset, end, Pow2(bits)), Pow2(bits))
      {
        BurstStaysInPage(offset, end, bits);
      }
    } else {
      BigPages(bits);
      LastByteRunsOn(Pow2(bits));
    }
  }

  // ---------------------------------------------------------------- the device and the loops

  /** Memory with `data` stored flat at `offset`. */
  function Stored<T>(mem: seq<T>, offset: nat, data: seq<T>): seq<T>
    requires offset + |data| <= |mem|
  {
    mem[..offset] + data + mem[offset + |data|..]
  }

  lemma {:induction false} StoredInTwo<T>(mem: seq<T>, offset: nat, data: seq<T>, k: nat, n: nat)
    requires offset + |data| <= |mem| && k + n <= |data|
    ensures Stored(Stored(mem, offset, data[..k]), offset + k, data[k..k + n]) == Stored(mem, offset, data[..k + n])
  {
  }

  class Device<T(0)> {
    const page: nat
    var mem: array<T>
    /** The bursts made so far: offset and length. */
    ghost var bursts: seq<(nat, nat)>

    constructor (page: nat, mem: array<T>)
      ensures this.page == page && this.mem == mem && bursts == []
    {
      this.page := page;
      this.mem := mem;
      bursts := [];
    }

    /** The device consists of whole pages. */
    ghost predicate WholePages()
      reads this
    {
      page > 0 && mem.Length % page == 0
    }

    /** Writes a burst with the counter wrapping inside the page. */
    method WriteBurst(offset: nat, data: seq<T>)
      requires WholePages() && offset < mem.Length
      modifies mem, `bursts
      ensures InOnePage(offset, |data|, page) ==>
                offset + |data| <= mem.Length && mem[..] == Stored(old(mem[..]), offset, data)
      ensures bursts == old(bursts) + [(offset, |data|)]
    {
      hide Stored, Cell, InOnePage;
      ghost var inside := InOnePage(offset, |data|, page);
      StoredNothing(mem[..], offset, data);
      PageInDevice(offset, |data|, page, mem.Length);
      for i := 0 to |data|
        invariant inside ==> mem[..] == Stored(old(mem[..]), offset, data[..i])
        invariant bursts == old(bursts)
      {
        CellInDevice(offset, i, page, mem.Length);
        if inside {
          CellInPage(offset, |data|, page, i);
          StoredOneMore(old(mem[..]), offset, data, i);
        }
        mem[Cell(offset, i, page)] := data[i];
      }
      assert data[..|data|] == data;
      bursts := bursts + [(offset, |data|)];
    }

    /** Reads a burst in the same way. */
    method ReadBurst(offset: nat, len: nat) returns (data: seq<T>)
      requires WholePages() && offset < mem.Length
      ensures InOnePage(offset, len, page) ==> offset + len <= mem.Length && data == mem[offset..offset + len]
    {
      hide Cell, InOnePage;
      ghost var inside := InOnePage(offset, len, page);
      PageInDevice(offset, len, page, mem.Length);
      data := [];
      for i := 0 to len
        invariant inside ==> data == mem[offset..offset + i]
      {
        CellInDevice(offset, i, page, mem.Length);
        if inside { CellInPage(offset, len, page, i); }
        data := data + [mem[Cell(offset, i, page)]];
      }
    }

    /** Writes any range burst by burst: the memory ends up as after one flat store, and every
      * burst lies in one page and within the transfer limit. */
    method Write(offset: nat, buffer: seq<T>, ghost bits: nat)
      requires bits <= 8 && page == Pow2(bits) && WholePages() && offset + |buffer| <= mem.Length
      modifies mem, `bursts
      ensures mem[..] == Stored(old(mem[..]), offset, buffer)
      ensures |bursts| >= |old(bursts)|
      ensures forall i :: |old(bursts)| <= i < |bursts| ==>
                InOnePage(bursts[i].0, bursts[i].1, page) && 0 < bursts[i].1 <= I2C_RXTX_LEN
    {
      hide Stored, Pow2, InOnePage, BurstLen;
      var at, end := offset, offset + |buffer|;
      StoredNothing(mem[..], offset, buffer);
      while at < end
        invariant offset <= at <= end
        invariant mem[..] == Stored(old(mem[..]), offset, buffer[..at - offset])
        invariant |bursts| >= |old(bursts)|
        invariant forall i :: |old(bursts)| <= i < |bursts| ==>
                    InOnePage(bursts[i].0, bursts[i].1, page) && 0 < bursts[i].1 <= I2C_RXTX_LEN
        decreases end - at
      {
        var len := BurstLen(at, end, page);
        BurstStaysInPage(at, end, bits);
        StoredInTwo(old(mem[..]), offset, buffer, at - offset, len);
        WriteBurst(at, buffer[at - offset..at - offset + len]);
        at := at + len;
      }
      assert buffer[..|buffer|] == buffer;
    }

    /** Reads any range burst by burst. */
    method Read(offset: nat, cnt: nat, ghost bits: nat) returns (buffer: seq<T>)
      requires bits <= 8 && page == Pow2(bits) && WholePages() && offset + cnt <= mem.Length
      ensures buffer == mem[offset..offset + cnt]
    {
      hide Pow2, InOnePage, BurstLen;
      var at, end := offset, offset + cnt;
      buffer := [];
      while at < end
        invariant offset <= at <= end
        invariant buffer == mem[offset..at]
        decreases end - at
      {
        var len := BurstLen(at, end, page);
        BurstStaysInPage(at, end, bits);
        var data := ReadBurst(at, len);
        assert mem[offset..at] + mem[at..at + len] == mem[offset..at + len];
        buffer := buffer + data;
        at := at + len;
      }
    }

    /** What was written is read back, and nothing else has changed. */
    method WriteThenRead(offset: nat, buffer: seq<T>, ghost bits: nat) returns (back: seq<T>)
      requires bits <= 8 && page == Pow2(bits) && WholePages() && offset + |buffer| <= mem.Length
      modifies mem, `bursts
      ensures back == buffer && mem[..] == Stored(old(mem[..]), offset, buffer)
    {
      Write(offset, buffer, bits);
      back := Read(offset, |buffer|, bits);
      assert mem[offset..offset + |buffer|] == mem[..][offset..offset + |buffer|] == buffer;
    }
  }

  /** The page of a cell in the device lies in the device. */
  lemma {:induction false} PageInDevice(offset: nat, len: nat, page: nat, size: nat)
    requires page > 0 && size % page == 0 && offset < size
    ensures offset - offset % page + page <= size
    ensures InOnePage(offset, len, page) ==> offset + len <= size
  {
    var a, n := offset / page, size / page;
    assert offset == page * a + offset % page && size == page * n;
    if a >= n {
      if a > n { NextMultiple(page, n, a); }
      assert false;
    }
    NextMultiple(page, a, n);
  }

  lemma {:induction false} CellInDevice(offset: nat, i: nat, page: nat, size: nat)
    requires page > 0 && size % page == 0 && offset < size
    ensures Cell(offset, i, page) < size
  {
    PageInDevice(offset, 0, page, size);
  }

  lemma {:induction false} StoredOneMore<T>(mem: seq<T>, offset: nat, data: seq<T>, i: nat)
    requires offset + |data| <= |mem| && i < |data|
    ensures |Stored(mem, offset, data[..i])| == |mem|
    ensures Stored(mem, offset, data[..i])[offset + i := data[i]] == Stored(mem, offset, data[..i + 1])
  {
  }

  lemma {:induction false} StoredNothing<T>(mem: seq<T>, offset: nat, data: seq<T>)
    requires offset <= |mem|
    ensures Stored(mem, offset, data[..0]) == mem
  {
  }
}
