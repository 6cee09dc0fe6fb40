/** Cloning a block device: a copy loop that retries short reads and writes. */
module Clone {
  const BUFSIZE: nat := 1024 * 1024

  type Positive = n: int | 0 < n witness 1

  /** How one transfer of blocks goes: it fails, or moves at least one block. */
  datatype Transfer = Fail | Moved(blocks: Positive)

  /** The answer to the transfer with this number. */
  type Env = nat -> Transfer

  function Blocks(answer: Transfer, wanted: nat): (r: int)
    requires wanted > 0
    ensures r < 0 || 0 < r <= wanted
  {
    if answer.Fail? then -1
    else if answer.blocks < wanted then answer.blocks
    else wanted
  }

  lemma {:induction false} Transferred(answer: Transfer, wanted: nat)
    requires wanted > 0
    ensures Blocks(answer, wanted) > 0 <==> answer.Moved?
  {
  }

  /** None of the transfers from number `a` up to `b` fails. */
  ghost predicate AllMove(env: Env, a: nat, b: nat) {
    forall k :: a <= k < b ==> env(k).Moved?
  }

  predicate Divides(d: nat, n: nat) {
    d > 0 && n % d == 0
  }

  /** From `offset` on the buffer has room for exactly `blocks` blocks. */
  predicate Room(offset: nat, blocks: nat, size: nat) {
    offset + blocks * size == BUFSIZE
  }

  predicate WholeBuffers(n: nat) {
    n % BUFSIZE == 0
  }

  /** A whole number of buffers, enough for `requested` bytes. */
  function RoundedUp(requested: nat): (r: nat)
    ensures r >= requested && r % 0x10_0000 == 0 && r < requested + 0x10_0000
  {
    (requested + BUFSIZE - 1) / BUFSIZE * BUFSIZE
  }

  /** Copies `n` elements between two arrays. */
  method CopyRange(dst: array<int>, at: nat, src: array<int>, from: nat, n: nat)
    requires dst != src && at + n <= dst.Length && from + n <= src.Length
    modifies dst
    ensures dst[..] == old(dst[..])[..at] + src[from..from + n] + old(dst[..])[at + n..]
  {
    forall i | 0 <= i < n {
      dst[at + i] := src[from + i];
    }
  }

  lemma {:induction false} PrefixOf(before: seq<int>, from: seq<int>, after: seq<int>, at: nat, offset: nat, n: nat)
    requires at + n <= |before| && offset + n <= |from|
    requires after == before[..at] + from[offset..offset + n] + before[at + n..]
    ensures |after| == |before| && after[..at + n] == before[..at] + from[offset..offset + n]
  {
  }

  /** A buffer filled from position `start` of the source grows by what was read next. */
  lemma {:induction false} FillGrows(src: seq<int>, before: seq<int>, after: seq<int>, start: nat, offset: nat, n: nat)
    requires start + offset + n <= |src| && offset + n <= |before|
    requires before[..offset] == src[start..start + offset]
    requires after == before[..offset] + src[start + offset..start + offset + n] + before[offset + n..]
    ensures |after| == |before| && after[..offset + n] == src[start..start + offset + n]
  {
  }

  class Cloner {
    const src: array<int>
    const dst: array<int>
    const buf: array<int>
    const srcbz: nat
    const destbz: nat
    var rdcnt: nat
    var wrcnt: nat
    var srcblk: nat
    var destblk: nat
    /** How many transfers have been made. */
    var transfers: nat

    constructor (src: array<int>, dst: array<int>, buf: array<int>, srcbz: nat, destbz: nat)
      ensures this.src == src && this.dst == dst && this.buf == buf
      ensures this.srcbz == srcbz && this.destbz == destbz
      ensures rdcnt == wrcnt == srcblk == destblk == transfers == 0
    {
      this.src, this.dst, this.buf, this.srcbz, this.destbz := src, dst, buf, srcbz, destbz;
      rdcnt, wrcnt, srcblk, destblk, transfers := 0, 0, 0, 0, 0;
    }

    /** Three distinct arrays, a buffer of the right size, block sizes that divide it, and counters
      * that agree with the block numbers. */
    ghost predicate Valid()
      reads this
    {
      && src != dst && src != buf && dst != buf && buf.Length == BUFSIZE
      && Divides(srcbz, BUFSIZE) && Divides(destbz, BUFSIZE)
      && rdcnt == srcblk * srcbz && wrcnt == destblk * destbz
      && rdcnt <= src.Length && wrcnt <= dst.Length
    }

    /** The destination starts with a true copy of everything counted as written. */
    ghost predicate Copied()
      reads this, src, dst
      requires Valid()
    {
      wrcnt <= rdcnt && dst[..wrcnt] == src[..wrcnt]
    }

    /** Reads up to `wanted` blocks to the buffer at `offset`. */
    method ReadBlocks(env: Env, wanted: nat, offset: nat) returns (ret: int, n: nat)
      requires Valid() && wanted > 0 && offset + wanted * srcbz <= BUFSIZE
      modifies buf, `transfers
      ensures Valid() && transfers == old(transfers) + 1 && (ret < 0 || 0 < ret <= wanted)
      ensures ret < 0 ==> env(old(transfers)).Fail? || rdcnt + wanted * srcbz > src.Length
      ensures ret > 0 ==> env(old(transfers)).Moved?
      ensures ret > 0 ==>
                && n == ret * srcbz && rdcnt + n <= src.Length && offset + n <= BUFSIZE
                && buf[..] == old(buf[..])[..offset] + src[rdcnt..rdcnt + n] + old(buf[..])[offset + n..]
    {
      hide Divides, Blocks;
      Transferred(env(transfers), wanted);
      ret, n := Blocks(env(transfers), wanted), 0;
      transfers := transfers + 1;
      if ret > 0 {
        SmallerProduct(ret, wanted, srcbz);
        Split(srcblk, srcblk + ret, srcbz);
        n := ret * srcbz;
        if (srcblk + ret) * srcbz > src.Length {
          return -1, 0;
        }
        CopyRange(buf, offset, src, srcblk * srcbz, n);
      }
    }

    /** Writes up to `wanted` blocks from the buffer at `offset`. */
    method WriteBlocks(env: Env, wanted: nat, offset: nat) returns (ret: int, n: nat)
      requires Valid() && wanted > 0 && offset + wanted * destbz <= BUFSIZE
      modifies dst, `transfers
      ensures Valid() && transfers == old(transfers) + 1 && (ret < 0 || 0 < ret <= wanted)
      ensures ret < 0 ==> env(old(transfers)).Fail? || wrcnt + wanted * destbz > dst.Length
      ensures ret > 0 ==> env(old(transfers)).Moved?
      ensures ret < 0 ==> dst[..wrcnt] == old(dst[..wrcnt])
      ensures ret > 0 ==>
                && n == ret * destbz && offset + n <= BUFSIZE && wrcnt + n <= dst.Length
                && dst[..wrcnt + n] == old(dst[..wrcnt]) + buf[offset..offset + n]
    {
      hide Divides, Blocks;
      Transferred(env(transfers), wanted);
      ret, n := Blocks(env(transfers), wanted), 0;
      transfers := transfers + 1;
      if ret > 0 {
        SmallerProduct(ret, wanted, destbz);
        Split(destblk, destblk + ret, destbz);
        n := ret * destbz;
        if (destblk + ret) * destbz > dst.Length {
          return -1, 0;
        }
        CopyRange(dst, destblk * destbz, buf, offset, n);
        PrefixOf(old(dst[..]), buf[..], dst[..], wrcnt, offset, n);
      }
    }

    /** One read, with the counters moved on by what it read: `n` bytes in `ret` blocks. */
    method ReadSome(env: Env, toread: nat, offset: nat, ghost start: nat) returns (ret: int, n: nat)
      requires Valid() && toread > 0 && Room(offset, toread, srcbz)
      requires rdcnt == start + offset && buf[..offset] == src[start..rdcnt]
      modifies buf, `transfers, `rdcnt, `srcblk
      ensures Valid() && transfers == old(transfers) + 1
      ensures ret < 0 ==> rdcnt == old(rdcnt) && (env(old(transfers)).Fail? || start + BUFSIZE > src.Length)
      ensures ret >= 0 ==>
                && env(old(transfers)).Moved? && 0 < ret <= toread
                && rdcnt == old(rdcnt) + n && Room(offset + n, toread - ret, srcbz)
                && (ret == toread ==> offset + n == BUFSIZE)
                && offset + n <= BUFSIZE && buf[..offset + n] == src[start..rdcnt]
    {
      hide Divides, Blocks;
      ghost var before := buf[..];
      ret, n := ReadBlocks(env, toread, offset);
      if ret > 0 {
        Split(ret, toread, srcbz);
        Split(srcblk, srcblk + ret, srcbz);
        FillGrows(src[..], before, buf[..], start, offset, n);
        rdcnt := rdcnt + n;
        srcblk := srcblk + ret;
      }
    }

    /** Reads until the buffer is full, however short the single reads are. */
    method FillBuffer(env: Env) returns (ok: bool)
      requires Valid()
      modifies buf, `transfers, `rdcnt, `srcblk
      ensures Valid() && rdcnt >= old(rdcnt)
      ensures ok ==> rdcnt == old(rdcnt) + BUFSIZE && buf[..] == src[old(rdcnt)..rdcnt]
      ensures transfers > old(transfers) && AllMove(env, old(transfers), transfers - 1)
      ensures ok <==> AllMove(env, old(transfers), transfers) && old(rdcnt) + BUFSIZE <= src.Length
    {
      hide Divides, AllMove, Room;
      Whole(BUFSIZE, srcbz);
      NoneYet(env, transfers);
      var toread, offset := BUFSIZE / srcbz, 0;
      while true
        invariant Valid() && 0 < toread && 0 <= offset
        invariant offset <= BUFSIZE && Room(offset, toread, srcbz) && rdcnt == old(rdcnt) + offset
        invariant buf[..offset] == src[old(rdcnt)..rdcnt]
        invariant transfers >= old(transfers) && AllMove(env, old(transfers), transfers)
        decreases toread
      {
        var ret, n := ReadSome(env, toread, offset, old(rdcnt));
        OneMoreTransfer(env, old(transfers), transfers);
        if ret < 0 {
          return false;
        }
        if ret == toread {
          assert buf[..] == buf[..BUFSIZE];
          return true;
        }
        toread := toread - ret;
        offset := offset + n;
      }
    }

    /** One write, with the counters moved on by what it wrote: `n` bytes in `ret` blocks. */
    method WriteSome(env: Env, towrite: nat, offset: nat, ghost start: nat) returns (ret: int, n: nat)
      requires Valid() && Copied() && towrite > 0 && Room(offset, towrite, destbz)
      requires wrcnt == start + offset && rdcnt == start + BUFSIZE && buf[..] == src[start..rdcnt]
      modifies dst, `transfers, `wrcnt, `destblk
      ensures Valid() && Copied() && transfers == old(transfers) + 1
      ensures ret < 0 ==> wrcnt == old(wrcnt) && (env(old(transfers)).Fail? || rdcnt > dst.Length)
      ensures ret >= 0 ==>
                && env(old(transfers)).Moved? && 0 < ret <= towrite
                && wrcnt == old(wrcnt) + n && Room(offset + n, towrite - ret, destbz)
                && (ret == towrite ==> offset + n == BUFSIZE)
    {
      hide Divides, Blocks;
      ret, n := WriteBlocks(env, towrite, offset);
      if ret > 0 {
        Split(ret, towrite, destbz);
        Split(destblk, destblk + ret, destbz);
        CopyGrows(src[..], start, rdcnt, buf[..], offset, n);
        wrcnt := wrcnt + n;
        destblk := destblk + ret;
      }
    }

    /** Writes until the buffer is empty, however short the single writes are. */
    method DrainBuffer(env: Env) returns (ok: bool)
      requires Valid() && Copied() && rdcnt == wrcnt + BUFSIZE && buf[..] == src[wrcnt..rdcnt]
      modifies dst, `transfers, `wrcnt, `destblk
      ensures Valid() && Copied() && wrcnt >= old(wrcnt)
      ensures ok ==> wrcnt == rdcnt
      ensures transfers > old(transfers) && AllMove(env, old(transfers), transfers - 1)
      ensures ok <==> AllMove(env, old(transfers), transfers) && rdcnt <= dst.Length
    {
      hide Divides, AllMove, Room;
      Whole(BUFSIZE, destbz);
      NoneYet(env, transfers);
      var towrite, offset := BUFSIZE / destbz, 0;
      while true
        invariant Valid() && Copied() && 0 < towrite && 0 <= offset
        invariant Room(offset, towrite, destbz) && wrcnt == old(wrcnt) + offset
        invariant transfers >= old(transfers) && AllMove(env, old(transfers), transfers)
        decreases towrite
      {
        var ret, n := WriteSome(env, towrite, offset, old(wrcnt));
        OneMoreTransfer(env, old(transfers), transfers);
        if ret < 0 {
          return false;
        }
        if ret == towrite {
          return true;
        }
        towrite := towrite - ret;
        offset := offset + n;
      }
    }

    /** Clones: at every exit the destination starts with a true copy of what is counted as
      * written, and a run without errors copies the request rounded up to whole buffers.  There are
      * no errors if and only if every transfer made moves blocks and both devices are large enough;
      * after an error no further transfer is made. */
    method Run(env: Env, requested: nat) returns (ok: bool)
      requires Valid() && rdcnt == 0 && wrcnt == 0
      modifies this, buf, dst
      ensures Valid() && Copied()
      ensures ok ==> wrcnt == rdcnt == RoundedUp(requested)
      ensures ok <==> && AllMove(env, old(transfers), transfers)
                      && RoundedUp(requested) <= src.Length && RoundedUp(requested) <= dst.Length
      ensures transfers >= old(transfers)
      ensures transfers > old(transfers) ==> AllMove(env, old(transfers), transfers - 1)
    {
      hide RoundedUp, Divides, AllMove, WholeBuffers;
      NoneYet(env, transfers);
      while wrcnt < requested
        invariant Valid() && Copied() && rdcnt == wrcnt && WholeBuffers(wrcnt) && wrcnt < requested + BUFSIZE
        invariant transfers >= old(transfers) && AllMove(env, old(transfers), transfers)
        invariant transfers > old(transfers) ==> AllMove(env, old(transfers), transfers - 1)
        decreases requested - wrcnt
      {
        OneMoreBuffer(requested, wrcnt);
        ghost var before := transfers;
        ok := FillBuffer(env);
        AllMoveJoins(env, old(transfers), before, transfers);
        if !ok {
          return;
        }
        ghost var filled := transfers;
        ok := DrainBuffer(env);
        AllMoveJoins(env, old(transfers), filled, transfers);
        if !ok {
          return;
        }
      }
      RoundedUpUnique(requested, wrcnt);
      ok := true;
    }
  }

  /** A copy up to `start + offset`, extended from a buffer that holds the source from `start` on. */
  lemma {:induction false} CopyGrows(src: seq<int>, start: nat, end: nat, buf: seq<int>, offset: nat, n: nat)
    requires start + offset + n <= end <= |src| && buf == src[start..end]
    ensures src[..start + offset] + buf[offset..offset + n] == src[..start + offset + n]
  {
  }

  lemma {:induction false} RoundedUpUnique(requested: nat, n: nat)
    requires n >= requested && WholeBuffers(n) && n < requested + BUFSIZE
    ensures n == RoundedUp(requested)
  {
  }

  lemma {:induction false} NoneYet(env: Env, a: nat)
    ensures AllMove(env, a, a) && WholeBuffers(0)
  {
  }

  lemma {:induction false} OneMoreTransfer(env: Env, a: nat, b: nat)
    requires a < b && AllMove(env, a, b - 1)
    ensures AllMove(env, a, b) <==> env(b - 1).Moved?
  {
  }

  lemma {:induction false} AllMoveJoins(env: Env, a: nat, b: nat, c: nat)
    requires a <= b < c && AllMove(env, a, b)
    ensures AllMove(env, a, c) <==> AllMove(env, b, c)
    ensures AllMove(env, b, c - 1) ==> AllMove(env, a, c - 1)
  {
  }

  lemma {:induction false} OneMoreBuffer(requested: nat, n: nat)
    requires n < requested && WholeBuffers(n)
    ensures n + BUFSIZE <= RoundedUp(requested) && WholeBuffers(n + BUFSIZE)
  {
  }

  lemma {:induction false} Whole(n: nat, d: nat)
    requires Divides(d, n) && n == BUFSIZE
    ensures d > 0 && 0 < n / d && Room(0, n / d, d)
  {
  }

  lemma {:induction false} Split(a: nat, b: nat, n: nat)
    requires a <= b
    ensures b * n == a * n + (b - a) * n
  {
  }

  lemma {:induction false} SmallerProduct(a: nat, b: nat, n: nat)
    requires a <= b
    ensures a * n <= b * n
  {
    if a < b { SmallerProduct(a, b - 1, n); }
  }
}
