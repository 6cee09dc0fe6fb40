/** Moving memory in chunks, so that a watchdog can be served in between. */
module MemmoveWd {
  /** Memory after one move of `len` cells, whatever overlaps. */
  function Moved<T>(mem: seq<T>, dest: nat, src: nat, len: nat): (r: seq<T>)
    requires dest + len <= |mem| && src + len <= |mem|
  {
    mem[..dest] + mem[src..src + len] + mem[dest + len..]
  }

  lemma {:induction false} MovedAt<T>(mem: seq<T>, dest: nat, src: nat, len: nat)
    requires dest + len <= |mem| && src + len <= |mem|
    ensures var r := Moved(mem, dest, src, len);
            && |r| == |mem|
            && forall i {:trigger r[i]} :: 0 <= i < |mem| ==>
                 r[i] == if dest <= i < dest + len then mem[src + (i - dest)] else mem[i]
  {
  }

  lemma {:induction false} MovedIs<T>(was: seq<T>, now: seq<T>, dest: nat, src: nat, len: nat)
    requires dest + len <= |was| == |now| && src + len <= |was|
    requires forall i {:trigger now[i]} :: dest <= i < dest + len ==> now[i] == was[src + (i - dest)]
    requires forall i :: 0 <= i < dest || dest + len <= i < |was| ==> now[i] == was[i]
    ensures now == Moved(was, dest, src, len)
  {
    hide Moved;
    MovedAt(was, dest, src, len);
    var r := Moved(was, dest, src, len);
    forall i | 0 <= i < |was| ensures now[i] == r[i] {
    }
  }

  method Memmove<T>(mem: array<T>, dest: nat, src: nat, len: nat)
    requires dest + len <= mem.Length && src + len <= mem.Length
    modifies mem
    ensures mem[..] == Moved(old(mem[..]), dest, src, len)
  {
    forall i | 0 <= i < len {
      mem[dest + i] := mem[src + i];
    }
    MovedIs(old(mem[..]), mem[..], dest, src, len);
  }

  /** Cells `[lo, hi)` of the target already hold their final value, the rest is as it was. */
  ghost predicate Partly<T>(now: seq<T>, was: seq<T>, dest: nat, src: nat, lo: nat, hi: nat)
    requires src + hi <= |was| && dest + hi <= |was|
  {
    && |now| == |was|
    && (forall i {:trigger now[i]} :: 0 <= i < |was| ==>
          now[i] == if dest + lo <= i < dest + hi then was[src + (i - dest)] else was[i])
  }

  /** One more chunk after those already moved upwards from the start. */
  lemma {:induction false} ChunkUp<T>(now: seq<T>, was: seq<T>, dest: nat, src: nat, k: nat, n: nat)
    requires dest < src && src + k + n <= |was| && Partly(now, was, dest, src, 0, k)
    ensures Partly(Moved(now, dest + k, src + k, n), was, dest, src, 0, k + n)
  {
    var after := Moved(now, dest + k, src + k, n);
    MovedAt(now, dest + k, src + k, n);
    forall i | 0 <= i < |was|
      ensures after[i] == if dest <= i < dest + k + n then was[src + (i - dest)] else was[i]
    {
      if dest + k <= i < dest + k + n {
        assert after[i] == now[src + (i - dest)];
      }
    }
  }

  /** One more chunk before those already moved downwards from the end. */
  lemma {:induction false} ChunkDown<T>(now: seq<T>, was: seq<T>, dest: nat, src: nat, k: nat, n: nat, len: nat)
    requires src < dest && dest + len <= |was| && k + n <= len && Partly(now, was, dest, src, k + n, len)
    ensures Partly(Moved(now, dest + k, src + k, n), was, dest, src, k, len)
  {
    var after := Moved(now, dest + k, src + k, n);
    MovedAt(now, dest + k, src + k, n);
    forall i | 0 <= i < |was|
      ensures after[i] == if dest + k <= i < dest + len then was[src + (i - dest)] else was[i]
    {
      if dest + k <= i < dest + k + n {
        assert after[i] == now[src + (i - dest)];
      }
    }
  }

  lemma {:induction false} PartlyAll<T>(now: seq<T>, was: seq<T>, dest: nat, src: nat, len: nat)
    requires src + len <= |was| && dest + len <= |was| && Partly(now, was, dest, src, 0, len)
    ensures now == Moved(was, dest, src, len)
  {
    MovedAt(was, dest, src, len);
  }

  lemma {:induction false} PartlyNone<T>(was: seq<T>, dest: nat, src: nat, k: nat)
    requires src + k <= |was| && dest + k <= |was|
    ensures Partly(was, was, dest, src, k, k)
  {
  }

  lemma {:induction false} MovedOntoItself<T>(mem: seq<T>, at: nat, len: nat)
    requires at + len <= |mem|
    ensures Moved(mem, at, at, len) == mem
  {
  }

  /** The result is that of a single move, for every overlap and every positive chunk size. */
  method MoveInChunks<T>(mem: array<T>, dest: nat, src: nat, len: nat, chunk: nat, watchdog: bool)
    requires dest + len <= mem.Length && src + len <= mem.Length
    requires watchdog && dest != src && len > 0 ==> chunk > 0
    modifies mem
    ensures mem[..] == Moved(old(mem[..]), dest, src, len)
  {
    hide Moved, Partly;
    ghost var was := mem[..];
    PartlyNone(was, dest, src, 0);
    PartlyNone(was, dest, src, len);
    if dest == src {
      MovedOntoItself(was, dest, len);
      return;
    }
    if !watchdog {
      Memmove(mem, dest, src, len);
      return;
    }
    var t: nat, f: nat, left: nat := dest, src, len;
    if t > f {
      f := f + len;
      t := t + len;
    }
    ghost var lo: nat, hi: nat := if dest < src then 0 else len, if dest < src then 0 else len;
    while left > 0
      invariant left <= len
      invariant if dest < src then lo == 0 && hi == len - left && t == dest + hi && f == src + hi
                else lo == left && hi == len && t == dest + lo && f == src + lo
      invariant Partly(mem[..], was, dest, src, lo, hi)
      decreases left
    {
      var tail := if left > chunk then chunk else left;
      if dest < src {
        ChunkUp(mem[..], was, dest, src, hi, tail);
        hi := hi + tail;
      } else {
        lo := lo - tail;
        ChunkDown(mem[..], was, dest, src, lo, tail, len);
      }
      if t > f {
        t := t - tail;
        f := f - tail;
      }
      Memmove(mem, t, f, tail);
      if t < f {
        t := t + tail;
        f := f + tail;
      }
      left := left - tail;
    }
    PartlyAll(mem[..], was, dest, src, len);
  }
}
