/** The footer checksum of ARM flash images: a 32-bit sum with end-around carry, complemented. */
module FlashChecksum {
  const MAX32 := 0xFFFF_FFFF

  type Word = n: int | 0 <= n <= 0xFFFF_FFFF

  /** Adds with the carry fed back in: the sum is bumped first when the addition will overflow. */
  function AddCarry(sum: Word, val: Word): Word {
    var bumped := if val > MAX32 - sum then (sum + 1) % 0x1_0000_0000 else sum;
    (bumped + val) % 0x1_0000_0000
  }

  function Sum(words: seq<Word>): Word {
    if words == [] then 0 else AddCarry(Sum(words[..|words| - 1]), words[|words| - 1])
  }

  function Complement(w: Word): Word {
    MAX32 - w
  }

  /** The checksum of `len` bytes; a length that is not a whole number of words gives 0. */
  method ComputeCrc(words: seq<Word>, len: nat) returns (r: Word)
    requires len % 4 == 0 ==> len <= 4 * |words|
    ensures r == if len % 4 != 0 then 0 else Complement(Sum(words[..len / 4]))
  {
    var sum: Word := 0;
    if len % 4 != 0 {
      return 0;
    }
    var i := 0;
    while i < len
      invariant i % 4 == 0 && i <= len
      invariant sum == Sum(words[..i / 4])
      decreases len - i
    {
      var val := words[i / 4];
      assert words[..i / 4 + 1][..i / 4] == words[..i / 4];
      if val > MAX32 - sum {
        sum := (sum + 1) % 0x1_0000_0000;
      }
      sum := (sum + val) % 0x1_0000_0000;
      i := i + 4;
    }
    return Complement(sum);
  }

  // ---------------------------------------------------------------- what the sum means

  function Total(words: seq<Word>): nat {
    if words == [] then 0 else Total(words[..|words| - 1]) + words[|words| - 1]
  }

  /** Zero stands for zero; every other total for its representative from 1 to 2^32 - 1. */
  function Representative(total: nat): Word {
    if total == 0 then 0 else (total - 1) % MAX32 + 1
  }

  lemma {:induction false} AddCarryWraps(sum: Word, val: Word)
    ensures AddCarry(sum, val) == if sum + val <= MAX32 then sum + val else sum + val - MAX32
  {
  }

  lemma {:induction false} RepresentativeAdds(total: nat, val: Word)
    ensures var r := Representative(total);
            Representative(total + val) == if r + val <= MAX32 then r + val else r + val - MAX32
  {
    if total > 0 {
      ModAdds(total - 1, val);
    }
  }

  lemma {:induction false} ModAdds(x: nat, val: Word)
    ensures var r := x % MAX32;
            (x + val) % MAX32 == if r + val < MAX32 then r + val else if r + val < 2 * MAX32 then r + val - MAX32 else 0
  {
  }

  /** The running sum is the representative of the total modulo 2^32 - 1. */
  lemma {:induction false} SumIsRepresentative(words: seq<Word>)
    ensures Sum(words) == Representative(Total(words))
  {
    assert Representative(0) == 0;
    hide AddCarry, Representative;
    if words != [] {
      var n := |words| - 1;
      SumIsRepresentative(words[..n]);
      AddCarryWraps(Sum(words[..n]), words[n]);
      RepresentativeAdds(Total(words[..n]), words[n]);
    }
  }

  lemma {:induction false} ZeroOnlyForZeros(words: seq<Word>)
    ensures Sum(words) == 0 <==> forall i :: 0 <= i < |words| ==> words[i] == 0
  {
    SumIsRepresentative(words);
    TotalZero(words);
  }

  lemma {:induction false} TotalZero(words: seq<Word>)
    ensures Total(words) == 0 <==> forall i :: 0 <= i < |words| ==> words[i] == 0
  {
    if words != [] {
      var n := |words| - 1;
      TotalZero(words[..n]);
      assert words == words[..n] + [words[n]];
    }
  }

  lemma {:induction false} TotalConcat(a: seq<Word>, b: seq<Word>)
    ensures Total(a + b) == Total(a) + Total(b)
    decreases |b|
  {
    if b == [] {
      assert a + b == a;
    } else {
      var n := |b| - 1;
      assert (a + b)[..|a| + n] == a + b[..n];
      TotalConcat(a, b[..n]);
    }
  }

  lemma {:induction false} TotalAt(words: seq<Word>, k: nat)
    requires k < |words|
    ensures Total(words) == Total(words[..k]) + words[k] + Total(words[k + 1..])
  {
    assert words == words[..k + 1] + words[k + 1..];
    TotalConcat(words[..k + 1], words[k + 1..]);
    assert words[..k + 1][..k] == words[..k];
  }

  /** The order of the words does not matter. */
  lemma {:induction false} OrderFree(a: seq<Word>, b: seq<Word>)
    requires multiset(a) == multiset(b)
    ensures Sum(a) == Sum(b)
  {
    SameTotal(a, b);
    SumIsRepresentative(a);
    SumIsRepresentative(b);
  }

  lemma {:induction false} Unlinked(words: seq<Word>, k: nat)
    requires k < |words|
    ensures multiset(words[..k] + words[k + 1..]) == multiset(words) - multiset{words[k]}
    ensures Total(words[..k] + words[k + 1..]) == Total(words) - words[k]
  {
    assert words == words[..k] + [words[k]] + words[k + 1..];
    TotalConcat(words[..k], words[k + 1..]);
    TotalAt(words, k);
  }

  lemma {:induction false} SameTotal(a: seq<Word>, b: seq<Word>)
    requires multiset(a) == multiset(b)
    ensures Total(a) == Total(b)
    decreases |a|
  {
    hide Total;
    assert |a| == |multiset(a)| == |multiset(b)| == |b|;
    if a == [] {
      assert a == b;
    } else {
      assert a[0] in multiset(b);
      var k :| 0 <= k < |b| && b[k] == a[0];
      Unlinked(a, 0);
      Unlinked(b, k);
      SameTotal(a[..0] + a[1..], b[..k] + b[k + 1..]);
    }
  }

  /** Storing the checksum in place of a zero word makes the whole checksum zero. */
  lemma {:induction false} StoredChecksumCancels(words: seq<Word>, k: nat)
    requires k < |words| && words[k] == 0
    ensures Complement(Sum(words[k := Complement(Sum(words))])) == 0
  {
    hide Representative, Sum, Total;
    var stored := words[k := Complement(Sum(words))];
    TotalAt(words, k);
    TotalAt(stored, k);
    assert stored[..k] == words[..k] && stored[k + 1..] == words[k + 1..];
    SumIsRepresentative(words);
    SumIsRepresentative(stored);
    RepresentativeAdds(Total(words), Complement(Sum(words)));
  }
}
