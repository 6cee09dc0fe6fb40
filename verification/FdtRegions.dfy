/** Collecting wanted tags into regions, with merging and a bounded output list.
  *
  * The reference is the list of maximal runs of covered tags.
  */
module FdtRegions {
  import opened FdtScan

  datatype Region = Region(offset: int, size: int)

  /** Regions closed so far (those that fit), how many were closed, start of the open one or -1. */
  datatype Gather = Gather(regions: seq<Region>, count: nat, start: int)

  const NOTHING := Gather([], 0, -1)

  /** Offset of tag `k`, and of the end of the block when `k` is the number of tags. */
  function Off(items: seq<Item>, k: nat): nat
    requires k <= |items|
  {
    if k == 0 then 0 else Off(items, k - 1) + items[k - 1].size
  }

  // ---------------------------------------------------------------- the collector, tag by tag

  /** A wanted tag opens a region, reopening the last one when that ended right here. */
  function OpenRegion(g: Gather, offset: nat, base: int, max: int): Gather {
    if 0 < g.count <= max && g.count == |g.regions|
       && offset == g.regions[g.count - 1].offset + g.regions[g.count - 1].size - base
    then Gather(g.regions[..g.count - 1], g.count - 1, g.regions[g.count - 1].offset - base)
    else g.(start := offset)
  }

  /** Closing counts the region even when there is no room to store it. */
  function CloseRegion(g: Gather, stopAt: int, base: int, max: int): Gather {
    Gather(if g.count < max then g.regions + [Region(base + g.start, stopAt - g.start)] else g.regions,
           g.count + 1, -1)
  }

  function GatherStep(g: Gather, m: Mark, offset: nat, next: nat, base: int, max: int): Gather {
    if m.keep && g.start == -1 then OpenRegion(g, offset, base, max)
    else if !m.keep && g.start != -1 then CloseRegion(g, if m.stopAfter then next else offset, base, max)
    else g
  }

  function GatherAll(items: seq<Item>, marks: seq<Mark>, k: nat, base: int, max: int): Gather
    requires k <= |items| == |marks|
  {
    if k == 0 then NOTHING
    else GatherStep(GatherAll(items, marks, k - 1, base, max), marks[k - 1],
                    Off(items, k - 1), Off(items, k), base, max)
  }

  // ---------------------------------------------------------------- maximal runs

  /** Kept tags, and an end-of-node tag directly after a kept one. */
  predicate Covered(items: seq<Item>, keep: seq<bool>, k: nat)
    requires k < |items| == |keep|
  {
    keep[k] || (items[k].tag.EndNode? && k > 0 && keep[k - 1])
  }

  /** Bytes [from, to) of the structure block. */
  datatype Span = Span(from: nat, to: nat)

  /** The maximal runs of covered tags among the first `k`. */
  function Runs(items: seq<Item>, keep: seq<bool>, k: nat): (r: seq<Span>)
    requires k <= |items| == |keep|
    ensures k > 0 && Covered(items, keep, k - 1) ==> r != [] && r[|r| - 1].to == Off(items, k)
  {
    if k == 0 then []
    else
      var r := Runs(items, keep, k - 1);
      if !Covered(items, keep, k - 1) then r
      else if k > 1 && Covered(items, keep, k - 2) then r[|r| - 1 := r[|r| - 1].(to := Off(items, k))]
      else r + [Span(Off(items, k - 1), Off(items, k))]
  }

  /** Ordered, non-empty, and with at least one byte between neighbours. */
  predicate Separated(spans: seq<Span>) {
    && (forall i :: 0 <= i < |spans| ==> spans[i].from < spans[i].to)
    && (forall i, j :: 0 <= i < j < |spans| ==> spans[i].to < spans[j].from)
  }

  predicate InSpans(spans: seq<Span>, byte: nat) {
    exists i :: 0 <= i < |spans| && spans[i].from <= byte < spans[i].to
  }

  /** The byte belongs to a covered tag among the first `k`. */
  predicate InCovered(items: seq<Item>, keep: seq<bool>, k: nat, byte: nat)
    requires k <= |items| == |keep|
  {
    exists j :: 0 <= j < k && Covered(items, keep, j) && Off(items, j) <= byte < Off(items, j + 1)
  }

  lemma {:induction false} OffMonotone(items: seq<Item>, i: nat, j: nat)
    requires i <= j <= |items|
    ensures Off(items, i) <= Off(items, j)
    ensures i < j ==> Off(items, i) < Off(items, j)
    decreases j
  {
    if i < j { OffMonotone(items, i, j - 1); }
  }

  /** Every run ends where some covered tag ends. */
  lemma {:induction false} RunsEnd(items: seq<Item>, keep: seq<bool>, k: nat)
    requires k <= |items| == |keep|
    ensures forall i :: 0 <= i < |Runs(items, keep, k)| ==> Runs(items, keep, k)[i].to <= Off(items, k)
    ensures k > 0 && !Covered(items, keep, k - 1) ==>
              forall i :: 0 <= i < |Runs(items, keep, k)| ==> Runs(items, keep, k)[i].to < Off(items, k)
  {
    if k > 0 {
      RunsEnd(items, keep, k - 1);
      OffMonotone(items, k - 1, k);
    }
  }

  lemma {:induction false} RunsSeparated(items: seq<Item>, keep: seq<bool>, k: nat)
    requires k <= |items| == |keep|
    ensures Separated(Runs(items, keep, k))
  {
    if k > 0 {
      RunsSeparated(items, keep, k - 1);
      RunsEnd(items, keep, k - 1);
      OffMonotone(items, k - 1, k);
    }
  }

  /** The runs hold exactly the bytes of the covered tags. */
  lemma {:induction false} RunsCover(items: seq<Item>, keep: seq<bool>, k: nat, byte: nat)
    requires k <= |items| == |keep|
    ensures InSpans(Runs(items, keep, k), byte) <==> InCovered(items, keep, k, byte)
  {
    if k > 0 {
      RunsCover(items, keep, k - 1, byte);
      OffMonotone(items, k - 1, k);
      var before, after := Runs(items, keep, k - 1), Runs(items, keep, k);
      if Covered(items, keep, k - 1) {
        var here := Off(items, k - 1) <= byte < Off(items, k);
        assert InCovered(items, keep, k, byte) <==> InCovered(items, keep, k - 1, byte) || here;
        RunsSeparated(items, keep, k - 1);
        RunsGrow(before, after, byte, Off(items, k - 1), Off(items, k));
      } else {
        assert InCovered(items, keep, k, byte) <==> InCovered(items, keep, k - 1, byte);
      }
    }
  }

  lemma {:induction false} RunsGrow(before: seq<Span>, after: seq<Span>, byte: nat, from: nat, to: nat)
    requires from < to && Separated(before)
    requires after == before + [Span(from, to)]
             || (before != [] && before[|before| - 1].to == from
                 && after == before[|before| - 1 := before[|before| - 1].(to := to)])
    ensures InSpans(after, byte) <==> InSpans(before, byte) || from <= byte < to
  {
    hide InSpans;
    if after == before + [Span(from, to)] {
      InSpansSnoc(before, Span(from, to), byte);
    } else {
      var n := |before| - 1;
      var last := before[n];
      assert before == before[..n] + [last] && after == before[..n] + [last.(to := to)];
      InSpansSnoc(before[..n], last, byte);
      InSpansSnoc(before[..n], last.(to := to), byte);
    }
  }

  lemma {:induction false} InSpansSnoc(spans: seq<Span>, x: Span, byte: nat)
    ensures InSpans(spans + [x], byte) <==> InSpans(spans, byte) || x.from <= byte < x.to
  {
    var all := spans + [x];
    if InSpans(spans, byte) {
      var i :| 0 <= i < |spans| && spans[i].from <= byte < spans[i].to;
      assert all[i].from <= byte < all[i].to;
    }
    if x.from <= byte < x.to {
      assert all[|spans|].from <= byte < all[|spans|].to;
    }
  }

  lemma {:induction false} FirstByte(b: seq<Span>)
    requires b != [] && Separated(b)
    ensures InSpans(b, b[0].from)
  {
  }

  /** Separated spans are determined by the bytes they hold. */
  lemma {:induction false} SpansUnique(a: seq<Span>, b: seq<Span>)
    requires Separated(a) && Separated(b)
    requires forall byte: nat :: InSpans(a, byte) <==> InSpans(b, byte)
    ensures a == b
    decreases |a|
  {
    if a == [] {
      if b != [] { FirstByte(b); }
    } else {
      FirstSpanAgrees(a, b);
      FirstSpanAgrees(b, a);
      forall byte: nat
        ensures InSpans(a[1..], byte) <==> InSpans(b[1..], byte)
      {
        hide InSpans, Separated;
        RestOfSpans(a, byte);
        RestOfSpans(b, byte);
        assert InSpans(a, byte) <==> InSpans(b, byte);
      }
      SpansUnique(a[1..], b[1..]);
      assert a == [a[0]] + a[1..] && b == [b[0]] + b[1..];
    }
  }

  lemma {:induction false} RestOfSpans(a: seq<Span>, byte: nat)
    requires a != [] && Separated(a)
    ensures InSpans(a[1..], byte) <==> InSpans(a, byte) && byte >= a[0].to
  {
    if InSpans(a[1..], byte) {
      var i :| 0 <= i < |a[1..]| && a[1..][i].from <= byte < a[1..][i].to;
      assert a[i + 1].from <= byte < a[i + 1].to;
    }
    if InSpans(a, byte) && byte >= a[0].to {
      var i :| 0 <= i < |a| && a[i].from <= byte < a[i].to;
      assert a[1..][i - 1].from <= byte < a[1..][i - 1].to;
    }
  }

  lemma {:induction false} FirstSpanAgrees(a: seq<Span>, b: seq<Span>)
    requires a != [] && Separated(a) && Separated(b)
    requires forall byte: nat :: InSpans(a, byte) <==> InSpans(b, byte)
    ensures b != [] && b[0].from <= a[0].from && a[0].to <= b[0].to
  {
    assert InSpans(a, a[0].from);
    assert InSpans(b, a[0].from);
    var i :| 0 <= i < |b| && b[i].from <= a[0].from < b[i].to;
    // The first span of b starts inside a, hence not before a[0].
    assert InSpans(b, b[0].from);
    var j :| 0 <= j < |a| && a[j].from <= b[0].from < a[j].to;
    assert i == 0;
    assert !InSpans(b, b[0].to);
    assert !InSpans(a, b[0].to);
  }

  // ---------------------------------------------------------------- collector and runs agree

  function Layout(spans: seq<Span>, base: int): (r: seq<Region>)
    ensures |r| == |spans|
    ensures forall i :: 0 <= i < |spans| ==> r[i] == Region(base + spans[i].from, spans[i].to - spans[i].from)
  {
    seq(|spans|, i requires 0 <= i < |spans| => Region(base + spans[i].from, spans[i].to - spans[i].from))
  }

  /** While everything fits the collector holds the runs; once it overflows so do the runs. */
  predicate Tracks(g: Gather, runs: seq<Span>, base: int, max: int) {
    && (g.count > max ==> |runs| > max)
    && |g.regions| == (if g.count <= max then g.count else if max < 0 then 0 else max)
    && g.start >= -1
    && (g.count <= max ==>
          if g.start == -1 then g.regions == Layout(runs, base)
          else |runs| == g.count + 1 && g.start == runs[g.count].from
               && g.regions == Layout(runs[..g.count], base))
  }

  lemma {:induction false} LayoutPrefix(spans: seq<Span>, k: nat, base: int)
    requires k <= |spans|
    ensures Layout(spans[..k], base) == Layout(spans, base)[..k]
  {
  }

  lemma {:induction false} GatherTracksRuns(
      items: seq<Item>, marks: seq<Mark>, k: nat, base: int, max: int)
    requires k <= |items| && StopsSound(marks, items)
    ensures Tracks(GatherAll(items, marks, k, base, max), Runs(items, Includes(marks), k), base, max)
    ensures GatherAll(items, marks, k, base, max).start != -1 <==> k > 0 && marks[k - 1].keep
  {
    if k > 0 {
      GatherTracksRuns(items, marks, k - 1, base, max);
      GatherStepTracks(items, marks, k, base, max);
    }
  }

  lemma {:induction false} IncludesAt(marks: seq<Mark>)
    ensures forall j :: 0 <= j < |marks| ==> Includes(marks)[j] == marks[j].keep
  {
    if marks != [] { IncludesAt(marks[..|marks| - 1]); }
  }

  /** The last span, stretched to `to`. */
  function Stretch(runs: seq<Span>, to: nat): seq<Span>
    requires runs != []
  {
    runs[|runs| - 1 := runs[|runs| - 1].(to := to)]
  }

  lemma {:induction false} OpenTracks(g: Gather, runs: seq<Span>, offset: nat, to: nat, base: int, max: int)
    requires Tracks(g, runs, base, max) && g.start == -1
    requires runs != [] ==> runs[|runs| - 1].to <= offset
    ensures var touching := runs != [] && runs[|runs| - 1].to == offset;
            var runs' := if touching then Stretch(runs, to) else runs + [Span(offset, to)];
            Tracks(OpenRegion(g, offset, base, max), runs', base, max)
  {
    var touching := runs != [] && runs[|runs| - 1].to == offset;
    var runs' := if touching then Stretch(runs, to) else runs + [Span(offset, to)];
    if g.count <= max {
      if touching {
        assert runs'[..g.count - 1] == runs[..g.count - 1];
        LayoutPrefix(runs, g.count - 1, base);
      } else {
        assert runs'[..g.count] == runs;
      }
    }
  }

  lemma {:induction false} CloseTracks(g: Gather, runs: seq<Span>, to: nat, base: int, max: int)
    requires Tracks(g, runs, base, max) && g.start != -1
    requires runs != [] && runs[|runs| - 1].to == to
    ensures Tracks(CloseRegion(g, to, base, max), runs, base, max)
  {
    if g.count < max {
      assert runs == runs[..g.count] + [runs[g.count]];
    }
  }

  lemma {:induction false} StretchTracks(g: Gather, runs: seq<Span>, to: nat, base: int, max: int)
    requires Tracks(g, runs, base, max) && g.start != -1 && runs != []
    ensures Tracks(g, Stretch(runs, to), base, max)
  {
    if g.count <= max {
      assert Stretch(runs, to)[..g.count] == runs[..g.count];
    }
  }

  lemma {:induction false} GatherStepTracks(items: seq<Item>, marks: seq<Mark>, k: nat, base: int, max: int)
    requires 0 < k <= |items| && StopsSound(marks, items)
    requires Tracks(GatherAll(items, marks, k - 1, base, max), Runs(items, Includes(marks), k - 1), base, max)
    requires GatherAll(items, marks, k - 1, base, max).start != -1 <==> k > 1 && marks[k - 2].keep
    ensures Tracks(GatherAll(items, marks, k, base, max), Runs(items, Includes(marks), k), base, max)
    ensures GatherAll(items, marks, k, base, max).start != -1 <==> marks[k - 1].keep
  {
    hide Tracks, Layout, Includes;
    var keep := Includes(marks);
    IncludesAt(marks);
    RunsEnd(items, keep, k - 1);
    var g, runs := GatherAll(items, marks, k - 1, base, max), Runs(items, keep, k - 1);
    var from, to := Off(items, k - 1), Off(items, k);
    if marks[k - 1].keep && g.start == -1 {
      OpenTracks(g, runs, from, to, base, max);
      OpenStarts(g, runs, from, base, max);
    } else if marks[k - 1].keep {
      StretchTracks(g, runs, to, base, max);
    } else if g.start != -1 {
      StretchTracks(g, runs, to, base, max);
      CloseTracks(g, if marks[k - 1].stopAfter then Stretch(runs, to) else runs,
                  if marks[k - 1].stopAfter then to else from, base, max);
    }
  }

  lemma {:induction false} OpenStarts(g: Gather, runs: seq<Span>, offset: nat, base: int, max: int)
    requires Tracks(g, runs, base, max) && g.start == -1
    ensures OpenRegion(g, offset, base, max).start != -1
  {
  }
}
