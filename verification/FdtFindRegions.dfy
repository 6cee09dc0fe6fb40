/** The region finder itself: one pass over the tags, in place, against the tree reference. */
module FdtFindRegions {
  import opened CStrings
  import opened Results
  import opened FdtScan
  import opened FdtScanProofs
  import opened FdtRegions

  /** A flattened device tree: where its structure block lies, the tags it yields, its sizes. */
  datatype Blob = Blob(base: int, items: seq<Item>, structSize: int, stringsSize: nat)

  /** How many regions were found, and those that fit into the caller's list. */
  datatype Found = Found(count: nat, regions: seq<Region>)

  function FirstEnd(items: seq<Item>): (n: nat)
    ensures n <= |items|
    ensures forall i :: 0 <= i < n ==> !items[i].tag.End?
    ensures n < |items| ==> items[n].tag.End?
  {
    if items == [] || items[0].tag.End? then 0 else 1 + FirstEnd(items[1..])
  }

  /** Collects all tags; the last region also takes in the string table when asked to. */
  function Collect(items: seq<Item>, marks: seq<Mark>, extra: nat, base: int, max: int): Found
    requires |items| == |marks|
  {
    var g := CloseRegion(GatherAll(items, marks, |items|, base, max),
                         Off(items, |items|) + extra, base, max);
    Found(g.count, g.regions)
  }

  /** The pass as a function of its inputs. */
  function Find(blob: Blob, q: Query, max: int, addStrings: bool): Result<Found, Error> {
    var n := FirstEnd(blob.items);
    var r := Run(blob.items[..n], q);
    if r.Err? then Err(r.error)
    else if n == |blob.items| || Off(blob.items, n + 1) != blob.structSize then Err(BadLayout)
    else
      RunStops(blob.items[..n], q);
      Ok(Collect(blob.items[..n + 1], r.value.marks + [Mark(true, true)],
                 if addStrings then blob.stringsSize else 0, blob.base, max))
  }

  // ---------------------------------------------------------------- against the tree

  function LastGrown(spans: seq<Span>, extra: nat): seq<Span> {
    if spans == [] then [] else Stretch(spans, spans[|spans| - 1].to + extra)
  }

  /** The tags of a tree and the final end tag. */
  function Tags(t: Content, endSize: TagSize): seq<Item> {
    Flatten(t) + [Item(End, endSize)]
  }

  lemma {:induction false} FirstEndOfTags(t: Content, endSize: TagSize)
    ensures FirstEnd(Tags(t, endSize)) == |Flatten(t)|
    ensures Tags(t, endSize)[..|Flatten(t)|] == Flatten(t)
  {
    FeedFlatten(Top(Empty), t);
    var items := Tags(t, endSize);
    var n := FirstEnd(items);
    assert items[|Flatten(t)|].tag.End?;
    assert forall i :: 0 <= i < |Flatten(t)| ==> items[i] == Flatten(t)[i];
  }

  /** The stored list is the list of maximal runs, unless those are too many for it. */
  predicate Stored(found: Found, runs: seq<Span>, extra: nat, base: int, max: int) {
    && (found.count <= max <==> |runs| <= max)
    && (found.count <= max ==>
          found.count == |runs| && found.regions == Layout(LastGrown(runs, extra), base))
  }

  /** Separated spans that hold exactly the bytes of the covered tags. */
  ghost predicate MaximalRuns(spans: seq<Span>, items: seq<Item>, keep: seq<bool>)
    requires |keep| == |items|
  {
    && Separated(spans)
    && forall byte: nat :: InSpans(spans, byte) <==> InCovered(items, keep, |items|, byte)
  }

  lemma {:induction false} RunsAreMaximal(items: seq<Item>, keep: seq<bool>)
    requires |keep| == |items|
    ensures MaximalRuns(Runs(items, keep, |items|), items, keep)
  {
    var runs := Runs(items, keep, |items|);
    RunsSeparated(items, keep, |items|);
    forall byte: nat
      ensures InSpans(runs, byte) <==> InCovered(items, keep, |items|, byte)
    {
      RunsCover(items, keep, |items|, byte);
    }
  }

  lemma {:induction false} CollectedRuns(items: seq<Item>, marks: seq<Mark>, extra: nat, base: int, max: int)
    requires items != [] && StopsSound(marks, items) && marks[|marks| - 1].keep
    ensures Stored(Collect(items, marks, extra, base, max),
                   Runs(items, Includes(marks), |items|), extra, base, max)
  {
    hide GatherAll, Runs, Off, Includes, Stored, CloseRegion, Tracks, Layout;
    var n := |items|;
    GatherTracksRuns(items, marks, n, base, max);
    IncludesAt(marks);
    assert Covered(items, Includes(marks), n - 1);
    FinalClose(GatherAll(items, marks, n, base, max), Runs(items, Includes(marks), n), extra, base, max);
  }

  lemma {:induction false} FinalClose(g: Gather, runs: seq<Span>, extra: nat, base: int, max: int)
    requires Tracks(g, runs, base, max) && g.start != -1 && runs != []
    ensures var g' := CloseRegion(g, runs[|runs| - 1].to + extra, base, max);
            Stored(Found(g'.count, g'.regions), runs, extra, base, max)
  {
    var to := runs[|runs| - 1].to + extra;
    StretchTracks(g, runs, to, base, max);
    CloseTracks(g, LastGrown(runs, extra), to, base, max);
  }

  /** For every single-root tree with proper names and every pair of lists: the finder succeeds
    * exactly when the tree fits its limits.  Then its count stays within the caller's list exactly
    * when the true number of maximal runs does, and in that case it has stored exactly those runs:
    * separated, and holding exactly the bytes of the tags the tree reference covers. */
  lemma {:induction false} FindMatchesTree(t: Content, endSize: TagSize, blob: Blob, q: Query, max: int,
      addStrings: bool)
    requires SingleRoot(t) && WellNamed(t, 0)
    requires blob.items == Tags(t, endSize) && blob.structSize == Off(blob.items, |blob.items|)
    ensures Find(blob, q, max, addStrings).Ok? <==> Fits(t, [], q)
    ensures |Included(t, [], q)| == |Flatten(t)|
    ensures Find(blob, q, max, addStrings).Ok? ==>
              var keep := Included(t, [], q) + [true];
              var runs := Runs(blob.items, keep, |blob.items|);
              var extra := if addStrings then blob.stringsSize else 0;
              && Stored(Find(blob, q, max, addStrings).value, runs, extra, blob.base, max)
              && MaximalRuns(runs, blob.items, keep)
  {
    hide Run, FirstEnd, Find, Stored, MaximalRuns, Runs;
    FirstEndOfTags(t, endSize);
    ScanMatchesTree(t, q);
    IncludedLength(t, [], q);
    FindOnScan(blob, q, max, addStrings);
    if Fits(t, [], q) {
      IncludesSnoc(Run(Flatten(t), q).value.marks, Mark(true, true));
    }
  }

  /** The same for any tags that end with the end tag, in terms of what the scan kept. */
  lemma {:induction false} FindOnScan(blob: Blob, q: Query, max: int, addStrings: bool)
    requires blob.items != [] && FirstEnd(blob.items) == |blob.items| - 1
    requires blob.structSize == Off(blob.items, |blob.items|)
    ensures var r := Run(blob.items[..|blob.items| - 1], q);
            && (Find(blob, q, max, addStrings).Ok? <==> r.Ok?)
            && (r.Ok? ==>
                  var keep := Includes(r.value.marks + [Mark(true, true)]);
                  var extra := if addStrings then blob.stringsSize else 0;
                  && |keep| == |blob.items|
                  && Stored(Find(blob, q, max, addStrings).value,
                            Runs(blob.items, keep, |blob.items|), extra, blob.base, max)
                  && MaximalRuns(Runs(blob.items, keep, |blob.items|), blob.items, keep))
  {
    hide Run, FirstEnd, Collect, Stored, MaximalRuns, Runs;
    var n := |blob.items| - 1;
    assert blob.items[..n + 1] == blob.items;
    var r := Run(blob.items[..n], q);
    if r.Ok? {
      RunStops(blob.items[..n], q);
      var marks := r.value.marks + [Mark(true, true)];
      CollectedRuns(blob.items, marks, if addStrings then blob.stringsSize else 0, blob.base, max);
      RunsAreMaximal(blob.items, Includes(marks));
    }
  }

  lemma {:induction false} IncludedLength(c: Content, names: seq<CString>, q: Query)
    ensures |Included(c, names, q)| == |Flatten(c)|
    decreases c
  {
    match c {
      case Empty =>
      case HasProp(before, _, _) => IncludedLength(before, names, q);
      case HasNop(before, _) => IncludedLength(before, names, q);
      case HasNode(before, name, _, body, _) =>
        IncludedLength(before, names, q);
        IncludedLength(body, names + [name], q);
    }
  }

  /** Which error the finder returns, for any tags with proper names: that of the first tag the
    * tree does not survive, and a bad layout when the end tag is missing or the size is not that of
    * the tags. */
  lemma {:induction false} FindRefuses(blob: Blob, q: Query, max: int, addStrings: bool, k: nat)
    requires k <= FirstEnd(blob.items) && Readable(blob.items[..k], q) && OpenNamed(Reading(blob.items[..k]))
    ensures var n, r := FirstEnd(blob.items), Find(blob, q, max, addStrings);
            if k == n then
              var sound := n < |blob.items| && Off(blob.items, n + 1) == blob.structSize;
              (r.Ok? <==> sound) && (!sound ==> r == Err(BadLayout))
            else
              var o := Reading(blob.items[..k]);
              !Survives(o, blob.items[k], q) ==> r == Err(Refusal(o, blob.items[k].tag))
  {
    hide Run, Collect, Readable, Survives, OpenNamed, Reading, Refusal;
    var n, items := FirstEnd(blob.items), blob.items[..k];
    RunAgrees(items, q);
    if k < n && !Survives(Reading(items), blob.items[k], q) {
      RefusalIs(items, blob.items[k], q);
      assert blob.items[..n][..k + 1] == items + [blob.items[k]];
      RunErrSticks(blob.items[..n], k + 1, q);
    }
  }

  /** A structure block may end while its root is still open: that is not noticed. */
  lemma {:induction false} UnclosedRootAccepted(q: Query, base: int)
    requires q.pathLen > 2
    ensures var items := [Item(BeginNode(""), 8), Item(End, 4)];
            Find(Blob(base, items, 12, 0), q, 1, false).Ok?
  {
    var items := [Item(BeginNode(""), 8), Item(End, 4)];
    assert items[1..][0] == Item(End, 4);
    assert FirstEnd(items) == 1;
    assert items[..1] == [Item(BeginNode(""), 8)];
    assert items[..1][..0] == [];
    assert Run([], q) == Ok(START);
    assert Run(items[..1], q) == Step(START, BeginNode(""), q);
    assert Off(items, 2) == 12;
  }

  function Begins(items: seq<Item>): nat {
    if items == [] then 0
    else Begins(items[..|items| - 1]) + if items[|items| - 1].tag.BeginNode? then 1 else 0
  }

  function Ends(items: seq<Item>): nat {
    if items == [] then 0
    else Ends(items[..|items| - 1]) + if items[|items| - 1].tag.EndNode? then 1 else 0
  }

  lemma {:induction false} StackCounts(items: seq<Item>, q: Query)
    requires Run(items, q).Ok? && forall i :: 0 <= i < |items| ==> !items[i].tag.End?
    ensures var s := Run(items, q).value;
            && |s.stack| == Begins(items) - Ends(items)
            && (s.expectEnd <==> s.stack == [] && Begins(items) > 0)
  {
    if items != [] { StackCounts(items[..|items| - 1], q); }
  }

  predicate OneTree(items: seq<Item>, t: Content) {
    SingleRoot(t) && Flatten(t) == items
  }

  /** The scan's stack and its expectation of the end belong to the partly read tree, whatever the
    * names are. */
  predicate Stands(s: Scan, o: Open) {
    && |Names(o)| == |s.stack| && OneRoot(o)
    && s.expectEnd == (o.Top? && AnyNode(o.done))
  }

  lemma {:induction false} StandsOn(s: Scan, o: Open, item: Item, q: Query)
    requires Stands(s, o) && !item.tag.End? && Step(s, item.tag, q).Ok?
    ensures Stands(Step(s, item.tag, q).value, Feed(o, item)) && !(item.tag.EndNode? && o.Top?)
  {
    var o' := Feed(o, item);
    if item.tag.EndNode? {
      if o.Inside? {
        assert Names(o) == Names(o.outer) + [o.name];
        assert Names(o') == Names(o.outer);
        assert OneRoot(o.outer) && OneRoot(o');
      }
    } else if !item.tag.BeginNode? {
      assert Names(o') == Names(o);
    }
  }

  lemma {:induction false} StandsAtStart()
    ensures Stands(START, Top(Empty)) && Spelled(Top(Empty)) == []
  {
  }

  lemma {:induction false} ScanStands(items: seq<Item>, q: Query)
    requires Run(items, q).Ok? && forall i :: 0 <= i < |items| ==> !items[i].tag.End?
    ensures Stands(Run(items, q).value, Reading(items)) && Spelled(Reading(items)) == items
  {
    hide Step, Stands, Feed, Spelled;
    if items == [] {
      StandsAtStart();
    } else {
      var n := |items| - 1;
      ScanStands(items[..n], q);
      StandsOn(Run(items[..n], q).value, Reading(items[..n]), items[n], q);
      FeedSpells(Reading(items[..n]), items[n]);
      assert items == items[..n] + [items[n]];
    }
  }

  /** Tags the scan accepts are those of one rooted tree if and only if there is a node and every
    * node that begins also ends. */
  lemma {:induction false} TreeIffBalanced(items: seq<Item>, q: Query)
    requires Run(items, q).Ok? && forall i :: 0 <= i < |items| ==> !items[i].tag.End?
    ensures (exists t :: OneTree(items, t)) <==> Begins(items) == Ends(items) > 0
  {
    hide Run, Begins, Ends;
    StackCounts(items, q);
    ScanStands(items, q);
    if t :| OneTree(items, t) {
      FeedFlatten(Top(Empty), t);
      AppendToEmpty(t);
    }
    if Begins(items) == Ends(items) > 0 {
      assert OneTree(items, Reading(items).done);
    }
  }
}
