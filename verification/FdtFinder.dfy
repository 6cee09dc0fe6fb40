/** The in-place pass: path buffer, wanted-level stack and region list are arrays. */
module FdtFinder {
  import opened Results
  import opened CStrings
  import opened FdtScan
  import opened FdtScanProofs
  import opened FdtRegions
  import opened FdtFindRegions

  method StrInList(str: string, list: seq<string>) returns (found: bool)
    ensures found <==> str in list
  {
    for i := 0 to |list|
      invariant str !in list[..i]
    {
      if list[i] == str {
        return true;
      }
    }
    return false;
  }

  /** The buffer holds `text` and its terminator. */
  predicate Holds(path: array<char>, end: nat, text: CString)
    reads path
  {
    end < path.Length && path[..end] == text && path[end] == '\0'
  }

  method PushName(path: array<char>, end: nat, name: CString, ghost text: CString) returns (end': nat)
    requires Holds(path, end, text)
    requires end + 2 + |name| < path.Length
    modifies path
    ensures Holds(path, end', PushPath(text, name))
    ensures end' <= end + 1 + |name|
  {
    end' := end;
    if end != 1 {
      path[end'] := '/';
      end' := end' + 1;
    }
    ghost var stem := path[..end'];
    assert stem + name == PushPath(text, name);
    for i := 0 to |name|
      invariant path[..end' + i] == stem + name[..i]
    {
      path[end' + i] := name[i];
    }
    end' := end' + |name|;
    path[end'] := '\0';
    assert name[..|name|] == name;
  }

  method PopName(path: array<char>, end: nat, ghost text: CString) returns (end': nat)
    requires Holds(path, end, text)
    modifies path
    ensures Holds(path, end', PopPath(text)) && end' <= end
  {
    end' := end;
    assert text[..end] == text;
    while end' > 0
      invariant end' <= end
      invariant path[..] == old(path[..])
      invariant PopPath(text) == PopPath(text[..end'])
      decreases end'
    {
      end' := end' - 1;
      assert path[end'] == text[end'];
      assert text[..end' + 1][..end'] == text[..end'];
      if path[end'] == '/' {
        break;
      }
    }
    path[end'] := '\0';
    assert path[..end'] == text[..end'];
  }

  /** The caller's list holds what the collector has stored. */
  ghost predicate Kept(region: array<Region>, count: nat, start: int, g: Gather, max: int)
    reads region
  {
    && g.count == count && g.start == start
    && |g.regions| == (if count <= max then count else if max < 0 then 0 else max)
    && |g.regions| <= region.Length
    && region[..|g.regions|] == g.regions
  }

  /** Ends the open region; it is counted even when the list has no room for it. */
  method Store(region: array<Region>, max: int, base: int, stopAt: int, count: nat, start: int, ghost g: Gather)
    requires max <= region.Length && Kept(region, count, start, g, max)
    modifies region
    ensures Kept(region, count + 1, -1, CloseRegion(g, stopAt, base, max), max)
  {
    if count < max {
      region[count] := Region(base + start, stopAt - start);
    }
  }

  /** Opens or closes a region in the caller's list for one tag. */
  method PutTag(region: array<Region>, max: int, base: int, mark: Mark, offset: nat, next: nat,
                count: nat, start: int, ghost g: Gather)
    returns (count': nat, start': int)
    requires max <= region.Length && Kept(region, count, start, g, max)
    modifies region
    ensures Kept(region, count', start', GatherStep(g, mark, offset, next, base, max), max)
  {
    count', start' := count, start;
    if mark.keep && start == -1 {
      if count > 0 && count <= max && offset == region[count - 1].offset + region[count - 1].size - base {
        count' := count - 1;
        start' := region[count'].offset - base;
      } else {
        start' := offset;
      }
    }
    if !mark.keep && start != -1 {
      Store(region, max, base, if mark.stopAfter then next else offset, count, start, g);
      count' := count + 1;
      start' := -1;
    }
  }

  lemma {:induction false} OffPrefix(items: seq<Item>, n: nat, k: nat)
    requires k <= n <= |items|
    ensures Off(items[..n], k) == Off(items, k)
  {
    if k > 0 { OffPrefix(items, n, k - 1); }
  }

  lemma {:induction false} GatherPrefix(items: seq<Item>, marks: seq<Mark>, item: Item, mark: Mark,
      k: nat, base: int, max: int)
    requires k <= |items| == |marks|
    ensures GatherAll(items + [item], marks + [mark], k, base, max) == GatherAll(items, marks, k, base, max)
  {
    if k > 0 {
      GatherPrefix(items, marks, item, mark, k - 1, base, max);
      assert (items + [item])[..|items|] == items;
      OffPrefix(items + [item], |items|, k);
      OffPrefix(items + [item], |items|, k - 1);
    }
  }

  lemma {:induction false} GatherSnoc(items: seq<Item>, marks: seq<Mark>, k: nat, mark: Mark, base: int, max: int)
    requires k < |items| && |marks| == k
    ensures GatherAll(items[..k + 1], marks + [mark], k + 1, base, max)
            == GatherStep(GatherAll(items[..k], marks, k, base, max), mark, Off(items, k), Off(items, k + 1), base, max)
  {
    assert items[..k + 1] == items[..k] + [items[k]];
    GatherPrefix(items[..k], marks, items[k], mark, k, base, max);
    OffPrefix(items, k + 1, k);
    OffPrefix(items, k + 1, k + 1);
  }

  /** The scan's variables: end of the path text, deepest open node, wanted level, root closed. */
  datatype Vars = Vars(end: nat, depth: int, want: nat, expectEnd: bool)

  ghost predicate Mirrors(path: array<char>, stack: array<nat>, v: Vars, s: Scan)
    reads path, stack
  {
    && Holds(path, v.end, s.path)
    && stack.Length == FDT_MAX_DEPTH && -1 <= v.depth < FDT_MAX_DEPTH
    && stack[..v.depth + 1] == s.stack
    && v.want == s.want && v.expectEnd == s.expectEnd
  }

  method EnterNode(name: CString, inc: seq<string>, path: array<char>, stack: array<nat>, v: Vars,
                   ghost s: Scan, ghost q: Query)
    returns (r: Result<Mark, Error>, v': Vars)
    requires Mirrors(path, stack, v, s) && inc == q.inc && q.pathLen == path.Length
    modifies path, stack
    ensures match Enter(s, name, q)
            case Err(e) => r == Err(e)
            case Ok(s') => Mirrors(path, stack, v', s') && r.Ok? && s'.marks == s.marks + [r.value]
  {
    var depth := v.depth + 1;
    v' := v;
    if depth == FDT_MAX_DEPTH {
      return Err(BadStructure), v;
    }
    if depth == 0 && name != "" {
      return Err(BadLayout), v;
    }
    if v.end + 2 + |name| >= path.Length {
      return Err(NoSpace), v;
    }
    var end := PushName(path, v.end, name, s.path);
    stack[depth] := v.want;
    assert stack[..depth + 1] == s.stack + [v.want];
    TextIsPrefix(path[..], end);
    var hit := StrInList(Text(path[..]), inc);
    var want, stopAfter := v.want, v.want != 1;
    if hit {
      want := 2;
    } else if want > 0 {
      want := want - 1;
    } else {
      stopAfter := false;
    }
    return Ok(Mark(want > 0, stopAfter)), Vars(end, depth, want, v.expectEnd);
  }

  method LeaveNode(path: array<char>, stack: array<nat>, v: Vars, ghost s: Scan)
    returns (r: Result<Mark, Error>, v': Vars)
    requires Mirrors(path, stack, v, s)
    modifies path
    ensures match Leave(s)
            case Err(e) => r == Err(e)
            case Ok(s') => Mirrors(path, stack, v', s') && r.Ok? && s'.marks == s.marks + [r.value]
  {
    if v.depth < 0 {
      return Err(BadStructure), v;
    }
    assert stack[v.depth] == s.stack[v.depth];
    var end := PopName(path, v.end, s.path);
    assert stack[..v.depth] == s.stack[..v.depth];
    return Ok(Mark(v.want > 0, true)),
           Vars(end, v.depth - 1, stack[v.depth], v.expectEnd || v.depth == 0);
  }

  method ReadTag(tag: Tag, inc: seq<string>, exc: seq<string>, path: array<char>, stack: array<nat>,
                 v: Vars, ghost s: Scan, ghost q: Query)
    returns (r: Result<Mark, Error>, v': Vars)
    requires !tag.End? && Mirrors(path, stack, v, s)
    requires inc == q.inc && exc == q.exc && q.pathLen == path.Length
    modifies path, stack
    ensures match Step(s, tag, q)
            case Err(e) => r == Err(e)
            case Ok(s') => Mirrors(path, stack, v', s') && r.Ok? && s'.marks == s.marks + [r.value]
  {
    if v.expectEnd {
      return Err(BadLayout), v;
    }
    match tag {
      case Prop(key) =>
        if key.None? {
          return Err(BadStructure), v;
        }
        var excluded := StrInList(key.value, exc);
        return Ok(Mark(v.want >= 2 && !excluded, false)), v;
      case Nop =>
        return Ok(Mark(v.want >= 2, false)), v;
      case BeginNode(name) =>
        r, v' := EnterNode(name, inc, path, stack, v, s, q);
      case EndNode =>
        r, v' := LeaveNode(path, stack, v, s);
    }
  }

  /** An empty path and stack. */
  method Prepare(path: array<char>) returns (stack: array<nat>, v: Vars)
    requires 0 < path.Length
    modifies path
    ensures fresh(stack) && Mirrors(path, stack, v, START)
  {
    stack := new nat[FDT_MAX_DEPTH];
    v := Vars(0, -1, 0, false);
    path[0] := '\0';
  }

  lemma {:induction false} KeptNothing(region: array<Region>, max: int)
    requires max <= region.Length
    ensures Kept(region, 0, -1, NOTHING, max)
  {
  }

  lemma {:induction false} NothingRead(items: seq<Item>, q: Query, base: int, max: int)
    ensures Run(items[..0], q) == Ok(START) && Off(items, 0) == 0
    ensures GatherAll(items[..0], START.marks, 0, base, max) == NOTHING
  {
  }

  lemma {:induction false} OffSnoc(items: seq<Item>, k: nat)
    requires k < |items|
    ensures Off(items, k + 1) == Off(items, k) + items[k].size
  {
  }

  /** The loop over all tags before the end tag. */
  method ReadTags(blob: Blob, inc: seq<string>, exc: seq<string>, region: array<Region>, max: int,
                  path: array<char>)
    returns (r: Result<nat, Error>, next: nat, count: nat, start: int)
    requires max <= region.Length && 0 < path.Length
    modifies region, path
    ensures var n := FirstEnd(blob.items);
            match Run(blob.items[..n], Query(inc, exc, path.Length))
            case Err(e) => r == Err(e)
            case Ok(s) =>
              && r == Ok(n) && next == Off(blob.items, n) && |s.marks| == n
              && Kept(region, count, start, GatherAll(blob.items[..n], s.marks, n, blob.base, max), max)
  {
    hide Step, GatherStep, PushPath, PopPath, Kept, Mirrors, Run, GatherAll, Off;
    ghost var q := Query(inc, exc, path.Length);
    ghost var s := START;
    ghost var g := NOTHING;
    var k: nat := 0;
    next, count, start := 0, 0, -1;
    NothingRead(blob.items, q, blob.base, max);
    KeptNothing(region, max);
    var stack, v := Prepare(path);
    while k < |blob.items| && !blob.items[k].tag.End?
      invariant k <= FirstEnd(blob.items)
      invariant Run(blob.items[..k], q) == Ok(s) && |s.marks| == k
      invariant g == GatherAll(blob.items[..k], s.marks, k, blob.base, max)
      invariant next == Off(blob.items, k)
      invariant Kept(region, count, start, g, max)
      invariant Mirrors(path, stack, v, s)
      decreases |blob.items| - k
    {
      var offset, tag := next, blob.items[k].tag;
      next := offset + blob.items[k].size;
      RunFailsEarly(blob.items, k, q);
      var mark;
      mark, v := ReadTag(tag, inc, exc, path, stack, v, s, q);
      if mark.Err? {
        return Err(mark.error), next, count, start;
      }
      GatherSnoc(blob.items, s.marks, k, mark.value, blob.base, max);
      RunSnoc(blob.items, k, q);
      OffSnoc(blob.items, k);
      count, start := PutTag(region, max, blob.base, mark.value, offset, next, count, start, g);
      s, g := Step(s, tag, q).value, GatherStep(g, mark.value, offset, next, blob.base, max);
      k := k + 1;
    }
    assert k == FirstEnd(blob.items);
    return Ok(k), next, count, start;
  }

  lemma {:induction false} RunSnoc(items: seq<Item>, k: nat, q: Query)
    requires k < |items| && Run(items[..k], q).Ok?
    ensures Run(items[..k + 1], q) == Step(Run(items[..k], q).value, items[k].tag, q)
  {
    assert items[..k + 1][..k] == items[..k];
  }

  /** Finds the regions.  The path buffer's length is its array's; writes stay inside the arrays. */
  method FindRegions(blob: Blob, inc: seq<string>, exc: seq<string>, region: array<Region>, max: int,
                     path: array<char>, addStrings: bool)
    returns (r: Result<nat, Error>)
    requires max <= region.Length && 0 < path.Length
    modifies region, path
    ensures match Find(blob, Query(inc, exc, path.Length), max, addStrings)
            case Err(e) => r == Err(e)
            case Ok(found) =>
              && r == Ok(found.count)
              && |found.regions| <= region.Length
              && region[..|found.regions|] == found.regions
  {
    hide Find, Run, GatherAll, GatherStep, OpenRegion, Collect, FirstEnd, Holds;
    ghost var q := Query(inc, exc, path.Length);
    FindUnfolds(blob, q, max, addStrings);
    var read, next, count, start := ReadTags(blob, inc, exc, region, max, path);
    if read.Err? {
      return Err(read.error);
    }
    var k := read.value;
    if k == |blob.items| {
      // Reading past the last tag yields an end tag and a negative next offset.
      return Err(BadLayout);
    }
    var offset, mark := next, Mark(true, true);
    next := offset + blob.items[k].size;
    ghost var marks := Run(blob.items[..k], q).value.marks;
    GatherSnoc(blob.items, marks, k, mark, blob.base, max);
    count, start := PutTag(region, max, blob.base, mark, offset, next, count, start,
                           GatherAll(blob.items[..k], marks, k, blob.base, max));
    if next != blob.structSize {
      return Err(BadLayout);
    }
    var extra := if addStrings then blob.stringsSize else 0;
    ghost var g := GatherAll(blob.items[..k + 1], marks + [mark], k + 1, blob.base, max);
    Store(region, max, blob.base, next + extra, count, start, g);
    return Ok(count + 1);
  }

  /** The outcome of the pass in terms of the scan before the end tag. */
  lemma {:induction false} FindUnfolds(blob: Blob, q: Query, max: int, addStrings: bool)
    ensures var k := FirstEnd(blob.items);
            match Run(blob.items[..k], q)
            case Err(e) => Find(blob, q, max, addStrings) == Err(e)
            case Ok(s) =>
              if k == |blob.items| || Off(blob.items, k) + blob.items[k].size != blob.structSize
              then Find(blob, q, max, addStrings) == Err(BadLayout)
              else
                && |s.marks| == k
                && var all := GatherAll(blob.items[..k + 1], s.marks + [Mark(true, true)], k + 1, blob.base, max);
                   var g := CloseRegion(all, blob.structSize + (if addStrings then blob.stringsSize else 0),
                                        blob.base, max);
                   Find(blob, q, max, addStrings) == Ok(Found(g.count, g.regions))
  {
    hide Run, GatherAll;
    var k := FirstEnd(blob.items);
    if Run(blob.items[..k], q).Ok? {
      RunStops(blob.items[..k], q);
      if k < |blob.items| { OffPrefix(blob.items, k + 1, k + 1); }
    }
  }

  /** A tag the scan rejects decides the whole pass. */
  lemma {:induction false} RunFailsEarly(items: seq<Item>, k: nat, q: Query)
    requires k < FirstEnd(items)
    requires Run(items[..k], q).Ok?
    ensures Step(Run(items[..k], q).value, items[k].tag, q).Err? ==>
              Run(items[..FirstEnd(items)], q) == Err(Step(Run(items[..k], q).value, items[k].tag, q).error)
  {
    var n := FirstEnd(items);
    assert items[..k + 1][..k] == items[..k];
    assert items[..n][..k + 1] == items[..k + 1];
    if Run(items[..k + 1], q).Err? {
      RunErrSticks(items[..n], k + 1, q);
    }
  }
}
