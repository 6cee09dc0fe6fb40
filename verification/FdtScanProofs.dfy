/** The tag scan agrees with the recursive reference, at every tag and over whole trees. */
module FdtScanProofs {
  import opened CStrings
  import opened Results
  import opened FdtScan

  // ---------------------------------------------------------------- the path buffer

  /** Leaving undoes entering, for a name without a slash. */
  lemma {:induction false} PopUndoesPush(path: CString, name: CString)
    requires '/' !in name
    ensures PopPath(path + "/" + name) == path
  {
    var full := path + "/" + name;
    if name == "" {
      assert full[..|full| - 1] == path;
    } else {
      var shorter := name[..|name| - 1];
      assert full[|full| - 1] == name[|name| - 1] && name[|name| - 1] in name;
      assert full[..|full| - 1] == path + "/" + shorter;
      PopUndoesPush(path, shorter);
    }
  }

  lemma {:induction false} AbsPathExtends(names: seq<CString>, name: CString)
    requires |names| >= 2 || (|names| == 1 && names[0] == "")
    ensures AbsPath(names + [name]) == Join(names) + "/" + name
    ensures Join(names) == if |names| == 1 then "" else AbsPath(names)
  {
    assert (names + [name])[..|names|] == names;
  }

  lemma {:induction false} AbsPathLong(names: seq<CString>)
    requires |names| >= 2 && names[0] == "" && GoodName(names[|names| - 1])
    ensures |AbsPath(names)| >= 2
  {
  }

  /** Entering a node writes exactly its absolute path. */
  lemma {:induction false} PushIsAbsolute(o: Open, name: CString)
    requires o.Top? ==> name == ""
    requires o.Inside? ==> Names(o)[0] == "" && GoodName(name)
    requires OpenNamed(o)
    ensures PushPath(BufferAt(Names(o), o.done), name) == AbsPath(Names(o) + [name])
  {
    if o.Inside? {
      AbsPathExtends(Names(o), name);
      if o.outer.Inside? {
        assert Names(o)[0] == Names(o.outer)[0];
        AbsPathLong(Names(o));
      }
    }
  }

  /** Leaving a node restores the text its parent had after it. */
  lemma {:induction false} PopIsParent(o: Open, size: TagSize)
    requires o.Inside? && Names(o)[0] == "" && OpenNamed(o)
    ensures PopPath(BufferAt(Names(o), o.done))
            == BufferAt(Names(o.outer), HasNode(o.outer.done, o.name, o.size, o.done, size))
  {
    if o.outer.Inside? {
      assert Names(o.outer)[0] == Names(o)[0];
      AbsPathExtends(Names(o.outer), o.name);
      PopUndoesPush(Join(Names(o.outer)), o.name);
    }
  }

  // ---------------------------------------------------------------- one tag

  lemma {:induction false} IncludesSnoc(marks: seq<Mark>, m: Mark)
    ensures Includes(marks + [m]) == Includes(marks) + [m.keep]
  {
    assert (marks + [m])[..|marks|] == marks;
  }

  lemma {:induction false} WantsLength(o: Open, q: Query)
    ensures |Wants(o, q)| == |Names(o)|
  {
    if o.Inside? { WantsLength(o.outer, q); }
  }

  /** The scan survives a tag exactly when the grown tree still fits under one root. */
  predicate Survives(o: Open, item: Item, q: Query) {
    && OpenFits(Feed(o, item), q)
    && OneRoot(Feed(o, item))
    && (item.tag.EndNode? ==> o.Inside?)
  }

  lemma {:induction false} EnterSurvives(s: Scan, o: Open, item: Item, q: Query)
    requires item.tag.BeginNode? && Agrees(s, o, q) && OpenFits(o, q)
    ensures Step(s, item.tag, q).Ok? <==> Survives(o, item, q)
  {
    WantsLength(o, q);
    assert s.stack == [] <==> o.Top?;
    assert Fits(Empty, Names(Feed(o, item)), q);
  }

  lemma {:induction false} EnterAgrees(s: Scan, o: Open, item: Item, q: Query)
    requires item.tag.BeginNode? && Agrees(s, o, q) && OpenNamed(Feed(o, item))
    requires Step(s, item.tag, q).Ok? && OneRoot(Feed(o, item))
    ensures Agrees(Step(s, item.tag, q).value, Feed(o, item), q)
  {
    hide Join, Includes;
    WantsLength(o, q);
    var s', o' := Step(s, item.tag, q).value, Feed(o, item);
    PushIsAbsolute(o, item.tag.name);
    assert Names(o') == Names(o) + [item.tag.name];
    assert s'.path == AbsPath(Names(o'));
    assert s'.want == Want(o', q);
    var m := s'.marks[|s.marks|];
    IncludesSnoc(s.marks, m);
    assert m.keep == (Listed(Names(o'), q) || Listed(Names(o), q));
    assert IncludedSoFar(o', q) == IncludedSoFar(o, q) + [m.keep];
  }

  lemma {:induction false} LeaveSurvives(s: Scan, o: Open, item: Item, q: Query)
    requires item.tag.EndNode? && Agrees(s, o, q) && OpenFits(o, q)
    ensures Step(s, item.tag, q).Ok? <==> Survives(o, item, q)
  {
    WantsLength(o, q);
    if o.Inside? {
      var o' := Feed(o, item);
      assert OpenFits(o.outer, q) && OneRoot(o.outer);
      assert Names(o') == Names(o.outer);
      assert Names(o) == Names(o.outer) + [o.name];
      assert Fits(o'.done, Names(o'), q);
    }
  }

  lemma {:induction false} LeaveAgrees(s: Scan, o: Open, item: Item, q: Query)
    requires item.tag.EndNode? && Agrees(s, o, q) && OpenNamed(o)
    requires Step(s, item.tag, q).Ok? && OneRoot(Feed(o, item))
    ensures Agrees(Step(s, item.tag, q).value, Feed(o, item), q)
  {
    hide BufferAt, IncludedSoFar, Includes, OneRoot, OpenNamed, PopPath, Wants, Want, Names, AnyNode;
    var s', o' := Step(s, item.tag, q).value, Feed(o, item);
    WantsLength(o, q);
    LeaveLevels(o, item, q);
    PopIsParent(o, item.size);
    IncludesSnoc(s.marks, s'.marks[|s.marks|]);
    LeaveIncluded(o, item, q);
  }

  lemma {:induction false} LeaveLevels(o: Open, item: Item, q: Query)
    requires item.tag.EndNode?
    ensures o.Top? ==> Wants(o, q) == [] && Names(o) == []
    ensures o.Inside? ==>
              var o' := Feed(o, item);
              && Names(o) == Names(o.outer) + [o.name] && Names(o') == Names(o.outer)
              && Wants(o, q) == Wants(o.outer, q) + [Want(o.outer, q)]
              && Wants(o', q) == Wants(o.outer, q) && Want(o', q) == Want(o.outer, q)
              && AnyNode(o'.done) && (o'.Top? <==> |Names(o)| == 1) && (o'.Inside? ==> Names(o')[0] == Names(o)[0])
  {
    hide Listed;
    if o.Inside? && o.outer.Inside? {
      assert Names(o.outer) == Names(o.outer.outer) + [o.outer.name];
    }
  }

  lemma {:induction false} LeaveIncluded(o: Open, item: Item, q: Query)
    requires item.tag.EndNode? && o.Inside?
    ensures IncludedSoFar(Feed(o, item), q) == IncludedSoFar(o, q) + [Want(o, q) > 0]
  {
    hide Listed, AbsPath, Join;
    var o' := Feed(o, item);
    assert Names(o') == Names(o.outer);
    assert Names(o) == Names(o.outer) + [o.name];
  }

  lemma {:induction false} PlainSurvives(s: Scan, o: Open, item: Item, q: Query)
    requires item.tag.Prop? || item.tag.Nop?
    requires Agrees(s, o, q) && OpenFits(o, q)
    ensures Step(s, item.tag, q).Ok? <==> Survives(o, item, q)
  {
    hide Enter, Leave, BufferAt, Wants, Want, Includes, IncludedSoFar, OpenFits, OneRoot, Names, Spelled;
    PlainGrows(o, item, q);
  }

  /** What a property or no-op does to the partly read tree. */
  lemma {:induction false} PlainGrows(o: Open, item: Item, q: Query)
    requires item.tag.Prop? || item.tag.Nop?
    requires OpenFits(o, q) && OneRoot(o)
    ensures OpenFits(Feed(o, item), q) <==> item.tag.Nop? || item.tag.key.Some?
    ensures OneRoot(Feed(o, item)) <==> !(o.Top? && AnyNode(o.done))
  {
    hide NodeFits;
    assert Names(Feed(o, item)) == Names(o);
  }

  lemma {:induction false} PlainAgrees(s: Scan, o: Open, item: Item, q: Query)
    requires item.tag.Prop? || item.tag.Nop?
    requires Agrees(s, o, q)
    requires Step(s, item.tag, q).Ok? && OneRoot(Feed(o, item))
    ensures Agrees(Step(s, item.tag, q).value, Feed(o, item), q)
  {
    hide Enter, Leave, AbsPath, IncludedSoFar, Includes, OneRoot;
    var s', o' := Step(s, item.tag, q).value, Feed(o, item);
    assert Names(o') == Names(o);
    assert AnyNode(o'.done) == AnyNode(o.done);
    assert Want(o', q) == Want(o, q) && Wants(o', q) == Wants(o, q);
    IncludesSnoc(s.marks, s'.marks[|s.marks|]);
    PlainIncluded(o, item, q);
  }

  lemma {:induction false} PlainIncluded(o: Open, item: Item, q: Query)
    requires item.tag.Prop? || item.tag.Nop?
    ensures IncludedSoFar(Feed(o, item), q) == IncludedSoFar(o, q)
            + [Listed(Names(o), q)
               && (item.tag.Prop? ==> item.tag.key.Some? && item.tag.key.value !in q.exc)]
  {
    hide Listed, AbsPath, Join;
    var names, o', last := Names(o), Feed(o, item), IncludedSoFar(o, q);
    assert Names(o') == names;
    if o.Inside? {
      var front := IncludedSoFar(o.outer, q) + [Listed(names, q) || Listed(Names(o.outer), q)];
      var was, now := Included(o.done, names, q), Included(o'.done, names, q);
      assert last == front + was && IncludedSoFar(o', q) == front + now;
      assert front + (was + [now[|was|]]) == (front + was) + [now[|was|]];
    }
  }

  lemma {:induction false} StepAgrees(s: Scan, o: Open, item: Item, q: Query)
    requires !item.tag.End? && Agrees(s, o, q) && OpenFits(o, q) && OpenNamed(Feed(o, item))
    ensures Step(s, item.tag, q).Ok? <==> Survives(o, item, q)
    ensures Step(s, item.tag, q).Ok? ==> Agrees(Step(s, item.tag, q).value, Feed(o, item), q)
  {
    match item.tag {
      case BeginNode(_) =>
        EnterSurvives(s, o, item, q);
        if Survives(o, item, q) { EnterAgrees(s, o, item, q); }
      case EndNode =>
        LeaveSurvives(s, o, item, q);
        if Survives(o, item, q) { FeedKeeps(o, item, q); LeaveAgrees(s, o, item, q); }
      case _ =>
        PlainSurvives(s, o, item, q);
        if Survives(o, item, q) { PlainAgrees(s, o, item, q); }
    }
  }

  /** Reading further never repairs a tree. */
  lemma {:induction false} FeedKeeps(o: Open, item: Item, q: Query)
    ensures OpenNamed(Feed(o, item)) ==> OpenNamed(o)
    ensures OneRoot(Feed(o, item)) ==> OneRoot(o)
    ensures OpenFits(Feed(o, item), q) ==> OpenFits(o, q)
  {
    var o' := Feed(o, item);
    if item.tag.EndNode? {
      if o.Inside? {
        assert Names(o') == Names(o.outer);
        assert Names(o) == Names(o.outer) + [o.name];
      }
    } else if !item.tag.BeginNode? {
      assert Names(o') == Names(o);
    }
  }

  lemma {:induction false} FeedSpells(o: Open, item: Item)
    requires !item.tag.End?
    ensures Spelled(Feed(o, item))
            == Spelled(o) + if item.tag.EndNode? && o.Top? then [] else [item]
  {
  }

  lemma {:induction false} ReadingLength(items: seq<Item>)
    requires forall i :: 0 <= i < |items| ==> !items[i].tag.End?
    ensures |Spelled(Reading(items))| <= |items|
  {
    if items != [] {
      var n := |items| - 1;
      ReadingLength(items[..n]);
      FeedSpells(Reading(items[..n]), items[n]);
    }
  }

  /** The tags read so far spell out a partly read tree that fits under one root. */
  predicate Readable(items: seq<Item>, q: Query) {
    && Spelled(Reading(items)) == items
    && OneRoot(Reading(items))
    && OpenFits(Reading(items), q)
  }

  lemma {:induction false} ReadableSnoc(items: seq<Item>, item: Item, q: Query)
    requires forall i :: 0 <= i < |items| ==> !items[i].tag.End?
    requires !item.tag.End?
    ensures Readable(items + [item], q) <==> Readable(items, q) && Survives(Reading(items), item, q)
  {
    var o := Reading(items);
    assert (items + [item])[..|items|] == items;
    assert Reading(items + [item]) == Feed(o, item);
    FeedKeeps(o, item, q);
    ReadingLength(items);
    FeedSpells(o, item);
    if item.tag.EndNode? && o.Top? {
      assert |Spelled(Feed(o, item))| < |items + [item]|;
    } else {
      assert Spelled(Feed(o, item)) == items + [item] ==> Spelled(o) == items by {
        assert (Spelled(o) + [item])[..|Spelled(o)|] == Spelled(o);
      }
    }
  }

  lemma {:induction false} StepMarks(s: Scan, tag: Tag, q: Query)
    requires Step(s, tag, q).Ok?
    ensures var marks := Step(s, tag, q).value.marks;
            && |marks| == |s.marks| + 1 && marks[..|s.marks|] == s.marks
            && (marks[|s.marks|].keep || (marks[|s.marks|].stopAfter <==> tag.EndNode?))
  {
  }

  lemma {:induction false} RunStops(items: seq<Item>, q: Query)
    requires Run(items, q).Ok?
    ensures StopsSound(Run(items, q).value.marks, items)
  {
    hide Enter, Leave;
    if items != [] {
      var n := |items| - 1;
      RunStops(items[..n], q);
      StepMarks(Run(items[..n], q).value, items[n].tag, q);
    }
  }

  /** At every tag of every run: the scan goes on exactly while the tags spell out a fitting tree,
    * and then the path buffer, the wanted levels and the decisions are those of that tree. */
  lemma {:induction false} RunAgrees(items: seq<Item>, q: Query)
    requires forall i :: 0 <= i < |items| ==> !items[i].tag.End?
    requires OpenNamed(Reading(items))
    ensures Run(items, q).Ok? <==> Readable(items, q)
    ensures Run(items, q).Ok? ==>
              && Agrees(Run(items, q).value, Reading(items), q)
              && StopsSound(Run(items, q).value.marks, items)
  {
    if items != [] {
      var n := |items| - 1;
      var o, item := Reading(items[..n]), items[n];
      FeedKeeps(o, item, q);
      RunAgrees(items[..n], q);
      assert items == items[..n] + [item];
      ReadableSnoc(items[..n], item, q);
      if Run(items[..n], q).Ok? {
        StepAgrees(Run(items[..n], q).value, o, item, q);
      }
    }
    if Run(items, q).Ok? { RunStops(items, q); }
  }

  lemma {:induction false} RunErrSticks(items: seq<Item>, k: nat, q: Query)
    requires k <= |items| && Run(items[..k], q).Err?
    ensures Run(items, q) == Run(items[..k], q)
    decreases |items|
  {
    if k == |items| {
      assert items[..k] == items;
    } else {
      assert items[..|items| - 1][..k] == items[..k];
      RunErrSticks(items[..|items| - 1], k, q);
    }
  }

  /** Why a tag ends the scan: after the root nothing but the end tag may follow; otherwise a
    * property without a name, an end without a node, and then the limits on a new node in order. */
  function Refusal(o: Open, tag: Tag): Error {
    if o.Top? && AnyNode(o.done) then BadLayout
    else if !tag.BeginNode? || |Names(o)| == 32 then BadStructure
    else if o.Top? && tag.name != "" then BadLayout
    else NoSpace
  }

  lemma {:induction false} StepRefuses(s: Scan, o: Open, item: Item, q: Query)
    requires !item.tag.End? && Agrees(s, o, q) && OpenFits(o, q) && !Survives(o, item, q)
    ensures Step(s, item.tag, q) == Err(Refusal(o, item.tag))
  {
    hide Survives, OpenFits, IncludedSoFar, Includes, OneRoot, Join;
    WantsLength(o, q);
    if item.tag.BeginNode? {
      EnterSurvives(s, o, item, q);
    } else if item.tag.EndNode? {
      LeaveSurvives(s, o, item, q);
    } else {
      PlainSurvives(s, o, item, q);
    }
  }

  /** The first tag the scan does not survive decides which error it returns, by the tree alone. */
  lemma {:induction false} RefusalIs(items: seq<Item>, item: Item, q: Query)
    requires !item.tag.End? && forall i :: 0 <= i < |items| ==> !items[i].tag.End?
    requires OpenNamed(Reading(items)) && Readable(items, q) && !Survives(Reading(items), item, q)
    ensures Run(items + [item], q) == Err(Refusal(Reading(items), item.tag))
  {
    hide Survives, OpenFits, Agrees, Refusal, Spelled, OpenNamed, Step;
    RunAgrees(items, q);
    assert (items + [item])[..|items|] == items;
    StepRefuses(Run(items, q).value, Reading(items), item, q);
  }

  // ---------------------------------------------------------------- whole trees

  function Append(a: Content, c: Content): Content {
    match c
    case Empty => a
    case HasProp(before, key, size) => HasProp(Append(a, before), key, size)
    case HasNop(before, size) => HasNop(Append(a, before), size)
    case HasNode(before, name, size, body, endSize) =>
      HasNode(Append(a, before), name, size, body, endSize)
  }

  lemma {:induction false} AppendToEmpty(c: Content)
    ensures Append(Empty, c) == c
  {
    if !c.Empty? { AppendToEmpty(c.before); }
  }

  lemma {:induction false} FeedConcat(o: Open, a: seq<Item>, b: seq<Item>)
    ensures FeedAll(o, a + b) == FeedAll(FeedAll(o, a), b)
    decreases |b|
  {
    if b == [] {
      assert a + b == a;
    } else {
      var n := |b| - 1;
      assert (a + b)[..|a| + n] == a + b[..n];
      FeedConcat(o, a, b[..n]);
    }
  }

  lemma {:induction false} FeedOne(o: Open, item: Item)
    ensures FeedAll(o, [item]) == Feed(o, item)
  {
    assert [item][..0] == [];
  }

  /** Reading the tags of a tree builds that tree. */
  lemma {:induction false} FeedFlatten(o: Open, c: Content)
    ensures FeedAll(o, Flatten(c)) == o.(done := Append(o.done, c))
    ensures forall i :: 0 <= i < |Flatten(c)| ==> !Flatten(c)[i].tag.End?
    decreases c
  {
    match c {
      case Empty =>
      case HasProp(before, key, size) =>
        FeedFlatten(o, before);
        FeedConcat(o, Flatten(before), [Item(Prop(key), size)]);
        FeedOne(o.(done := Append(o.done, before)), Item(Prop(key), size));
      case HasNop(before, size) =>
        FeedFlatten(o, before);
        FeedConcat(o, Flatten(before), [Item(Nop, size)]);
        FeedOne(o.(done := Append(o.done, before)), Item(Nop, size));
      case HasNode(before, name, size, body, endSize) =>
        var first, last := Item(BeginNode(name), size), Item(EndNode, endSize);
        FeedFlatten(o, before);
        var o1 := o.(done := Append(o.done, before));
        FeedConcat(o, Flatten(before), [first]);
        FeedOne(o1, first);
        var o2 := Inside(o1, name, size, Empty);
        FeedConcat(o, Flatten(before) + [first], Flatten(body));
        FeedFlatten(o2, body);
        AppendToEmpty(body);
        FeedConcat(o, Flatten(before) + [first] + Flatten(body), [last]);
        FeedOne(o2.(done := body), last);
    }
  }

  /** Over a whole single-root tree with proper names: the scan succeeds exactly when the tree
    * fits, keeps exactly the tags the reference keeps, and ends with nothing open. */
  lemma {:induction false} ScanMatchesTree(t: Content, q: Query)
    requires SingleRoot(t) && WellNamed(t, 0)
    ensures Run(Flatten(t), q).Ok? <==> Fits(t, [], q)
    ensures Run(Flatten(t), q).Ok? ==>
              var s := Run(Flatten(t), q).value;
              && Includes(s.marks) == Included(t, [], q)
              && StopsSound(s.marks, Flatten(t))
              && s.expectEnd && s.path == "" && s.want == 0 && s.stack == []
  {
    FeedFlatten(Top(Empty), t);
    AppendToEmpty(t);
    RunAgrees(Flatten(t), q);
  }

  /** Conversely, tags after which the scan expects the end are those of one rooted tree. */
  lemma {:induction false} ScanEndsInTree(items: seq<Item>, q: Query) returns (t: Content)
    requires forall i :: 0 <= i < |items| ==> !items[i].tag.End?
    requires OpenNamed(Reading(items))
    requires Run(items, q).Ok? && Run(items, q).value.expectEnd
    ensures SingleRoot(t) && WellNamed(t, 0) && Fits(t, [], q) && Flatten(t) == items
  {
    RunAgrees(items, q);
    t := Reading(items).done;
  }
}
