/** The tag scan of the FDT region finder: which tags are wanted.
  *
  * A structure block is the list of tags that successive reads yield.  The scan keeps the path
  * of the open node in a character buffer and the wanted level of every open node on a stack.
  * The reference is a recursive definition over the tree that the tags spell out.
  */
module FdtScan {
  import opened CStrings
  import opened Results

  const FDT_MAX_DEPTH := 32

  /** A tag always occupies at least its own word. */
  type TagSize = n: int | 0 < n witness 4

  /** A property whose name offset lies outside the string table has no name. */
  datatype Tag = BeginNode(name: CString) | EndNode | Prop(key: Option<CString>) | Nop | End

  datatype Item = Item(tag: Tag, size: TagSize)

  datatype Error = BadLayout | BadStructure | NoSpace

  datatype Query = Query(inc: seq<string>, exc: seq<string>, pathLen: int)

  /** What the scan decides about one tag: include it, and, when it is left out, whether a region
    * that is open before it ends after it or before it. */
  datatype Mark = Mark(keep: bool, stopAfter: bool)

  datatype Scan = Scan(path: CString, want: nat, stack: seq<nat>, expectEnd: bool, marks: seq<Mark>)

  const START := Scan("", 0, [], false, [])

  // ---------------------------------------------------------------- the machine, tag by tag

  function PushPath(path: CString, name: CString): (r: CString) {
    (if |path| == 1 then path else path + "/") + name
  }

  function PopPath(path: CString): (r: CString)
    ensures r <= path
  {
    if path == "" then ""
    else if path[|path| - 1] == '/' then path[..|path| - 1]
    else PopPath(path[..|path| - 1])
  }

  function Enter(s: Scan, name: CString, q: Query): Result<Scan, Error> {
    if |s.stack| == FDT_MAX_DEPTH then Err(BadStructure)
    else if s.stack == [] && name != "" then Err(BadLayout)
    else if |s.path| + 2 + |name| >= q.pathLen then Err(NoSpace)
    else
      var path := PushPath(s.path, name);
      var hit := path in q.inc;
      var want := if hit then 2 else if s.want > 0 then s.want - 1 else 0;
      var mark := Mark(want > 0, s.want != 1 && (hit || s.want > 0));
      Ok(Scan(path, want, s.stack + [s.want], s.expectEnd, s.marks + [mark]))
  }

  function Leave(s: Scan): Result<Scan, Error> {
    if s.stack == [] then Err(BadStructure)
    else
      var depth := |s.stack| - 1;
      Ok(Scan(PopPath(s.path), s.stack[depth], s.stack[..depth], s.expectEnd || depth == 0,
              s.marks + [Mark(s.want > 0, true)]))
  }

  function Step(s: Scan, tag: Tag, q: Query): Result<Scan, Error> {
    if s.expectEnd && !tag.End? then Err(BadLayout)
    else
      match tag
      case Prop(key) =>
        if key.None? then Err(BadStructure)
        else Ok(s.(marks := s.marks + [Mark(s.want >= 2 && key.value !in q.exc, false)]))
      case Nop => Ok(s.(marks := s.marks + [Mark(s.want >= 2, false)]))
      case BeginNode(name) => Enter(s, name, q)
      case EndNode => Leave(s)
      case End => Ok(s.(marks := s.marks + [Mark(true, true)]))
  }

  function Run(items: seq<Item>, q: Query): Result<Scan, Error> {
    if items == [] then Ok(START)
    else
      var r := Run(items[..|items| - 1], q);
      if r.Err? then r else Step(r.value, items[|items| - 1].tag, q)
  }

  // ---------------------------------------------------------------- the tree and its reference

  /** What a node holds, listed from left to right; `before` is everything to the left. */
  datatype Content =
    | Empty
    | HasProp(before: Content, key: Option<CString>, size: TagSize)
    | HasNop(before: Content, size: TagSize)
    | HasNode(before: Content, name: CString, size: TagSize, body: Content, endSize: TagSize)

  function Flatten(c: Content): seq<Item> {
    match c
    case Empty => []
    case HasProp(before, key, size) => Flatten(before) + [Item(Prop(key), size)]
    case HasNop(before, size) => Flatten(before) + [Item(Nop, size)]
    case HasNode(before, name, size, body, endSize) =>
      Flatten(before) + [Item(BeginNode(name), size)] + Flatten(body) + [Item(EndNode, endSize)]
  }

  predicate AnyNode(c: Content) {
    match c
    case Empty => false
    case HasProp(before, _, _) => AnyNode(before)
    case HasNop(before, _) => AnyNode(before)
    case HasNode(_, _, _, _, _) => true
  }

  /** One root; before it only properties and no-ops. */
  predicate SingleRoot(c: Content) {
    c.HasNode? && !AnyNode(c.before)
  }

  function Join(names: seq<CString>): (r: CString)
    requires names != []
  {
    if |names| == 1 then names[0]
    else Join(names[..|names| - 1]) + "/" + names[|names| - 1]
  }

  /** The absolute path of the node reached through `names`; the root's own name is empty. */
  function AbsPath(names: seq<CString>): (r: CString)
    requires names != []
  {
    if |names| == 1 then "/" else Join(names)
  }

  predicate GoodName(name: CString) {
    name != "" && '/' !in name
  }

  /** Every node below the root has a non-empty name without a slash. */
  predicate WellNamed(c: Content, depth: nat) {
    match c
    case Empty => true
    case HasProp(before, _, _) => WellNamed(before, depth)
    case HasNop(before, _) => WellNamed(before, depth)
    case HasNode(before, name, _, body, _) =>
      WellNamed(before, depth) && (depth > 0 ==> GoodName(name)) && WellNamed(body, depth + 1)
  }

  predicate Listed(names: seq<CString>, q: Query) {
    names != [] && AbsPath(names) in q.inc
  }

  /** Reference: one flag per tag.  A listed node gives its two tags, its no-ops and its properties
    * that are not excluded; a child of a listed node gives at least its two tags. */
  function Included(c: Content, names: seq<CString>, q: Query): seq<bool> {
    match c
    case Empty => []
    case HasProp(before, key, _) =>
      Included(before, names, q) + [Listed(names, q) && key.Some? && key.value !in q.exc]
    case HasNop(before, _) => Included(before, names, q) + [Listed(names, q)]
    case HasNode(before, name, _, body, _) =>
      var tags := Listed(names + [name], q) || Listed(names, q);
      Included(before, names, q) + [tags] + Included(body, names + [name], q) + [tags]
  }

  /** The buffer's text inside the node `names` once `done` has been passed: leaving a child of the
    * root also eats the root's own slash. */
  function BufferAt(names: seq<CString>, done: Content): (r: CString) {
    if names == [] || (|names| == 1 && AnyNode(done)) then "" else AbsPath(names)
  }

  predicate NodeFits(names: seq<CString>, done: Content, name: CString, q: Query) {
    && |names| < 32
    && (names == [] ==> name == "")
    && |BufferAt(names, done)| + 2 + |name| < q.pathLen
  }

  /** The trees the finder accepts: nesting and path length within limits, properties with names. */
  predicate Fits(c: Content, names: seq<CString>, q: Query) {
    match c
    case Empty => true
    case HasProp(before, key, _) => Fits(before, names, q) && key.Some?
    case HasNop(before, _) => Fits(before, names, q)
    case HasNode(before, name, _, body, _) =>
      && Fits(before, names, q)
      && NodeFits(names, before, name, q)
      && Fits(body, names + [name], q)
  }

  // ---------------------------------------------------------------- a partly read tree

  /** A position between two tags: the open nodes, outermost first, with what each holds so far. */
  datatype Open =
    | Top(done: Content)
    | Inside(outer: Open, name: CString, size: TagSize, done: Content)

  function Names(o: Open): seq<CString> {
    if o.Top? then [] else Names(o.outer) + [o.name]
  }

  function Feed(o: Open, item: Item): Open {
    match item.tag
    case Prop(key) => o.(done := HasProp(o.done, key, item.size))
    case Nop => o.(done := HasNop(o.done, item.size))
    case BeginNode(name) => Inside(o, name, item.size, Empty)
    case EndNode =>
      if o.Top? then o
      else o.outer.(done := HasNode(o.outer.done, o.name, o.size, o.done, item.size))
    case End => o
  }

  function FeedAll(o: Open, items: seq<Item>): Open {
    if items == [] then o
    else Feed(FeedAll(o, items[..|items| - 1]), items[|items| - 1])
  }

  /** The partly read tree after `items`. */
  function Reading(items: seq<Item>): Open {
    FeedAll(Top(Empty), items)
  }

  function Spelled(o: Open): seq<Item> {
    match o
    case Top(done) => Flatten(done)
    case Inside(outer, name, size, done) =>
      Spelled(outer) + [Item(BeginNode(name), size)] + Flatten(done)
  }

  predicate OpenFits(o: Open, q: Query) {
    match o
    case Top(done) => Fits(done, [], q)
    case Inside(outer, name, _, done) =>
      && OpenFits(outer, q)
      && NodeFits(Names(outer), outer.done, name, q)
      && Fits(done, Names(o), q)
  }

  predicate OpenNamed(o: Open) {
    match o
    case Top(done) => WellNamed(done, 0)
    case Inside(outer, name, _, done) =>
      OpenNamed(outer) && (outer.Inside? ==> GoodName(name)) && WellNamed(done, |Names(o)|)
  }

  /** Above the open root there are no finished nodes. */
  predicate OneRoot(o: Open) {
    match o
    case Top(done) => !AnyNode(done) || SingleRoot(done)
    case Inside(outer, _, _, _) => OneRoot(outer) && (outer.Top? ==> !AnyNode(outer.done))
  }

  function IncludedSoFar(o: Open, q: Query): seq<bool> {
    match o
    case Top(done) => Included(done, [], q)
    case Inside(outer, name, _, done) =>
      IncludedSoFar(outer, q)
      + [Listed(Names(o), q) || Listed(Names(outer), q)]
      + Included(done, Names(o), q)
  }

  function Want(o: Open, q: Query): nat {
    if o.Top? then 0
    else if Listed(Names(o), q) then 2
    else if Listed(Names(o.outer), q) then 1
    else 0
  }

  function Wants(o: Open, q: Query): seq<nat> {
    if o.Top? then [] else Wants(o.outer, q) + [Want(o.outer, q)]
  }

  function Includes(marks: seq<Mark>): (r: seq<bool>)
    ensures |r| == |marks|
  {
    if marks == [] then []
    else Includes(marks[..|marks| - 1]) + [marks[|marks| - 1].keep]
  }

  /** A tag that is left out ends an open region after itself exactly when it ends a node. */
  predicate StopsSound(marks: seq<Mark>, items: seq<Item>) {
    && |marks| == |items|
    && forall j :: 0 <= j < |items| ==>
         marks[j].keep || (marks[j].stopAfter <==> items[j].tag.EndNode?)
  }

  /** The scan state agrees with the partly read tree. */
  predicate Agrees(s: Scan, o: Open, q: Query) {
    && s.path == BufferAt(Names(o), o.done)
    && s.want == Want(o, q)
    && s.stack == Wants(o, q)
    && s.expectEnd == (o.Top? && AnyNode(o.done))
    && OneRoot(o)
    && (o.Inside? ==> Names(o)[0] == "")
    && Includes(s.marks) == IncludedSoFar(o, q)
  }
}
