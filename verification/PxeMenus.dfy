/** Writing a whole menu as text, with its included files, and parsing it gives the menu back. */
module PxeMenus {
  import opened CStrings
  import opened Results
  import opened PxeLexer
  import opened PxeParser
  import opened PxeTokens
  import opened PxeValues
  import opened PxeLines
  import opened PxeRoundTrip

  // ---------------------------------------------------------------- menus and their text

  /** The statements of one file; an include carries the statements of the file it names. */
  datatype Listing = NoMore | Then(head: Stmt, tail: Listing)

  datatype Stmt =
    | TitleIs(v: string) | BackgroundIs(v: string) | TimeoutIs(v: string) | PromptIs(v: string)
    | DefaultIs(v: string) | OntimeoutIs(v: string) | LabelIs(sp: Spec)
    | Included(path: string, body: Listing) | MenuIncluded(path: string, body: Listing)
    | Comment(text: string) | Unknown(word: string, v: string)

  predicate Good(m: Listing) {
    m.Then? ==> GoodStmt(m.head) && Good(m.tail)
  }

  predicate GoodStmt(s: Stmt) {
    match s
    case LabelIs(sp) => GoodSpec(sp)
    case Included(path, body) => GoodValue(path) && Good(body)
    case MenuIncluded(path, body) => GoodValue(path) && Good(body)
    case Comment(text) => OneLine(text)
    case Unknown(word, v) => PlainWord(word) && OneLine(word) && OneLine(v) && forall w :: Spelling(w) != word
    case _ => GoodValue(s.v)
  }

  function StmtText(s: Stmt): CString
    requires GoodStmt(s)
  {
    match s
    case TitleIs(v) => MenuLine(TitleWord, v)
    case BackgroundIs(v) => MenuLine(BackgroundWord, v)
    case TimeoutIs(v) => Line(TimeoutWord, v)
    case PromptIs(v) => Line(PromptWord, v)
    case DefaultIs(v) => Line(DefaultWord, v)
    case OntimeoutIs(v) => Line(OntimeoutWord, v)
    case LabelIs(sp) => WrittenSpec(sp)
    case Included(path, _) => Line(IncludeWord, path)
    case MenuIncluded(path, _) => MenuLine(IncludeWord, path)
    case Comment(text) => "#" + text + "\n"
    case Unknown(word, v) => word + (" " + v + "\n")
  }

  function Text(m: Listing): CString
    requires Good(m)
  {
    if m.NoMore? then "" else StmtText(m.head) + Text(m.tail)
  }

  // ---------------------------------------------------------------- what a menu means

  datatype Topic = TitleTopic | BackgroundTopic | TimeoutTopic | PromptTopic | DefaultTopic

  /** One thing a statement does. */
  datatype Effect = Sets(topic: Topic, v: string) | Lists(sp: Spec)

  /** A label takes such a line for its own and does nothing with it. */
  function Swallowed(s: Stmt): Option<Field> {
    match s
    case TitleIs(v) => Some(Stray(MenuOther(TitleWord, v)))
    case BackgroundIs(v) => Some(Stray(MenuOther(BackgroundWord, v)))
    case MenuIncluded(path, _) => Some(Stray(MenuOther(IncludeWord, path)))
    case Comment(text) => Some(Stray(Remark(text)))
    case _ => None
  }

  /** Whether a label is open after a statement. */
  predicate LeavesOpen(s: Stmt, open: bool) {
    s.LabelIs? || (open && Swallowed(s).Some?)
  }

  /** What a file does, in order, with included files in place.  `open` tells whether a label is open
    * at its start.  Every menu line also asks for the menu to be shown. */
  function Effects(m: Listing, open: bool): seq<Effect> {
    if m.NoMore? then [] else Does(m.head, open) + Effects(m.tail, LeavesOpen(m.head, open))
  }

  function Does(s: Stmt, open: bool): seq<Effect> {
    if open && Swallowed(s).Some? then []
    else
      match s
      case TitleIs(v) => [Sets(PromptTopic, "1"), Sets(TitleTopic, v)]
      case BackgroundIs(v) => [Sets(PromptTopic, "1"), Sets(BackgroundTopic, v)]
      case TimeoutIs(v) => [Sets(TimeoutTopic, v)]
      case PromptIs(v) => [Sets(PromptTopic, v)]
      case DefaultIs(v) => [Sets(DefaultTopic, v)]
      case OntimeoutIs(v) => [Sets(DefaultTopic, v)]
      case LabelIs(sp) => [Lists(sp)]
      case Included(_, body) => Effects(body, false)
      case MenuIncluded(_, body) => [Sets(PromptTopic, "1")] + Effects(body, false)
      case Comment(_) => []
      case Unknown(_, _) => []
  }

  /** How deep included files are nested in a file. */
  function Depth(m: Listing, open: bool): nat {
    if m.NoMore? then 0
    else Max(DepthOf(m.head, open), Depth(m.tail, LeavesOpen(m.head, open)))
  }

  function DepthOf(s: Stmt, open: bool): nat {
    match s
    case Included(_, body) => 1 + Depth(body, false)
    case MenuIncluded(_, body) => if open then 0 else 1 + Depth(body, false)
    case _ => 0
  }

  function Max(a: nat, b: nat): nat {
    if a < b then b else a
  }

  /** The files hold the text of what is included. */
  predicate Provides(files: Files, m: Listing) {
    m.Then? ==> ProvidesFor(files, m.head) && Provides(files, m.tail)
  }

  predicate ProvidesFor(files: Files, s: Stmt) {
    s.Included? || s.MenuIncluded? ==>
      Good(s.body) && s.path in files && files[s.path] == Text(s.body) && Provides(files, s.body)
  }

  /** The last value given for a topic. */
  function LastValue(es: seq<Effect>, topic: Topic): Option<string> {
    if es == [] then None
    else
      var e := es[|es| - 1];
      if e.Sets? && e.topic == topic then Some(e.v) else LastValue(es[..|es| - 1], topic)
  }

  function Labels(es: seq<Effect>): seq<Spec> {
    if es == [] then []
    else
      var e := es[|es| - 1];
      Labels(es[..|es| - 1]) + if e.Lists? then [e.sp] else []
  }

  /** The first label with a default mark. */
  function FirstMarked(sps: seq<Spec>): Option<string> {
    if sps == [] then None
    else if MenuMark in sps[0].fields then Some(sps[0].name)
    else FirstMarked(sps[1..])
  }

  predicate AllHold(es: seq<Entry>, sps: seq<Spec>) {
    |es| == |sps| && forall i :: 0 <= i < |es| ==> Holds(es[i], sps[i].name, sps[i].fields)
  }

  /** The menu is what these effects make it: the last value of each topic, every label in order with
    * exactly the values of its lines, and as default the last one set, or else the first one marked. */
  predicate Shows(cfg: Config, es: seq<Effect>) {
    && cfg.title == LastValue(es, TitleTopic) && cfg.bmp == LastValue(es, BackgroundTopic)
    && cfg.timeout == Num(LastValue(es, TimeoutTopic)) && cfg.prompt == Num(LastValue(es, PromptTopic))
    && AllHold(cfg.labels, Labels(es))
    && cfg.defaultLabel == if LastValue(es, DefaultTopic).Some? then LastValue(es, DefaultTopic)
                           else FirstMarked(Labels(es))
  }

  // ---------------------------------------------------------------- one more effect

  function Updated(cfg: Config, topic: Topic, v: string): Config {
    match topic
    case TitleTopic => cfg.(title := Some(v))
    case BackgroundTopic => cfg.(bmp := Some(v))
    case TimeoutTopic => cfg.(timeout := Integer(v))
    case PromptTopic => cfg.(prompt := Integer(v))
    case DefaultTopic => cfg.(defaultLabel := Some(v))
  }

  lemma {:induction false} LastSnoc(es: seq<Effect>, e: Effect, topic: Topic)
    ensures LastValue(es + [e], topic) == if e.Sets? && e.topic == topic then Some(e.v) else LastValue(es, topic)
  {
    assert (es + [e])[..|es|] == es;
  }

  lemma {:induction false} LabelsSnoc(es: seq<Effect>, e: Effect)
    ensures Labels(es + [e]) == Labels(es) + if e.Lists? then [e.sp] else []
  {
    assert (es + [e])[..|es|] == es;
  }

  lemma {:induction false} LastsSnoc(es: seq<Effect>, e: Effect)
    ensures forall topic :: LastValue(es + [e], topic)
                            == if e.Sets? && e.topic == topic then Some(e.v) else LastValue(es, topic)
  {
    forall topic ensures LastValue(es + [e], topic)
                         == if e.Sets? && e.topic == topic then Some(e.v) else LastValue(es, topic)
    {
      LastSnoc(es, e, topic);
    }
  }

  lemma {:induction false} ShowsSets(cfg: Config, es: seq<Effect>, topic: Topic, v: string)
    requires Shows(cfg, es)
    ensures Shows(Updated(cfg, topic, v), es + [Sets(topic, v)])
  {
    hide LastValue, Labels, AllHold, Integer;
    LastsSnoc(es, Sets(topic, v));
    LabelsSnoc(es, Sets(topic, v));
    assert Labels(es) + [] == Labels(es);
  }

  lemma {:induction false} FirstSnoc(sps: seq<Spec>, sp: Spec)
    ensures FirstMarked(sps + [sp])
            == if FirstMarked(sps).Some? then FirstMarked(sps)
               else if MenuMark in sp.fields then Some(sp.name) else None
  {
    if sps == [] {
      assert sps + [sp] == [sp];
    } else {
      assert (sps + [sp])[1..] == sps[1..] + [sp];
      FirstSnoc(sps[1..], sp);
    }
  }

  lemma {:induction false} ShowsLabel(cfg: Config, es: seq<Effect>, e: Entry, sp: Spec)
    requires Shows(cfg, es) && Holds(e, sp.name, sp.fields)
    ensures var d := if MenuMark in sp.fields && cfg.defaultLabel.None? then Some(sp.name) else cfg.defaultLabel;
            Shows(cfg.(labels := cfg.labels + [e], defaultLabel := d), es + [Lists(sp)])
  {
    hide LastValue, Labels, Holds, FirstMarked;
    LastsSnoc(es, Lists(sp));
    LabelsSnoc(es, Lists(sp));
    FirstSnoc(Labels(es), sp);
  }

  // ---------------------------------------------------------------- one statement

  lemma {:induction false} FileLineEnd(files: Files, st: State, rest: string, nest: nat)
    requires nest <= MAX_NEST_LEVEL
    ensures ParseFile(files, st, "\n" + rest, nest) == ParseFile(files, st, rest, nest)
  {
    hide GetToken;
    EolToken(rest);
  }

  /** A statement that goes on to the line end. */
  lemma {:induction false} FileGoesOn(files: Files, st: State, s: string, st': State, rest: string, nest: nat)
    requires nest <= MAX_NEST_LEVEL && Statement(files, st, s, nest) == Going(st', "\n" + rest)
    ensures ParseFile(files, st, s, nest) == ParseFile(files, st', rest, nest)
  {
    hide Statement;
    FileLineEnd(files, st', rest, nest);
  }

  /** What a setting makes of its value. */
  lemma {:induction false} SettingIs(st: State, w: Word, v: string, rest: string)
    requires GoodValue(v) && w in {TimeoutWord, PromptWord, DefaultWord, OntimeoutWord}
    ensures var r := Setting(st, " " + v + "\n" + rest, Meaning(w));
            && r.Going? && r.rest == "\n" + rest
            && r.st.cfg == Updated(st.cfg, if w == TimeoutWord then TimeoutTopic
                                           else if w == PromptWord then PromptTopic else DefaultTopic, v)
  {
    hide GetToken, Integer;
    LiteralToken(v, rest);
  }

  lemma {:induction false} SettingMeaning(w: Word)
    requires w in {TimeoutWord, PromptWord, DefaultWord, OntimeoutWord}
    ensures IsSetting(Meaning(w))
  {
  }

  lemma {:induction false} LineStatement(files: Files, st: State, w: Word, v: string, rest: string, nest: nat)
    requires nest <= MAX_NEST_LEVEL && GoodValue(v) && w in {TimeoutWord, PromptWord, DefaultWord, OntimeoutWord}
    ensures Statement(files, st, Line(w, v) + rest, nest) == Setting(st, " " + v + "\n" + rest, Meaning(w))
  {
    hide GetToken, Setting, Spelling, Meaning;
    var value := " " + v + "\n" + rest;
    SettingMeaning(w);
    assert Line(w, v) + rest == Spelling(w) + value;
    KeywordToken(w, value);
  }

  lemma {:induction false} MenuStatementIs(files: Files, st: State, w: Word, v: string, rest: string, nest: nat)
    requires nest <= MAX_NEST_LEVEL && GoodValue(v) && (w == TitleWord || w == BackgroundWord)
    ensures var shown := st.cfg.(prompt := 1);
            Statement(files, st, MenuLine(w, v) + rest, nest)
            == Going(st.(cfg := Updated(shown, if w == TitleWord then TitleTopic else BackgroundTopic, v)), "\n" + rest)
  {
    hide GetToken, SkipLine, MenuLine;
    MenuLineIs(w, v, rest);
    MenuWords(w, " " + v + "\n" + rest);
    LiteralToken(v, rest);
    LineEndStays(rest);
  }

  lemma {:induction false} OneIsOne()
    ensures Integer("1") == 1
  {
    assert Decimal(1) == [DigitChar(1)] == "1";
    IntegerRoundTrip(1);
  }

  lemma {:induction false} UnknownStatement(files: Files, st: State, word: string, v: string, rest: string, nest: nat)
    requires nest <= MAX_NEST_LEVEL && GoodStmt(Unknown(word, v))
    ensures Statement(files, st, word + (" " + v + "\n") + rest, nest) == Going(st, "\n" + rest)
  {
    hide GetToken, Lookup, SkipLine;
    var value := " " + v + "\n" + rest;
    assert word + (" " + v + "\n") + rest == word + value;
    PlainToken(word, value);
    LookupExact(word);
    ValueSkipped(v, rest);
  }

  /** A statement other than a label or an include, outside a label. */
  lemma {:induction false} SimpleRead(files: Files, st: State, s: Stmt, rest: string, nest: nat, es: seq<Effect>)
      returns (st': State)
    requires nest <= MAX_NEST_LEVEL && GoodStmt(s) && Shows(st.cfg, es)
    requires !s.LabelIs? && !s.Included? && !s.MenuIncluded?
    ensures ParseFile(files, st, StmtText(s) + rest, nest) == ParseFile(files, st', rest, nest)
    ensures Shows(st'.cfg, es + Does(s, false))
  {
    hide Statement, ParseFile, Shows, Line, MenuLine, GetToken, Updated;
    match s {
      case TitleIs(v) => st' := MenuRead(files, st, TitleWord, v, rest, nest, es);
      case BackgroundIs(v) => st' := MenuRead(files, st, BackgroundWord, v, rest, nest, es);
      case TimeoutIs(v) => st' := SettingRead(files, st, TimeoutWord, TimeoutTopic, v, rest, nest, es);
      case PromptIs(v) => st' := SettingRead(files, st, PromptWord, PromptTopic, v, rest, nest, es);
      case DefaultIs(v) => st' := SettingRead(files, st, DefaultWord, DefaultTopic, v, rest, nest, es);
      case OntimeoutIs(v) => st' := SettingRead(files, st, OntimeoutWord, DefaultTopic, v, rest, nest, es);
      case Comment(text) =>
        st' := st;
        CommentRead(files, st, text, rest, nest);
        assert es + [] == es;
      case Unknown(word, v) =>
        st' := st;
        UnknownStatement(files, st, word, v, rest, nest);
        FileGoesOn(files, st, StmtText(s) + rest, st, rest, nest);
        assert es + [] == es;
    }
  }

  lemma {:induction false} SettingRead(files: Files, st: State, w: Word, topic: Topic, v: string, rest: string,
                                       nest: nat, es: seq<Effect>)
      returns (st': State)
    requires nest <= MAX_NEST_LEVEL && GoodValue(v) && Shows(st.cfg, es)
    requires (w == TimeoutWord && topic == TimeoutTopic) || (w == PromptWord && topic == PromptTopic)
             || (w in {DefaultWord, OntimeoutWord} && topic == DefaultTopic)
    ensures ParseFile(files, st, Line(w, v) + rest, nest) == ParseFile(files, st', rest, nest)
    ensures Shows(st'.cfg, es + [Sets(topic, v)])
  {
    hide Statement, ParseFile, Shows, Line, Updated, Setting, Meaning;
    LineStatement(files, st, w, v, rest, nest);
    SettingIs(st, w, v, rest);
    st' := Statement(files, st, Line(w, v) + rest, nest).st;
    FileGoesOn(files, st, Line(w, v) + rest, st', rest, nest);
    ShowsSets(st.cfg, es, topic, v);
  }

  lemma {:induction false} MenuRead(files: Files, st: State, w: Word, v: string, rest: string, nest: nat,
                                    es: seq<Effect>)
      returns (st': State)
    requires nest <= MAX_NEST_LEVEL && GoodValue(v) && Shows(st.cfg, es) && (w == TitleWord || w == BackgroundWord)
    ensures ParseFile(files, st, MenuLine(w, v) + rest, nest) == ParseFile(files, st', rest, nest)
    ensures var topic := if w == TitleWord then TitleTopic else BackgroundTopic;
            Shows(st'.cfg, es + [Sets(PromptTopic, "1"), Sets(topic, v)])
  {
    hide Statement, ParseFile, Shows, MenuLine;
    var topic := if w == TitleWord then TitleTopic else BackgroundTopic;
    MenuStatementIs(files, st, w, v, rest, nest);
    st' := Statement(files, st, MenuLine(w, v) + rest, nest).st;
    FileGoesOn(files, st, MenuLine(w, v) + rest, st', rest, nest);
    OneIsOne();
    ShowsSets(st.cfg, es, PromptTopic, "1");
    ShowsSets(st.cfg.(prompt := 1), es + [Sets(PromptTopic, "1")], topic, v);
    assert es + [Sets(PromptTopic, "1")] + [Sets(topic, v)] == es + [Sets(PromptTopic, "1"), Sets(topic, v)];
  }

  lemma {:induction false} CommentRead(files: Files, st: State, text: string, rest: string, nest: nat)
    requires nest <= MAX_NEST_LEVEL && OneLine(text)
    ensures ParseFile(files, st, "#" + text + "\n" + rest, nest) == ParseFile(files, st, rest, nest)
  {
    hide GetToken;
    RemarkToken(text, rest);
  }

  // ---------------------------------------------------------------- includes

  /** What an include leaves: the menu as the named file makes it, at the end of the include's line. */
  function Merged(r: Result<State, Error>, rest: string): Step {
    match r
    case Err(error) => Failed(error)
    case Ok(st) => Going(st, rest)
  }

  lemma {:induction false} HandleIncludeIs(files: Files, st: State, path: string, rest: string, nest: nat)
    requires nest <= MAX_NEST_LEVEL + 1 && GoodValue(path) && path in files
    ensures HandleInclude(files, st, " " + path + "\n" + rest, nest)
            == Merged(ParseFile(files, st, files[path], nest), "\n" + rest)
  {
    hide GetToken, ParseFile;
    LiteralToken(path, rest);
  }

  lemma {:induction false} IncludeUnfolds(files: Files, st: State, s: string, rest: string, nest: nat)
    requires nest <= MAX_NEST_LEVEL && GetToken(s, Keyword) == (Include, At(rest))
    ensures Statement(files, st, s, nest) == HandleInclude(files, st, rest, nest + 1)
  {
    hide GetToken, HandleInclude, MenuStatement, Setting, ParseLabel;
  }

  lemma {:induction false} MenuIncludeUnfolds(files: Files, st: State, s: string, tail: string, rest: string, nest: nat)
    requires nest <= MAX_NEST_LEVEL
    requires GetToken(s, Keyword) == (Menu, At(tail)) && GetToken(tail, Keyword) == (Include, At(rest))
    ensures Statement(files, st, s, nest)
            == match HandleInclude(files, st.(cfg := st.cfg.(prompt := 1)), rest, nest + 1)
               case Going(st', r) => Going(st', SkipLine(r))
               case Failed(error) => Failed(error)
  {
    hide GetToken, HandleInclude, Setting, ParseLabel, SkipLine;
  }

  lemma {:induction false} IncludeWordRead(path: CString, rest: string)
    ensures GetToken(Line(IncludeWord, path) + rest, Keyword) == (Include, At(" " + path + "\n" + rest))
  {
    hide GetToken;
    var value := " " + path + "\n" + rest;
    assert Line(IncludeWord, path) + rest == Spelling(IncludeWord) + value;
    KeywordToken(IncludeWord, value);
  }

  /** An include of a file that is not there fails the parse. */
  lemma {:induction false} IncludeMissing(files: Files, st: State, path: string, rest: string, nest: nat)
    requires nest <= MAX_NEST_LEVEL && GoodValue(path) && path !in files
    ensures Statement(files, st, Line(IncludeWord, path) + rest, nest) == Failed(NoFile)
  {
    hide GetToken, ParseFile, Statement, Line;
    var value := " " + path + "\n" + rest;
    IncludeWordRead(path, rest);
    IncludeUnfolds(files, st, Line(IncludeWord, path) + rest, value, nest);
    LiteralToken(path, rest);
  }

  lemma {:induction false} IncludeStatement(files: Files, st: State, path: string, rest: string, nest: nat)
    requires nest <= MAX_NEST_LEVEL && GoodValue(path) && path in files
    ensures Statement(files, st, Line(IncludeWord, path) + rest, nest)
            == Merged(ParseFile(files, st, files[path], nest + 1), "\n" + rest)
  {
    hide GetToken, ParseFile, HandleInclude, Statement, Line;
    IncludeWordRead(path, rest);
    IncludeUnfolds(files, st, Line(IncludeWord, path) + rest, " " + path + "\n" + rest, nest);
    HandleIncludeIs(files, st, path, rest, nest + 1);
  }

  lemma {:induction false} MenuIncludeStatement(files: Files, st: State, path: string, rest: string, nest: nat)
    requires nest <= MAX_NEST_LEVEL && GoodValue(path) && path in files
    ensures Statement(files, st, MenuLine(IncludeWord, path) + rest, nest)
            == Merged(ParseFile(files, st.(cfg := st.cfg.(prompt := 1)), files[path], nest + 1), "\n" + rest)
  {
    hide GetToken, SkipLine, MenuLine, ParseFile, HandleInclude, Statement;
    var value := " " + path + "\n" + rest;
    var tail := " " + (Spelling(IncludeWord) + value);
    MenuLineIs(IncludeWord, path, rest);
    MenuWords(IncludeWord, value);
    MenuIncludeUnfolds(files, st, "menu" + tail, tail, value, nest);
    HandleIncludeIs(files, st.(cfg := st.cfg.(prompt := 1)), path, rest, nest + 1);
    LineEndStays(rest);
  }

  /** The parse goes on with that menu, or fails as the file does. */
  lemma {:induction false} FileMerges(files: Files, st: State, s: string, r: Result<State, Error>, rest: string,
      nest: nat)
    requires nest <= MAX_NEST_LEVEL && Statement(files, st, s, nest) == Merged(r, "\n" + rest)
    ensures ParseFile(files, st, s, nest)
            == match r
               case Err(error) => Err(error)
               case Ok(st') => ParseFile(files, st', rest, nest)
  {
    hide Statement;
    if r.Ok? { FileLineEnd(files, r.value, rest, nest); }
  }

  // ---------------------------------------------------------------- labels

  /** The lines at the start of a file that an open label swallows, and the rest of the file. */
  function Trailing(m: Listing): seq<Field> {
    if m.NoMore? || Swallowed(m.head).None? then [] else [Swallowed(m.head).value] + Trailing(m.tail)
  }

  function Beyond(m: Listing): Listing {
    if m.NoMore? || Swallowed(m.head).None? then m else Beyond(m.tail)
  }

  function Size(m: Listing): nat {
    if m.NoMore? then 0 else 1 + SizeOf(m.head) + Size(m.tail)
  }

  function SizeOf(s: Stmt): nat {
    if s.Included? || s.MenuIncluded? then Size(s.body) else 0
  }

  predicate AllStray(fs: seq<Field>) {
    forall i :: 0 <= i < |fs| ==> fs[i].Stray?
  }

  lemma {:induction false} SwallowedText(s: Stmt)
    requires GoodStmt(s) && Swallowed(s).Some?
    ensures Swallowed(s).value.Stray? && Writable(Swallowed(s).value) && Written(Swallowed(s).value) == StmtText(s)
  {
    hide Line, MenuLine;
  }

  /** The text of a file is that of its swallowed lines and of the rest. */
  lemma {:induction false} Absorbed(files: Files, m: Listing)
    requires Good(m) && Provides(files, m)
    ensures AllStray(Trailing(m)) && AllWritable(Trailing(m))
    ensures Good(Beyond(m)) && Provides(files, Beyond(m)) && Size(Beyond(m)) <= Size(m)
    ensures Text(m) == WrittenAll(Trailing(m)) + Text(Beyond(m))
    ensures Effects(m, true) == Effects(Beyond(m), false) && Depth(m, true) == Depth(Beyond(m), false)
    ensures LabelEnds(Text(Beyond(m)))
  {
    hide *;
    if m.NoMore? || Swallowed(m.head).None? {
      EndsLabel(m);
      OpenMatters(m);
      NothingTrails(m);
      WrittenNothing();
      assert "" + Text(m) == Text(m);
    } else {
      var f := Swallowed(m.head).value;
      Unfolds(files, m);
      SwallowedText(m.head);
      OneTrails(m);
      Absorbed(files, m.tail);
      WrittenCons(f, Trailing(m.tail));
      StrayCons(f, Trailing(m.tail));
      assert Written(f) + (WrittenAll(Trailing(m.tail)) + Text(Beyond(m.tail)))
          == Written(f) + WrittenAll(Trailing(m.tail)) + Text(Beyond(m.tail));
    }
  }

  lemma {:induction false} NothingTrails(m: Listing)
    requires m.NoMore? || Swallowed(m.head).None?
    ensures Trailing(m) == [] && Beyond(m) == m && AllStray([]) && AllWritable([])
  {
  }

  lemma {:induction false} OneTrails(m: Listing)
    requires m.Then? && Swallowed(m.head).Some?
    ensures Trailing(m) == [Swallowed(m.head).value] + Trailing(m.tail) && Beyond(m) == Beyond(m.tail)
    ensures Effects(m, true) == Effects(m.tail, true) && Depth(m, true) == Depth(m.tail, true)
  {
    assert [] + Effects(m.tail, true) == Effects(m.tail, true);
  }

  lemma {:induction false} StrayCons(f: Field, fs: seq<Field>)
    requires f.Stray? && AllStray(fs)
    ensures AllStray([f] + fs)
  {
  }

  lemma {:induction false} OpenMatters(m: Listing)
    requires m.NoMore? || Swallowed(m.head).None?
    ensures Effects(m, true) == Effects(m, false) && Depth(m, true) == Depth(m, false)
  {
  }

  /** Such a file starts with a token that ends a label. */
  lemma {:induction false} EndsLabel(m: Listing)
    requires Good(m) && (m.NoMore? || Swallowed(m.head).None?)
    ensures LabelEnds(Text(m))
  {
    hide GetToken, Text;
    if m.NoMore? {
      NoText();
      EndTokenIff("", Keyword);
    } else {
      TextIs(m);
      FirstToken(m.head, Text(m.tail));
    }
  }

  lemma {:induction false} NoText()
    ensures Text(NoMore) == "" && AtEnd("")
  {
  }

  lemma {:induction false} TextIs(m: Listing)
    requires Good(m) && m.Then?
    ensures Text(m) == StmtText(m.head) + Text(m.tail)
  {
  }

  lemma {:induction false} FirstToken(s: Stmt, rest: string)
    requires GoodStmt(s) && Swallowed(s).None?
    ensures !Handled(GetToken(StmtText(s) + rest, Keyword).0)
  {
    hide GetToken, Line, WrittenSpec;
    match s {
      case Unknown(word, v) => UnknownToken(word, v, rest);
      case LabelIs(sp) => SpecToken(sp, rest);
      case TimeoutIs(v) => LineToken(TimeoutWord, v, rest);
      case PromptIs(v) => LineToken(PromptWord, v, rest);
      case DefaultIs(v) => LineToken(DefaultWord, v, rest);
      case OntimeoutIs(v) => LineToken(OntimeoutWord, v, rest);
      case Included(path, _) => LineToken(IncludeWord, path, rest);
    }
  }

  lemma {:induction false} UnknownToken(word: string, v: string, rest: string)
    requires GoodStmt(Unknown(word, v))
    ensures !Handled(GetToken(word + (" " + v + "\n") + rest, Keyword).0)
  {
    hide GetToken, Lookup;
    assert word + (" " + v + "\n") + rest == word + (" " + v + "\n" + rest);
    PlainToken(word, " " + v + "\n" + rest);
    LookupExact(word);
  }

  lemma {:induction false} SpecToken(sp: Spec, rest: string)
    requires GoodSpec(sp)
    ensures !Handled(GetToken(WrittenSpec(sp) + rest, Keyword).0)
  {
    hide GetToken, Line, WrittenAll;
    var more := WrittenAll(sp.fields) + rest;
    assert WrittenSpec(sp) + rest == Line(LabelWord, sp.name) + more;
    LineToken(LabelWord, sp.name, more);
  }

  lemma {:induction false} LineToken(w: Word, v: CString, rest: string)
    ensures GetToken(Line(w, v) + rest, Keyword).0 == Meaning(w)
  {
    hide GetToken, Spelling, Meaning;
    assert Line(w, v) + rest == Spelling(w) + (" " + v + "\n" + rest);
    KeywordToken(w, " " + v + "\n" + rest);
  }

  lemma {:induction false} WrittenConcat(a: seq<Field>, b: seq<Field>)
    requires AllWritable(a) && AllWritable(b)
    ensures AllWritable(a + b) && WrittenAll(a + b) == WrittenAll(a) + WrittenAll(b)
  {
    hide Written, Writable, WrittenAll;
    if a == [] {
      assert a + b == b;
      WrittenNothing();
    } else {
      var f, tail := a[0], a[1..];
      assert a == [f] + tail && a + b == [f] + (tail + b);
      WrittenConcat(tail, b);
      WrittenCons(f, tail);
      WrittenCons(f, tail + b);
      assert Written(f) + (WrittenAll(tail) + WrittenAll(b)) == Written(f) + WrittenAll(tail) + WrittenAll(b);
    }
  }

  lemma {:induction false} WrittenNothing()
    ensures WrittenAll([]) == ""
  {
  }

  lemma {:induction false} WrittenCons(f: Field, fs: seq<Field>)
    requires Writable(f) && AllWritable(fs)
    ensures AllWritable([f] + fs) && WrittenAll([f] + fs) == Written(f) + WrittenAll(fs)
  {
    hide Written, Writable;
    assert ([f] + fs)[1..] == fs;
  }

  lemma {:induction false} StraysDoNothing(fs: seq<Field>, strays: seq<Field>)
    requires AllStray(strays)
    ensures ValuesOf(fs + strays) == ValuesOf(fs)
    ensures MenuMark in fs + strays <==> MenuMark in fs
    decreases |strays|
  {
    hide ValuesOf;
    if strays == [] {
      assert fs + strays == fs;
    } else {
      var n := |strays| - 1;
      StraysDoNothing(fs, strays[..n]);
      ValuesSnoc(fs + strays[..n], strays[n]);
      assert fs + strays == fs + strays[..n] + [strays[n]];
    }
  }

  lemma {:induction false} StraysFit(sp: Spec, strays: seq<Field>)
    requires GoodSpec(sp) && AllStray(strays) && AllWritable(strays)
    ensures GoodSpec(Spec(sp.name, sp.fields + strays))
  {
    hide Slot, Writable;
    var fs := sp.fields + strays;
    forall i, j | 0 <= i < j < |fs| ensures fs[i].Stray? || Slot(fs[i]) != Slot(fs[j]) {
      OnlyStrays(fs[i]);
      OnlyStrays(fs[j]);
    }
  }

  /** A label, with the lines it swallows, is read into an entry that holds exactly its own lines. */
  lemma {:induction false} LabelRead(files: Files, st: State, sp: Spec, tail: Listing, nest: nat, es: seq<Effect>)
      returns (st': State)
    requires nest <= MAX_NEST_LEVEL && GoodSpec(sp) && Good(tail) && Provides(files, tail) && Shows(st.cfg, es)
    ensures Good(Beyond(tail)) && Shows(st'.cfg, es + [Lists(sp)])
    ensures ParseFile(files, st, WrittenSpec(sp) + Text(tail), nest)
            == ParseFile(files, st', Text(Beyond(tail)), nest)
  {
    hide *;
    Absorbed(files, tail);
    var strays, rest := Trailing(tail), Text(Beyond(tail));
    var full := Spec(sp.name, sp.fields + strays);
    GoodFields(sp);
    StraysFit(sp, strays);
    StraysDoNothing(sp.fields, strays);
    var e := SpecRead(files, st, full, rest, nest);
    FullText(sp, strays, rest);
    HoldsSame(e, sp.name, full.fields, sp.fields);
    st' := Statement(files, st, WrittenSpec(full) + rest, nest).st;
    FileStep(files, st, WrittenSpec(full) + rest, nest);
    ShowsLabel(st.cfg, es, e, sp);
  }

  lemma {:induction false} FileStep(files: Files, st: State, s: string, nest: nat)
    requires nest <= MAX_NEST_LEVEL && Statement(files, st, s, nest).Going?
    ensures var step := Statement(files, st, s, nest);
            ParseFile(files, st, s, nest) == ParseFile(files, step.st, step.rest, nest)
  {
    hide Statement;
  }

  lemma {:induction false} FullText(sp: Spec, strays: seq<Field>, rest: string)
    requires GoodSpec(sp) && AllWritable(strays) && GoodSpec(Spec(sp.name, sp.fields + strays))
    ensures WrittenSpec(Spec(sp.name, sp.fields + strays)) + rest == WrittenSpec(sp) + (WrittenAll(strays) + rest)
  {
    hide WrittenAll, Line, DistinctSlots;
    WrittenConcat(sp.fields, strays);
  }

  lemma {:induction false} GoodFields(sp: Spec)
    requires GoodSpec(sp)
    ensures AllWritable(sp.fields)
  {
  }

  lemma {:induction false} HoldsSame(e: Entry, name: string, a: seq<Field>, b: seq<Field>)
    requires Holds(e, name, a) && ValuesOf(a) == ValuesOf(b)
    ensures Holds(e, name, b)
  {
  }

  // ---------------------------------------------------------------- whole menus

  /** A file at nesting level `nest` is read into the menu its statements describe if its includes
    * stay within level 16, and is refused as too deep otherwise. */
  lemma {:induction false} FileRead(files: Files, st: State, m: Listing, nest: nat, es: seq<Effect>)
      returns (st': State)
    requires nest <= MAX_NEST_LEVEL + 1 && Good(m) && Provides(files, m) && Shows(st.cfg, es)
    ensures nest + Depth(m, false) <= 16 ==>
              ParseFile(files, st, Text(m), nest) == Ok(st') && Shows(st'.cfg, es + Effects(m, false))
    ensures nest + Depth(m, false) > 16 ==> ParseFile(files, st, Text(m), nest) == Err(TooDeep)
    decreases Size(m)
  {
    hide *;
    st' := st;
    if nest > MAX_NEST_LEVEL {
      TooDeepAtOnce(files, st, Text(m), nest);
      LimitIs16();
    } else if m.NoMore? {
      NoMoreMeans();
      NoText();
      EmptyFile(files, st, nest);
      LimitIs16();
      assert es + [] == es;
    } else if m.head.LabelIs? {
      st' := LabelFirst(files, st, m, nest, es);
    } else if m.head.Included? || m.head.MenuIncluded? {
      st' := IncludeFirst(files, st, m, nest, es);
    } else {
      var s, t := m.head, m.tail;
      Unfolds(files, m);
      SimpleDepth(s);
      var st1 := SimpleRead(files, st, s, Text(t), nest, es);
      st' := FileRead(files, st1, t, nest, es + Does(s, false));
      assert es + Does(s, false) + Effects(t, false) == es + (Does(s, false) + Effects(t, false));
    }
  }

  lemma {:induction false} LimitIs16()
    ensures MAX_NEST_LEVEL == 16
  {
  }

  lemma {:induction false} NoMoreMeans()
    ensures Effects(NoMore, false) == [] && Depth(NoMore, false) == 0
  {
  }

  /** A file is its first statement and the rest. */
  lemma {:induction false} Unfolds(files: Files, m: Listing)
    requires m.Then? && Good(m) && Provides(files, m)
    ensures GoodStmt(m.head) && Good(m.tail) && ProvidesFor(files, m.head) && Provides(files, m.tail)
    ensures Text(m) == StmtText(m.head) + Text(m.tail)
    ensures var open := LeavesOpen(m.head, false);
            && Effects(m, false) == Does(m.head, false) + Effects(m.tail, open)
            && Depth(m, false) >= DepthOf(m.head, false) && Depth(m, false) >= Depth(m.tail, open)
            && (Depth(m, false) == DepthOf(m.head, false) || Depth(m, false) == Depth(m.tail, open))
    ensures Size(m) == 1 + SizeOf(m.head) + Size(m.tail)
  {
    hide StmtText, GoodStmt, ProvidesFor, Does, DepthOf, LeavesOpen;
  }

  lemma {:induction false} TooDeepAtOnce(files: Files, st: State, s: string, nest: nat)
    requires nest == MAX_NEST_LEVEL + 1
    ensures ParseFile(files, st, s, nest) == Err(TooDeep)
  {
  }

  lemma {:induction false} EmptyFile(files: Files, st: State, nest: nat)
    requires nest <= MAX_NEST_LEVEL
    ensures ParseFile(files, st, "", nest) == Ok(st)
  {
    hide GetToken;
    NoText();
    EndTokenIff("", Keyword);
  }

  lemma {:induction false} SimpleDepth(s: Stmt)
    requires !s.Included? && !s.MenuIncluded?
    ensures DepthOf(s, false) == 0 && (!s.LabelIs? ==> !LeavesOpen(s, false))
  {
  }

  lemma {:induction false} LabelFirst(files: Files, st: State, m: Listing, nest: nat, es: seq<Effect>)
      returns (st': State)
    requires nest <= MAX_NEST_LEVEL && Good(m) && Provides(files, m) && Shows(st.cfg, es)
    requires m.Then? && m.head.LabelIs?
    ensures nest + Depth(m, false) <= 16 ==>
              ParseFile(files, st, Text(m), nest) == Ok(st') && Shows(st'.cfg, es + Effects(m, false))
    ensures nest + Depth(m, false) > 16 ==> ParseFile(files, st, Text(m), nest) == Err(TooDeep)
    decreases Size(m), 0
  {
    hide *;
    var sp, t := m.head.sp, m.tail;
    Unfolds(files, m);
    LabelMeans(m.head);
    Absorbed(files, t);
    var st1 := LabelRead(files, st, sp, t, nest, es);
    st' := FileRead(files, st1, Beyond(t), nest, es + [Lists(sp)]);
    assert es + [Lists(sp)] + Effects(t, true) == es + ([Lists(sp)] + Effects(t, true));
  }

  lemma {:induction false} IncludeFirst(files: Files, st: State, m: Listing, nest: nat, es: seq<Effect>)
      returns (st': State)
    requires nest <= MAX_NEST_LEVEL && Good(m) && Provides(files, m) && Shows(st.cfg, es)
    requires m.Then? && (m.head.Included? || m.head.MenuIncluded?)
    ensures nest + Depth(m, false) <= 16 ==>
              ParseFile(files, st, Text(m), nest) == Ok(st') && Shows(st'.cfg, es + Effects(m, false))
    ensures nest + Depth(m, false) > 16 ==> ParseFile(files, st, Text(m), nest) == Err(TooDeep)
    decreases Size(m), 0
  {
    hide *;
    var s, t := m.head, m.tail;
    Unfolds(files, m);
    IncludeMeans(files, s);
    var shown := if s.Included? then st else st.(cfg := st.cfg.(prompt := 1));
    var es1 := if s.Included? then es else es + [Sets(PromptTopic, "1")];
    if s.Included? {
      IncludeStatement(files, st, s.path, Text(t), nest);
    } else {
      MenuIncludeStatement(files, st, s.path, Text(t), nest);
      ShownFirst(st.cfg, es);
    }
    FileMerges(files, st, Text(m), ParseFile(files, shown, Text(s.body), nest + 1), Text(t), nest);
    var st1 := FileRead(files, shown, s.body, nest + 1, es1);
    st' := st;
    if nest + 1 + Depth(s.body, false) <= 16 {
      var inner, later := Effects(s.body, false), Effects(t, false);
      st' := FileRead(files, st1, t, nest, es1 + inner);
      assert es1 + inner + later == es + (Does(s, false) + later);
    }
  }

  lemma {:induction false} LabelMeans(s: Stmt)
    requires s.LabelIs? && GoodStmt(s)
    ensures GoodSpec(s.sp) && StmtText(s) == WrittenSpec(s.sp) && Does(s, false) == [Lists(s.sp)]
    ensures DepthOf(s, false) == 0 && LeavesOpen(s, false) && SizeOf(s) == 0
  {
  }

  lemma {:induction false} IncludeMeans(files: Files, s: Stmt)
    requires (s.Included? || s.MenuIncluded?) && GoodStmt(s) && ProvidesFor(files, s)
    ensures GoodValue(s.path) && Good(s.body) && s.path in files && files[s.path] == Text(s.body)
    ensures Provides(files, s.body) && SizeOf(s) == Size(s.body) && !LeavesOpen(s, false)
    ensures DepthOf(s, false) == 1 + Depth(s.body, false)
    ensures Does(s, false)
            == (if s.Included? then [] else [Sets(PromptTopic, "1")]) + Effects(s.body, false)
    ensures StmtText(s) == if s.Included? then Line(IncludeWord, s.path) else MenuLine(IncludeWord, s.path)
  {
    hide Effects, Depth, Text, Provides, Size, Good, Line, MenuLine;
  }

  lemma {:induction false} ShownFirst(cfg: Config, es: seq<Effect>)
    requires Shows(cfg, es)
    ensures Shows(cfg.(prompt := 1), es + [Sets(PromptTopic, "1")])
  {
    hide Shows;
    OneIsOne();
    ShowsSets(cfg, es, PromptTopic, "1");
  }

  /** For every menu of well-formed statements, included files and all: parsing its text gives
    * exactly the menu the statements describe if includes are nested no deeper than fifteen, and
    * fails as too deep otherwise. */
  lemma {:induction false} RoundTrip(files: Files, m: Listing)
    requires Good(m) && Provides(files, m)
    ensures Depth(m, false) <= 15 ==>
              Parse(files, Text(m)).Ok? && Shows(Parse(files, Text(m)).value.cfg, Effects(m, false))
    ensures Depth(m, false) > 15 ==> Parse(files, Text(m)) == Err(TooDeep)
  {
    hide ParseFile, Shows;
    NothingShown();
    var st := FileRead(files, State(EMPTY, []), m, 1, []);
    assert [] + Effects(m, false) == Effects(m, false);
  }

  lemma {:induction false} NothingShown()
    ensures Shows(EMPTY, [])
  {
  }
}
