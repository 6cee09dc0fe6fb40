/** What holds for every menu file: the default label, and reading within the text. */
module PxeProofs {
  import opened CStrings
  import opened Results
  import opened PxeLexer
  import opened PxeParser
  import opened PxeTokens

  // ---------------------------------------------------------------- the default label

  function LastSet(log: seq<Event>): Option<string> {
    if log == [] then None
    else
      var e := log[|log| - 1];
      if e.SetDefault? then Some(e.name) else LastSet(log[..|log| - 1])
  }

  function FirstMenu(log: seq<Event>): Option<string> {
    if log == [] then None
    else
      var before, e := FirstMenu(log[..|log| - 1]), log[|log| - 1];
      if before.Some? then before else if e.MenuDefault? then Some(e.name) else None
  }

  /** The last default set outside a label, or else the first label marked as default. */
  function DefaultOf(log: seq<Event>): Option<string> {
    if LastSet(log).Some? then LastSet(log) else FirstMenu(log)
  }

  lemma {:induction false} DefaultSnoc(log: seq<Event>, e: Event)
    ensures DefaultOf(log + [e])
            == if e.SetDefault? then Some(e.name)
               else if DefaultOf(log).Some? then DefaultOf(log) else Some(e.name)
  {
    assert (log + [e])[..|log|] == log;
  }

  predicate Settled(st: State) {
    st.cfg.defaultLabel == DefaultOf(st.log)
  }

  lemma {:induction false} LabelSettles(e: Entry, d: Option<string>, log: seq<Event>, s: string)
    requires d == DefaultOf(log)
    ensures var r := LabelBody(e, d, log, s); r.Ok? ==> r.value.d == DefaultOf(r.value.log)
    decreases |s|
  {
    hide GetToken, Stored, DefaultOf;
    match LabelTurn(e, d, s)
    case Stop =>
    case Fail(_) =>
    case Next(e', d', more, rest) =>
      assert more == [] ==> log + more == log;
      if more != [] { DefaultSnoc(log, more[0]); }
      LabelSettles(e', d', log + more, rest);
  }

  /** Every file that parses leaves the default label its events call for, includes included. */
  lemma {:induction false} FileSettles(files: Files, st: State, s: string, nest: nat)
    requires nest <= MAX_NEST_LEVEL + 1 && Settled(st)
    ensures var r := ParseFile(files, st, s, nest); r.Ok? ==> Settled(r.value)
    decreases MAX_NEST_LEVEL + 1 - nest, 0, |s|, 2
  {
    hide Statement;
    if nest <= MAX_NEST_LEVEL {
      StatementSettles(files, st, s, nest);
      var step := Statement(files, st, s, nest);
      if step.Going? { FileSettles(files, step.st, step.rest, nest); }
    }
  }

  lemma {:induction false} StatementSettles(files: Files, st: State, s: string, nest: nat)
    requires nest <= MAX_NEST_LEVEL && Settled(st)
    ensures var r := Statement(files, st, s, nest); r.Going? ==> Settled(r.st)
    decreases MAX_NEST_LEVEL + 1 - nest, 0, |s|, 1
  {
    hide GetToken, DefaultOf, HandleInclude, MenuStatement, ParseLabel, Setting;
    var (t, c) := GetToken(s, Keyword);
    if t == Menu {
      MenuSettles(files, st.(cfg := st.cfg.(prompt := 1)), c.rest, nest);
    } else if t == Include {
      IncludeSettles(files, st, c.rest, nest + 1);
    } else if t == Label {
      ParseLabelSettles(st, c.rest);
    } else if IsSetting(t) {
      SettingSettles(st, c.rest, t);
    }
  }

  lemma {:induction false} ParseLabelSettles(st: State, s: string)
    requires Settled(st)
    ensures ParseLabel(st, s).Going? ==> Settled(ParseLabel(st, s).st)
  {
    hide DefaultOf, LabelBody, ParseLiteral;
    var (name, c) := ParseLiteral(s);
    if name.Some? { LabelSettles(NewEntry(name.value), st.cfg.defaultLabel, st.log, c.rest); }
  }

  lemma {:induction false} SettingSettles(st: State, s: string, t: Token)
    requires Settled(st)
    ensures Setting(st, s, t).Going? ==> Settled(Setting(st, s, t).st)
  {
    hide DefaultOf, ParseLiteral, SetDefaultLabel;
    SetSettles(st, s);
  }

  lemma {:induction false} SetSettles(st: State, s: string)
    ensures SetDefaultLabel(st, s).Going? ==> Settled(SetDefaultLabel(st, s).st)
  {
    var (v, c) := ParseLiteral(s);
    if v.Some? { DefaultSnoc(st.log, SetDefault(v.value)); }
  }

  lemma {:induction false} MenuSettles(files: Files, st: State, s: string, nest: nat)
    requires nest <= MAX_NEST_LEVEL && Settled(st)
    ensures var r := MenuStatement(files, st, s, nest); r.Going? ==> Settled(r.st)
    decreases MAX_NEST_LEVEL + 1 - nest, 0, |s|, 0
  {
    hide GetToken, DefaultOf, HandleInclude;
    var (t, c) := GetToken(s, Keyword);
    if t == Include { IncludeSettles(files, st, c.rest, nest + 1); }
  }

  lemma {:induction false} IncludeSettles(files: Files, st: State, s: string, nest: nat)
    requires nest <= MAX_NEST_LEVEL + 1 && Settled(st)
    ensures var r := HandleInclude(files, st, s, nest); r.Going? ==> Settled(r.st)
    decreases MAX_NEST_LEVEL + 1 - nest, 1, 0, 0
  {
    hide GetToken, DefaultOf, ParseFile;
    var (path, c) := ParseLiteral(s);
    if path.Some? && path.value in files { FileSettles(files, st, files[path.value], nest); }
  }

  /** For every menu that parses: the default label is the last default or timeout label given
    * outside the labels, or else the first label marked as default, or else unset. */
  lemma {:induction false} DefaultLabelLaw(files: Files, text: CString)
    ensures Parse(files, text).Ok? ==>
              Parse(files, text).value.cfg.defaultLabel == DefaultOf(Parse(files, text).value.log)
  {
    hide ParseFile;
    FileSettles(files, State(EMPTY, []), text, 1);
  }

  // ---------------------------------------------------------------- never past the terminator

  /** Every line ends with a line end. */
  predicate Terminated(s: string) {
    s != "" ==> s[|s| - 1] == '\n'
  }

  predicate AllTerminated(files: Files) {
    forall path :: path in files ==> Terminated(files[path])
  }

  lemma {:induction false} SkipBlanksKeeps(s: string)
    requires Terminated(s) && s != ""
    ensures SkipBlanks(s) != "" && Terminated(SkipBlanks(s))
  {
    if IsBlank(s[0]) { SkipBlanksKeeps(s[1..]); }
  }

  lemma {:induction false} SkipLineKeeps(s: string)
    requires Terminated(s)
    ensures Terminated(SkipLine(s)) && (s != "" ==> SkipLine(s) != "")
  {
    if s != "" && s[0] != '\n' { SkipLineKeeps(s[1..]); }
  }

  /** In terminated text there is always a token before the end, and only a line end can be last. */
  lemma {:induction false} TokenKeeps(s: string, mode: Mode)
    requires Terminated(s)
    ensures s != "" ==> GetToken(s, mode).1.At?
    ensures s == "" ==> GetToken(s, mode).1.Past?
    ensures s != "" ==>
              && Terminated(GetToken(s, mode).1.rest)
              && (GetToken(s, mode).0 != Eol ==> GetToken(s, mode).1.rest != "")
  {
    hide Lookup, Split, SkipBlanks, SkipLine;
    if s != "" {
      SkipBlanksKeeps(s);
      SkipLineKeeps(SkipBlanks(s));
      var start := TokenStart(s);
      if start[0] != '\n' { SplitKeeps(start, mode); }
    }
  }

  lemma {:induction false} SplitKeeps(s: string, mode: Mode)
    requires Terminated(s) && s != ""
    ensures Split(s, mode).1 != "" && Terminated(Split(s, mode).1)
  {
    hide Split;
    var (word, rest) := Split(s, mode);
    assert Ends(mode, s[|s| - 1]);
    assert forall i :: 0 <= i < |word| ==> word[i] == s[i];
    assert |word| <= |s| - 1;
    assert rest[|rest| - 1] == s[|s| - 1];
  }

  lemma {:induction false} LiteralKeeps(s: string)
    requires Terminated(s) && s != ""
    ensures ParseLiteral(s).1.At? && Terminated(ParseLiteral(s).1.rest)
    ensures ParseLiteral(s).0.Some? ==> ParseLiteral(s).1.rest != ""
  {
    hide GetToken;
    TokenKeeps(s, Literal);
  }

  lemma {:induction false} LabelMenuKeeps(e: Entry, d: Option<string>, s: string)
    requires Terminated(s) && s != ""
    ensures var r := LabelMenu(e, d, s);
            r != Fail(Overrun) && (r.Next? ==> Terminated(r.rest))
  {
    hide GetToken, ParseLiteral;
    var (t, c) := GetToken(s, Keyword);
    TokenKeeps(s, Keyword);
    SkipLineKeeps(c.rest);
    if t == Label {
      LiteralKeeps(c.rest);
      SkipLineKeeps(ParseLiteral(c.rest).1.rest);
    }
  }

  lemma {:induction false} StoredKeeps(e: Entry, t: Token, v: string)
    ensures Stored(e, t, v) != Err(Overrun)
  {
  }

  lemma {:induction false} LabelTurnKeeps(e: Entry, d: Option<string>, s: string)
    requires Terminated(s)
    ensures var r := LabelTurn(e, d, s);
            r != Fail(Overrun) && (r.Next? ==> Terminated(r.rest))
  {
    hide GetToken, ParseLiteral, Stored, LabelMenu;
    var (t, c) := GetToken(s, Keyword);
    TokenKeeps(s, Keyword);
    if t == Menu {
      LabelMenuKeeps(e, d, c.rest);
    } else if TakesValue(t) {
      LiteralKeeps(c.rest);
      var v := ParseLiteral(c.rest).0;
      if v.Some? { StoredKeeps(e, t, v.value); }
    }
  }

  lemma {:induction false} LabelBodyKeeps(e: Entry, d: Option<string>, log: seq<Event>, s: string)
    requires Terminated(s)
    ensures var r := LabelBody(e, d, log, s);
            r != Err(Overrun) && (r.Ok? ==> Terminated(r.value.rest))
    decreases |s|
  {
    hide LabelTurn;
    LabelTurnKeeps(e, d, s);
    match LabelTurn(e, d, s)
    case Stop =>
    case Fail(_) =>
    case Next(e', d', more, rest) => LabelBodyKeeps(e', d', log + more, rest);
  }

  /** Parsing terminated files, with any includes, never reads past a terminator. */
  lemma {:induction false} FileKeeps(files: Files, st: State, s: string, nest: nat)
    requires nest <= MAX_NEST_LEVEL + 1 && AllTerminated(files) && Terminated(s)
    ensures ParseFile(files, st, s, nest) != Err(Overrun)
    decreases MAX_NEST_LEVEL + 1 - nest, 0, |s|, 2
  {
    hide Statement;
    if nest <= MAX_NEST_LEVEL {
      StatementKeeps(files, st, s, nest);
      var step := Statement(files, st, s, nest);
      if step.Going? { FileKeeps(files, step.st, step.rest, nest); }
    }
  }

  lemma {:induction false} StatementKeeps(files: Files, st: State, s: string, nest: nat)
    requires nest <= MAX_NEST_LEVEL && AllTerminated(files) && Terminated(s)
    ensures var r := Statement(files, st, s, nest);
            r != Failed(Overrun) && (r.Going? ==> Terminated(r.rest))
    decreases MAX_NEST_LEVEL + 1 - nest, 0, |s|, 1
  {
    hide GetToken, ParseLabel, Setting, HandleInclude, MenuStatement, SkipLine, Terminated, AllTerminated;
    var (t, c) := GetToken(s, Keyword);
    TokenKeeps(s, Keyword);
    if t == Menu {
      MenuKeeps(files, st.(cfg := st.cfg.(prompt := 1)), c.rest, nest);
    } else if t == Include {
      IncludeKeeps(files, st, c.rest, nest + 1);
    } else if t == Label {
      ParseLabelKeeps(st, c.rest);
    } else if IsSetting(t) {
      SettingKeeps(st, c.rest, t);
    } else if t != Eof && t != Eol {
      SkipLineKeeps(c.rest);
    }
  }

  lemma {:induction false} ParseLabelKeeps(st: State, s: string)
    requires Terminated(s) && s != ""
    ensures var r := ParseLabel(st, s); r != Failed(Overrun) && (r.Going? ==> Terminated(r.rest))
  {
    hide ParseLiteral, LabelBody, Terminated;
    LiteralKeeps(s);
    var (name, c) := ParseLiteral(s);
    if name.Some? { LabelBodyKeeps(NewEntry(name.value), st.cfg.defaultLabel, st.log, c.rest); }
  }

  lemma {:induction false} SettingKeeps(st: State, s: string, t: Token)
    requires Terminated(s) && s != ""
    ensures var r := Setting(st, s, t); r != Failed(Overrun) && (r.Going? ==> Terminated(r.rest))
  {
    hide ParseLiteral, Terminated, Integer;
    LiteralKeeps(s);
  }

  lemma {:induction false} MenuKeeps(files: Files, st: State, s: string, nest: nat)
    requires nest <= MAX_NEST_LEVEL && AllTerminated(files) && Terminated(s) && s != ""
    ensures var r := MenuStatement(files, st, s, nest);
            r != Failed(Overrun) && (r.Going? ==> Terminated(r.rest))
    decreases MAX_NEST_LEVEL + 1 - nest, 0, |s|, 0
  {
    hide GetToken, ParseLiteral, HandleInclude;
    var (t, c) := GetToken(s, Keyword);
    TokenKeeps(s, Keyword);
    SkipLineKeeps(c.rest);
    if t == Include {
      IncludeKeeps(files, st, c.rest, nest + 1);
      var step := HandleInclude(files, st, c.rest, nest + 1);
      if step.Going? { SkipLineKeeps(step.rest); }
    } else if t == Title || t == Background {
      LiteralKeeps(c.rest);
      SkipLineKeeps(ParseLiteral(c.rest).1.rest);
    }
  }

  lemma {:induction false} IncludeKeeps(files: Files, st: State, s: string, nest: nat)
    requires nest <= MAX_NEST_LEVEL + 1 && AllTerminated(files) && Terminated(s) && s != ""
    ensures var r := HandleInclude(files, st, s, nest);
            r != Failed(Overrun) && (r.Going? ==> Terminated(r.rest))
    decreases MAX_NEST_LEVEL + 1 - nest, 1, 0, 0
  {
    hide ParseLiteral, ParseFile;
    LiteralKeeps(s);
    var (path, c) := ParseLiteral(s);
    if path.Some? && path.value in files { FileKeeps(files, st, files[path.value], nest); }
  }

  /** A menu whose file and included files all end in a line end is read within its texts. */
  lemma {:induction false} ParseKeeps(files: Files, text: CString)
    requires AllTerminated(files) && Terminated(text)
    ensures Parse(files, text) != Err(Overrun)
  {
    hide ParseFile;
    FileKeeps(files, State(EMPTY, []), text, 1);
  }

  /** A last line without a line end can run over: a bare "prompt" does. */
  lemma {:induction false} UnterminatedOverruns(files: Files)
    ensures Parse(files, "prompt") == Err(Overrun)
  {
    hide GetToken;
    assert Spelling(PromptWord) + "" == "prompt";
    KeywordToken(PromptWord, "");
    NothingLeft();
    assert Statement(files, State(EMPTY, []), "prompt", 1) == Failed(Overrun);
  }

  lemma {:induction false} NothingLeft()
    ensures GetToken("", Literal) == (Eof, Past)
  {
  }
}
