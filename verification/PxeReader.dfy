/** The lexer and parser as code: a cursor moved through a text, and a menu updated in place. */
module PxeReader {
  import opened CStrings
  import opened Results
  import opened PxeLexer
  import opened PxeParser
  import opened PxeTokens

  /** The input seen from position `c`; one past the end is past the terminator. */
  function From(text: CString, c: nat): Cursor {
    if c <= |text| then At(text[c..]) else Past
  }

  // ---------------------------------------------------------------- lexer

  method EolOrEof(text: CString, c: nat) returns (c': nat)
    requires c <= |text|
    ensures c <= c' <= |text| && text[c'..] == SkipLine(text[c..])
  {
    c' := c;
    while c' < |text| && text[c'] != '\n'
      invariant c <= c' <= |text|
      invariant SkipLine(text[c'..]) == SkipLine(text[c..])
    {
      assert text[c'..][1..] == text[c' + 1..];
      c' := c' + 1;
    }
  }

  /** Copies the text up to the delimiter, in lower case for a keyword. */
  method GetString(text: CString, c: nat, mode: Mode) returns (val: string, c': nat)
    requires c <= |text|
    ensures c <= c' <= |text| && text[c'..] == Split(text[c..], mode).1
    ensures val == if mode == Keyword then Lowered(Split(text[c..], mode).0) else Split(text[c..], mode).0
  {
    hide Split, Lowered;
    c' := c;
    while c' < |text| && !Ends(mode, text[c'])
      invariant c <= c' <= |text|
      invariant forall j :: c <= j < c' ==> !Ends(mode, text[j])
    {
      c' := c' + 1;
    }
    assert text[c..] == text[c..c'] + text[c'..];
    SplitIs(text[c..c'], text[c'..], mode);
    val := "";
    LoweredSame("");
    for i := c to c'
      invariant val == if mode == Keyword then Lowered(text[c..i]) else text[c..i]
    {
      assert text[c..i + 1] == text[c..i] + [text[i]];
      LoweredSnoc(text[c..i], text[i]);
      val := val + [if mode == Keyword then Lower(text[i]) else text[i]];
    }
  }

  lemma {:induction false} LoweredSnoc(s: string, x: char)
    ensures Lowered(s + [x]) == Lowered(s) + [Lower(x)]
  {
    if s == "" {
      assert s + [x] == [x];
    } else {
      assert (s + [x])[1..] == s[1..] + [x];
      LoweredSnoc(s[1..], x);
    }
  }

  /** The meaning of a word of the language; any other text stands for itself. */
  method GetKeyword(val: string) returns (t: Token)
    ensures t == Lookup(val, 0)
    ensures forall w :: Spelling(w) == val ==> t == Meaning(w)
    ensures (forall w :: Spelling(w) != val) ==> t == Str(val)
  {
    hide Spelling, Meaning;
    LookupExact(val);
    var i := 0;
    while i < |KEYWORDS|
      invariant 0 <= i <= |KEYWORDS|
      invariant Lookup(val, i) == Lookup(val, 0)
    {
      if KEYWORDS[i].0 == val {
        return KEYWORDS[i].1;
      }
      i := i + 1;
    }
    return Str(val);
  }

  /** Moves over blanks and a comment. */
  method SkipToToken(text: CString, c: nat) returns (c': nat)
    requires c <= |text|
    ensures c <= c' <= |text| && text[c'..] == TokenStart(text[c..])
  {
    hide SkipLine;
    c' := c;
    while c' < |text| && IsBlank(text[c'])
      invariant c <= c' <= |text|
      invariant SkipBlanks(text[c'..]) == SkipBlanks(text[c..])
    {
      assert text[c'..][1..] == text[c' + 1..];
      c' := c' + 1;
    }
    assert SkipBlanks(text[c'..]) == text[c'..];
    if c' < |text| && text[c'] == '#' {
      c' := EolOrEof(text, c');
    }
  }

  method NextToken(text: CString, c: nat, mode: Mode) returns (t: Token, c': nat)
    requires c <= |text|
    ensures c <= c' <= |text| + 1 && (t, From(text, c')) == GetToken(text[c..], mode)
  {
    hide Lookup, Split, Lowered, TokenStart;
    c' := SkipToToken(text, c);
    if c' < |text| && text[c'] == '\n' {
      assert text[c'..][1..] == text[c' + 1..];
      return Eol, c' + 1;
    } else if c' == |text| {
      return Eof, c' + 1;
    }
    var val;
    val, c' := GetString(text, c', mode);
    if mode == Keyword {
      t := GetKeyword(val);
    } else {
      t := Str(val);
    }
  }

  method NextLiteral(text: CString, c: nat) returns (v: Option<string>, c': nat)
    requires c <= |text|
    ensures c <= c' <= |text| + 1 && (v, From(text, c')) == ParseLiteral(text[c..])
  {
    var t;
    t, c' := NextToken(text, c, Literal);
    v := if t.Str? then Some(t.val) else None;
  }

  // ---------------------------------------------------------------- parser

  function Block(files: Files, st: State, t: Token, s: string, nest: nat): (r: Step)
    requires nest <= MAX_NEST_LEVEL
    ensures r != Finished
  {
    if t == Menu then MenuStatement(files, st.(cfg := st.cfg.(prompt := 1)), s, nest)
    else if t == Label then ParseLabel(st, s)
    else HandleInclude(files, st, s, nest + 1)
  }

  lemma {:induction false} StatementIs(files: Files, st: State, s: string, nest: nat)
    requires nest <= MAX_NEST_LEVEL
    ensures var (t, c) := GetToken(s, Keyword);
            Statement(files, st, s, nest)
            == if t == Eof then Finished
               else if t == Eol then Going(st, c.rest)
               else if t == Menu || t == Label || t == Include then Block(files, st, t, c.rest, nest)
               else if IsSetting(t) then Setting(st, c.rest, t)
               else Going(st, SkipLine(c.rest))
  {
    hide GetToken, HandleInclude, MenuStatement, ParseLabel, Setting, SkipLine;
  }

  class MenuFile {
    var title: Option<string>
    var defaultLabel: Option<string>
    var bmp: Option<string>
    var timeout: int
    var prompt: int
    var labels: seq<Entry>
    ghost var log: seq<Event>

    constructor ()
      ensures View() == State(EMPTY, [])
    {
      title, defaultLabel, bmp, timeout, prompt, labels, log := None, None, None, 0, 0, [], [];
    }

    ghost function View(): State
      reads this
    {
      State(Config(title, defaultLabel, bmp, timeout, prompt, labels), log)
    }

    /** The rest of a menu line inside a label. */
    method ReadLabelMenu(text: CString, c: nat, e: Entry) returns (err: Option<Error>, e': Entry, c': nat)
      requires c <= |text|
      modifies `defaultLabel, `log
      ensures match LabelMenu(e, old(defaultLabel), text[c..])
              case Next(x, d, more, rest) =>
                err.None? && e' == x && defaultLabel == d && log == old(log) + more
                && c <= c' <= |text| && text[c'..] == rest
              case Fail(error) => err == Some(error)
    {
      hide GetToken, ParseLiteral;
      var t, v;
      e', err := e, None;
      t, c' := NextToken(text, c, Keyword);
      ghost var more := [];
      if t == Default {
        if defaultLabel.None? {
          defaultLabel := Some(e.name);
        }
        more := [MenuDefault(e.name)];
      } else if t == Label {
        v, c' := NextLiteral(text, c');
        if v.Some? {
          e' := e.(menu := v);
        }
      }
      log := log + more;
      if c' > |text| {
        return Some(Overrun), e', c';
      }
      c' := EolOrEof(text, c');
    }

    /** One turn inside a label. */
    method ReadLabelTurn(text: CString, c: nat, e: Entry)
      returns (stop: bool, err: Option<Error>, e': Entry, c': nat)
      requires c <= |text|
      modifies `defaultLabel, `log
      ensures match LabelTurn(e, old(defaultLabel), text[c..])
              case Stop =>
                stop && err.None? && e' == e && c' == c && defaultLabel == old(defaultLabel) && log == old(log)
              case Next(x, d, more, rest) =>
                !stop && err.None? && e' == x && defaultLabel == d && log == old(log) + more
                && c <= c' <= |text| && text[c'..] == rest
              case Fail(error) => err == Some(error)
    {
      hide GetToken, ParseLiteral, LabelMenu, Stored;
      var t, v;
      stop, err, e' := false, None, e;
      t, c' := NextToken(text, c, Keyword);
      assert log + [] == log;
      if t == Menu {
        err, e', c' := ReadLabelMenu(text, c', e);
        return;
      } else if t == Eol {
        return;
      } else if t == Kaslrseed {
        e' := e.(kaslrseed := true);
        return;
      } else if !TakesValue(t) {
        // Put the token back: it belongs to the menu.
        return true, None, e, c;
      } else if t in {Initrd, Fdt, Fdtdir, Fdtoverlays} && FirstWins(e, t).Some? {
        return;
      }
      v, c' := NextLiteral(text, c');
      if v.None? {
        err := Some(if t == Append && e.append.None? && e.initrd.None? then Undefined else Invalid);
        return;
      }
      var stored := Stored(e, t, v.value);
      if stored.Err? {
        err := Some(stored.error);
      } else {
        e' := stored.value;
      }
    }

    /** A label: its name, and then turns until one does not belong to it. */
    method ReadLabel(text: CString, c: nat) returns (err: Option<Error>, c': nat)
      requires c <= |text|
      modifies this
      ensures match ParseLabel(old(View()), text[c..])
              case Going(st, rest) => err.None? && View() == st && c <= c' <= |text| && text[c'..] == rest
              case Failed(error) => err == Some(error)
              case Finished => false
    {
      hide GetToken, ParseLiteral, LabelTurn;
      var name, stop;
      name, c' := NextLiteral(text, c);
      if name.None? {
        return Some(Invalid), c';
      }
      var e := NewEntry(name.value);
      ghost var start, cfg := c', View().cfg;
      labels := labels + [e];
      stop := false;
      while !stop
        invariant c <= c' <= |text| && |labels| > 0 && e == labels[|labels| - 1]
        invariant View().cfg == cfg.(labels := old(labels) + [e], defaultLabel := defaultLabel)
        invariant LabelBody(e, defaultLabel, log, text[c'..])
                  == LabelBody(NewEntry(name.value), old(defaultLabel), old(log), text[start..])
        invariant stop ==> LabelTurn(e, defaultLabel, text[c'..]) == Stop
        decreases |text| - c', !stop
      {
        stop, err, e, c' := ReadLabelTurn(text, c', e);
        labels := labels[|labels| - 1 := e];
        if err.Some? {
          return;
        }
      }
      err := None;
    }

    /** A default or timeout label outside a label. */
    method ReadDefault(text: CString, c: nat) returns (err: Option<Error>, c': nat)
      requires c <= |text|
      modifies `defaultLabel, `log
      ensures match SetDefaultLabel(old(View()), text[c..])
              case Going(st, rest) => err.None? && View() == st && c <= c' <= |text| && text[c'..] == rest
              case Failed(error) => err == Some(error)
              case Finished => false
    {
      hide ParseLiteral;
      var v;
      v, c' := NextLiteral(text, c);
      if v.None? {
        return Some(Undefined), c';
      }
      defaultLabel := v;
      log := log + [SetDefault(v.value)];
      err := None;
    }

    /** Reads the named file and parses it into the same menu. */
    method ReadInclude(files: Files, text: CString, c: nat, nest: nat) returns (err: Option<Error>, c': nat)
      requires c <= |text| && nest <= MAX_NEST_LEVEL + 1
      modifies this
      ensures match HandleInclude(files, old(View()), text[c..], nest)
              case Going(st, rest) => err.None? && View() == st && c <= c' <= |text| && text[c'..] == rest
              case Failed(error) => err == Some(error)
              case Finished => false
      decreases MAX_NEST_LEVEL + 1 - nest, 1, 0, 0
    {
      hide ParseLiteral, ParseFile;
      var path;
      path, c' := NextLiteral(text, c);
      if path.None? {
        return Some(Invalid), c';
      }
      if path.value !in files {
        return Some(NoFile), c';
      }
      err := ReadFile(files, files[path.value], 0, nest);
    }

    method ReadMenu(files: Files, text: CString, c: nat, nest: nat) returns (err: Option<Error>, c': nat)
      requires c <= |text| && nest <= MAX_NEST_LEVEL
      modifies this
      ensures match MenuStatement(files, old(View()), text[c..], nest)
              case Going(st, rest) => err.None? && View() == st && c <= c' <= |text| && text[c'..] == rest
              case Failed(error) => err == Some(error)
              case Finished => false
      decreases MAX_NEST_LEVEL + 1 - nest, 0, |text| - c, 0
    {
      hide GetToken, ParseLiteral, HandleInclude, SkipLine;
      var t, v;
      err := None;
      t, c' := NextToken(text, c, Keyword);
      if t == Title || t == Background {
        v, c' := NextLiteral(text, c');
        if v.None? {
          return Some(Invalid), c';
        }
        if t == Title {
          title := v;
        } else {
          bmp := v;
        }
      } else if t == Include {
        err, c' := ReadInclude(files, text, c', nest + 1);
        if err.Some? {
          return;
        }
      }
      if c' > |text| {
        return Some(Overrun), c';
      }
      c' := EolOrEof(text, c');
    }

    /** The value of a timeout or a prompt. */
    method ReadNumber(text: CString, c: nat, isPrompt: bool) returns (err: Option<Error>, c': nat)
      requires c <= |text|
      modifies `timeout, `prompt
      ensures match NumberStatement(old(View()), text[c..], isPrompt)
              case Going(st, rest) => err.None? && View() == st && c <= c' <= |text| && text[c'..] == rest
              case Failed(error) => err == Some(error)
              case Finished => false
    {
      hide ParseLiteral, Integer;
      var v;
      v, c' := NextLiteral(text, c);
      if v.None? {
        return Some(if isPrompt && c' > |text| then Overrun else Invalid), c';
      }
      if isPrompt {
        prompt := Integer(v.value);
      } else {
        timeout := Integer(v.value);
      }
      err := None;
    }

    /** A statement that sets one value of the menu. */
    method ReadSetting(text: CString, c: nat, t: Token) returns (err: Option<Error>, c': nat)
      requires c <= |text|
      modifies `timeout, `prompt, `defaultLabel, `log
      ensures match Setting(old(View()), text[c..], t)
              case Going(st, rest) => err.None? && View() == st && c <= c' <= |text| && text[c'..] == rest
              case Failed(error) => err == Some(error)
              case Finished => false
    {
      hide NumberStatement, SetDefaultLabel;
      if t == Timeout || t == Prompt {
        err, c' := ReadNumber(text, c, t == Prompt);
      } else {
        err, c' := ReadDefault(text, c);
      }
    }

    /** A menu line, a label or an included file. */
    method ReadBlock(files: Files, text: CString, c: nat, t: Token, nest: nat) returns (err: Option<Error>, c': nat)
      requires c <= |text| && nest <= MAX_NEST_LEVEL && (t == Menu || t == Label || t == Include)
      modifies this
      ensures match Block(files, old(View()), t, text[c..], nest)
              case Going(st, rest) => err.None? && View() == st && c <= c' <= |text| && text[c'..] == rest
              case Failed(error) => err == Some(error)
              case Finished => false
      decreases MAX_NEST_LEVEL + 1 - nest, 0, |text| - c, 1
    {
      hide HandleInclude, MenuStatement, ParseLabel;
      if t == Menu {
        prompt := 1;
        err, c' := ReadMenu(files, text, c, nest);
      } else if t == Label {
        err, c' := ReadLabel(text, c);
      } else {
        err, c' := ReadInclude(files, text, c, nest + 1);
      }
    }

    /** One statement of a file; `done` at its end. */
    method ReadStatement(files: Files, text: CString, c: nat, nest: nat)
      returns (done: bool, err: Option<Error>, c': nat)
      requires c <= |text| && nest <= MAX_NEST_LEVEL
      modifies this
      ensures match Statement(files, old(View()), text[c..], nest)
              case Finished => done && err.None? && View() == old(View())
              case Going(st, rest) => !done && err.None? && View() == st && c <= c' <= |text| && text[c'..] == rest
              case Failed(error) => err == Some(error)
      decreases MAX_NEST_LEVEL + 1 - nest, 0, |text| - c, 2
    {
      hide Statement, GetToken, Block, Setting, SkipLine;
      StatementIs(files, View(), text[c..], nest);
      var t;
      done, err := false, None;
      t, c' := NextToken(text, c, Keyword);
      if t == Eof {
        done := true;
      } else if t == Menu || t == Label || t == Include {
        err, c' := ReadBlock(files, text, c', t, nest);
      } else if IsSetting(t) {
        err, c' := ReadSetting(text, c', t);
      } else if t != Eol {
        c' := EolOrEof(text, c');
      }
    }

    /** Parses a file from position `c` on.  Terminates for every set of files, even when they
      * include each other. */
    method ReadFile(files: Files, text: CString, c: nat, nest: nat) returns (err: Option<Error>)
      requires c <= |text| && nest <= MAX_NEST_LEVEL + 1
      modifies this
      ensures match ParseFile(files, old(View()), text[c..], nest)
              case Ok(st) => err.None? && View() == st
              case Err(error) => err == Some(error)
      decreases MAX_NEST_LEVEL + 1 - nest, 0, |text| - c, 3
    {
      hide Statement;
      if nest > MAX_NEST_LEVEL {
        return Some(TooDeep);
      }
      var at, done := c, false;
      while true
        invariant c <= at <= |text|
        invariant ParseFile(files, View(), text[at..], nest) == ParseFile(files, old(View()), text[c..], nest)
        decreases |text| - at
      {
        done, err, at := ReadStatement(files, text, at, nest);
        if err.Some? || done {
          return;
        }
      }
    }
  }
}
