/** Lines that a menu file may hold but should not: what exactly makes a statement fail, lose the
  * line after it, end a label early, or read past the end of the text. */
module PxeLines {
  import opened CStrings
  import opened Results
  import opened PxeLexer
  import opened PxeParser
  import opened PxeTokens
  import opened PxeProofs

  // ---------------------------------------------------------------- where a token stands

  /** Nothing but blanks and a comment is left on the line. */
  predicate LineBlank(s: string) {
    var r := SkipBlanks(s);
    r == "" || r[0] == '\n' || r[0] == '#'
  }

  /** Nothing but blanks and a comment is left in the text. */
  predicate AtEnd(s: string) {
    TokenStart(s) == ""
  }

  lemma {:induction false} BlanksSameLine(s: string)
    ensures SkipLine(SkipBlanks(s)) == SkipLine(s)
  {
    if s != "" && IsBlank(s[0]) { BlanksSameLine(s[1..]); }
  }

  lemma {:induction false} LineEndFixed(s: string)
    ensures SkipLine(SkipLine(s)) == SkipLine(s)
  {
    if s != "" && s[0] != '\n' { LineEndFixed(s[1..]); }
  }

  lemma {:induction false} WordSameLine(word: string, rest: string)
    requires '\n' !in word
    ensures SkipLine(word + rest) == SkipLine(rest)
  {
    if word == "" {
      assert word + rest == rest;
    } else {
      assert (word + rest)[1..] == word[1..] + rest;
      assert word[0] in word;
      WordSameLine(word[1..], rest);
    }
  }

  /** A token is taken from its own line, and only a line end takes the line end. */
  lemma {:induction false} TokenSameLine(s: string, mode: Mode)
    ensures var (t, c) := GetToken(s, mode);
            && (t == Eol ==> SkipLine(s) == "\n" + c.rest)
            && (t == Eof ==> SkipLine(s) == "")
            && (t != Eol && t != Eof ==> SkipLine(s) == SkipLine(c.rest))
  {
    hide SkipLine, SkipBlanks, Split, Lookup;
    BlanksSameLine(s);
    var r := SkipBlanks(s);
    LineEndFixed(r);
    var start := TokenStart(s);
    assert SkipLine(start) == SkipLine(s);
    StartsLine(start);
    if start != "" && start[0] != '\n' {
      var (word, rest) := Split(start, mode);
      assert '\n' !in word by { assert forall i :: 0 <= i < |word| ==> !Ends(mode, word[i]); }
      WordSameLine(word, rest);
    }
  }

  lemma {:induction false} StartsLine(s: string)
    ensures s == "" ==> SkipLine(s) == ""
    ensures s != "" && s[0] == '\n' ==> SkipLine(s) == s == "\n" + s[1..]
  {
  }

  /** There is no literal if and only if the rest of the line is blank. */
  lemma {:induction false} LiteralIff(s: string)
    ensures ParseLiteral(s).0.None? <==> LineBlank(s)
    ensures ParseLiteral(s).1.Past? <==> AtEnd(s)
  {
    hide SkipLine, SkipBlanks, Split;
  }

  // ---------------------------------------------------------------- prompt

  /** A prompt fails the whole parse if and only if no value stands on its line. */
  lemma {:induction false} PromptFailsIff(files: Files, st: State, s: string, nest: nat)
    requires nest <= MAX_NEST_LEVEL && GetToken(s, Keyword).0 == Prompt
    ensures var r, rest := Statement(files, st, s, nest), GetToken(s, Keyword).1.rest;
            && (r.Failed? <==> LineBlank(rest))
            && (r.Failed? ==> r == Failed(if AtEnd(rest) then Overrun else Invalid))
  {
    hide GetToken, LineBlank, AtEnd;
    LiteralIff(GetToken(s, Keyword).1.rest);
  }

  /** So does a timeout, and a label or an include without a name. */
  lemma {:induction false} MissingValueFails(files: Files, st: State, s: string, nest: nat)
    requires nest <= MAX_NEST_LEVEL && GetToken(s, Keyword).0 in {Timeout, Label, Include}
    ensures var r, (t, c) := Statement(files, st, s, nest), GetToken(s, Keyword);
            && (LineBlank(c.rest) ==> r == Failed(Invalid))
            && (t == Timeout && !LineBlank(c.rest) ==> r.Going?)
  {
    hide GetToken, LineBlank, AtEnd, LabelBody, ParseFile;
    LiteralIff(GetToken(s, Keyword).1.rest);
  }

  lemma {:induction false} BarePromptFails(files: Files, rest: CString)
    ensures Parse(files, "prompt\n" + rest) == Err(Invalid)
  {
    hide GetToken, AtEnd, LineBlank;
    assert Spelling(PromptWord) + ("\n" + rest) == "prompt\n" + rest;
    KeywordToken(PromptWord, "\n" + rest);
    LiteralIff("\n" + rest);
    LineEndBlank(rest);
    assert Statement(files, State(EMPTY, []), "prompt\n" + rest, 1) == Failed(Invalid);
  }

  /** A default or timeout label goes on to use a name that its own line did not set, which is unset
    * or released by then, if and only if none stands on its line. */
  lemma {:induction false} DefaultUndefinedIff(files: Files, st: State, s: string, nest: nat)
    requires nest <= MAX_NEST_LEVEL && GetToken(s, Keyword).0 in {Default, Ontimeout}
    ensures Statement(files, st, s, nest) == Failed(Undefined) <==> LineBlank(GetToken(s, Keyword).1.rest)
  {
    hide GetToken, LineBlank, AtEnd;
    LiteralIff(GetToken(s, Keyword).1.rest);
  }

  lemma {:induction false} BareDefaultUndefined(files: Files, rest: CString)
    ensures Parse(files, "default\n" + rest) == Err(Undefined)
  {
    hide GetToken, AtEnd, LineBlank;
    assert Spelling(DefaultWord) + ("\n" + rest) == "default\n" + rest;
    KeywordToken(DefaultWord, "\n" + rest);
    LiteralIff("\n" + rest);
    LineEndBlank(rest);
    assert Statement(files, State(EMPTY, []), "default\n" + rest, 1) == Failed(Undefined);
  }

  lemma {:induction false} LineEndBlank(rest: string)
    ensures LineBlank("\n" + rest) && !AtEnd("\n" + rest)
  {
  }

  // ---------------------------------------------------------------- menu lines

  /** What is left after the line that follows this one has been passed over too. */
  function LineLost(s: string): string
    requires SkipLine(s) != ""
  {
    SkipLine(SkipLine(s)[1..])
  }

  /** A menu line takes the next line with it if and only if nothing follows the keyword. */
  lemma {:induction false} MenuLineIff(files: Files, st: State, s: string, nest: nat)
    requires nest <= MAX_NEST_LEVEL
    ensures var r, t := MenuStatement(files, st, s, nest), GetToken(s, Keyword).0;
            r.Going? ==>
              && (r.rest == SkipLine(s) <==> t != Eol)
              && (t == Eol ==> SkipLine(s) != "" && r.rest == LineLost(s))
              && (t !in {Title, Background, Include} ==> r.st == st)
  {
    hide GetToken, SkipLine, HandleInclude;
    var (t, c) := GetToken(s, Keyword);
    TokenSameLine(s, Keyword);
    if t == Title || t == Background {
      LiteralSameLine(c.rest);
    } else if t == Include {
      IncludeSameLine(files, st, c.rest, nest + 1);
    } else if t == Eol {
      assert ("\n" + c.rest)[1..] == c.rest;
    }
  }

  /** Whatever stands on the line after a bare menu line is never looked at. */
  lemma {:induction false} BareMenuLoses(files: Files, st: State, line: string, rest: string, nest: nat)
    requires nest <= MAX_NEST_LEVEL && '\n' !in line
    ensures MenuStatement(files, st, "\n" + (line + ("\n" + rest)), nest) == Going(st, "\n" + rest)
  {
    hide GetToken, HandleInclude, SkipLine;
    EolToken(line + ("\n" + rest));
    WordSameLine(line, "\n" + rest);
    StartsLine("\n" + rest);
  }

  lemma {:induction false} LiteralSameLine(s: string)
    ensures var (v, c) := ParseLiteral(s); v.Some? ==> SkipLine(c.rest) == SkipLine(s)
    ensures var (v, c) := ParseLiteral(s); v.None? && c.At? ==> SkipLine(s) == "\n" + c.rest
  {
    hide GetToken, SkipLine;
    TokenSameLine(s, Literal);
  }

  lemma {:induction false} IncludeSameLine(files: Files, st: State, s: string, nest: nat)
    requires nest <= MAX_NEST_LEVEL + 1
    ensures var r := HandleInclude(files, st, s, nest); r.Going? ==> SkipLine(r.rest) == SkipLine(s)
  {
    hide ParseLiteral, SkipLine, ParseFile;
    LiteralSameLine(s);
  }

  /** Inside a label the next line is lost if and only if nothing follows "menu" or "menu label". */
  lemma {:induction false} LabelMenuLineIff(e: Entry, d: Option<string>, s: string)
    ensures var r := LabelMenu(e, d, s);
            var (t, c) := GetToken(s, Keyword);
            r.Next? ==>
              var lost := t == Eol || (t == Label && LineBlank(c.rest));
              && (r.rest == SkipLine(s) <==> !lost)
              && (lost ==> SkipLine(s) != "" && r.rest == LineLost(s))
              && (lost || t !in {Default, Label} ==> r.e == e && r.d == d && r.log == [])
  {
    hide GetToken, SkipLine, ParseLiteral, LineBlank, AtEnd;
    var (t, c) := GetToken(s, Keyword);
    TokenSameLine(s, Keyword);
    if t == Label {
      LiteralSameLine(c.rest);
      LiteralIff(c.rest);
      var (v, c') := ParseLiteral(c.rest);
      if v.None? && c'.At? { assert ("\n" + c'.rest)[1..] == c'.rest; }
    } else if t == Eol {
      assert ("\n" + c.rest)[1..] == c.rest;
    }
  }

  // ---------------------------------------------------------------- lines of white space

  /** The tokens that belong to a label. */
  predicate Handled(t: Token) {
    t == Menu || t == Eol || t == Kaslrseed || TakesValue(t)
  }

  lemma {:induction false} TurnStopsIff(e: Entry, d: Option<string>, s: string)
    ensures LabelTurn(e, d, s) == Stop <==> !Handled(GetToken(s, Keyword).0)
  {
    hide GetToken, Stored, ParseLiteral;
  }

  /** A keyword of a label that takes a value fails the parse if none stands on its line, unless it
    * has its value already and keeps the first one. */
  lemma {:induction false} LabelValueMissing(e: Entry, d: Option<string>, s: string)
    requires var t := GetToken(s, Keyword).0;
             TakesValue(t) && (t in {Initrd, Fdt, Fdtdir, Fdtoverlays} ==> FirstWins(e, t).None?)
    ensures var r, (t, c) := LabelTurn(e, d, s), GetToken(s, Keyword);
            && (LineBlank(c.rest) ==>
                  r == Fail(if t == Append && e.append.None? && e.initrd.None? then Undefined else Invalid))
            && (!LineBlank(c.rest) && t != Append ==> r.Next?)
  {
    hide GetToken, LineBlank, AtEnd;
    LiteralIff(GetToken(s, Keyword).1.rest);
  }

  /** White space at the start of a line, after any blanks, ends the label if and only if it is not
    * a line end: a line that ends in a carriage return is not seen as empty. */
  lemma {:induction false} WhiteLineStops(e: Entry, d: Option<string>, s: string)
    requires TokenStart(s) != "" && IsSpace(TokenStart(s)[0])
    ensures LabelTurn(e, d, s) == Stop <==> TokenStart(s)[0] != '\n'
  {
    hide TokenStart, Lookup, Stored, ParseLiteral, LabelMenu;
    TurnStopsIff(e, d, s);
    var start := TokenStart(s);
    if start[0] != '\n' {
      SplitIs("", start, Keyword);
      assert "" + start == start;
      LookupKeeps("", 0);
      assert GetToken(s, Keyword).0 == Str("");
    }
  }

  lemma {:induction false} CarriageReturnStops(e: Entry, d: Option<string>, rest: string)
    ensures LabelTurn(e, d, "\r\n" + rest) == Stop
  {
    hide LabelTurn;
    NoSkip("\r\n" + rest);
    WhiteLineStops(e, d, "\r\n" + rest);
  }

  // ---------------------------------------------------------------- past the end

  /** A line of a label reads past the end if and only if it is a bare "menu" or "menu label" with
    * nothing behind it in the text. */
  lemma {:induction false} LabelTurnOverrunIff(e: Entry, d: Option<string>, s: string)
    ensures var (t, c) := GetToken(s, Keyword);
            LabelTurn(e, d, s) == Fail(Overrun)
            <==> t == Menu && (AtEnd(c.rest)
                               || var (t2, c2) := GetToken(c.rest, Keyword); t2 == Label && AtEnd(c2.rest))
  {
    hide GetToken, ParseLiteral, AtEnd, LineBlank, Stored;
    var (t, c) := GetToken(s, Keyword);
    if t == Menu {
      EndTokenIff(c.rest, Keyword);
      var (t2, c2) := GetToken(c.rest, Keyword);
      if t2 == Label { LiteralIff(c2.rest); }
    } else if TakesValue(t) {
      var v := ParseLiteral(c.rest).0;
      if v.Some? { StoredKeeps(e, t, v.value); }
    }
  }

  lemma {:induction false} EndTokenIff(s: string, mode: Mode)
    ensures GetToken(s, mode).1.Past? <==> AtEnd(s)
    ensures GetToken(s, mode).0 == Eof <==> AtEnd(s)
  {
    hide TokenStart, Split, Lookup;
  }

  /** A statement reads past the end if and only if it is "prompt" or "menu" with nothing behind it
    * in the text, or a label or an included file inside it does. */
  lemma {:induction false} StatementOverrunIff(files: Files, st: State, s: string, nest: nat)
    requires nest <= MAX_NEST_LEVEL
    ensures var (t, c) := GetToken(s, Keyword);
            var shown := st.(cfg := st.cfg.(prompt := 1));
            Statement(files, st, s, nest) == Failed(Overrun)
            <==> || (t == Prompt && AtEnd(c.rest))
                 || (t == Menu && AtEnd(c.rest))
                 || (t == Menu && GetToken(c.rest, Keyword).0 == Include
                     && HandleInclude(files, shown, GetToken(c.rest, Keyword).1.rest, nest + 1) == Failed(Overrun))
                 || (t == Include && HandleInclude(files, st, c.rest, nest + 1) == Failed(Overrun))
                 || (t == Label && ParseLabel(st, c.rest) == Failed(Overrun))
  {
    hide GetToken, ParseLiteral, AtEnd, LineBlank, HandleInclude, ParseLabel;
    var (t, c) := GetToken(s, Keyword);
    if t == Menu {
      EndTokenIff(c.rest, Keyword);
    } else if t == Prompt {
      LiteralIff(c.rest);
    }
  }

  /** An included file reads past its end if and only if parsing it does. */
  lemma {:induction false} IncludeOverrunIff(files: Files, st: State, s: string, nest: nat)
    requires nest <= MAX_NEST_LEVEL + 1
    ensures HandleInclude(files, st, s, nest) == Failed(Overrun)
            <==> var path := ParseLiteral(s).0;
                 path.Some? && path.value in files && ParseFile(files, st, files[path.value], nest) == Err(Overrun)
  {
    hide ParseLiteral, ParseFile;
  }
}
