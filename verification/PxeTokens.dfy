/** How the lexer reads well-formed words, values and lines. */
module PxeTokens {
  import opened PxeLexer

  lemma {:induction false} SplitIs(word: string, rest: string, mode: Mode)
    requires forall i :: 0 <= i < |word| ==> !Ends(mode, word[i])
    requires rest != "" ==> Ends(mode, rest[0])
    ensures Split(word + rest, mode) == (word, rest)
  {
    if word == "" {
      assert word + rest == rest;
    } else {
      assert (word + rest)[1..] == word[1..] + rest;
      SplitIs(word[1..], rest, mode);
      assert [word[0]] + word[1..] == word;
    }
  }

  lemma {:induction false} LoweredSame(s: string)
    requires forall i :: 0 <= i < |s| ==> !IsUpper(s[i])
    ensures Lowered(s) == s
  {
    if s != "" { LoweredSame(s[1..]); }
  }

  /** A lower-case word that starts a token of its own. */
  predicate PlainWord(w: string) {
    w != "" && w[0] != '#' && forall i :: 0 <= i < |w| ==> !IsSpace(w[i]) && !IsUpper(w[i])
  }

  lemma {:induction false} KeywordsPlain(k: nat)
    requires k < |KEYWORDS|
    ensures PlainWord(KEYWORDS[k].0) && '\0' !in KEYWORDS[k].0
  {
    KeywordsLetters(k);
  }

  lemma {:induction false} KeywordsLetters(k: nat)
    requires k < |KEYWORDS|
    ensures Letters(KEYWORDS[k].0) && KEYWORDS[k].0 != "" && KEYWORDS[k].0[0] != '#'
  {
    if k < 11 { EarlyLetters(k); } else { LateLetters(k); }
  }

  lemma {:induction false} EarlyLetters(k: nat)
    requires k < 11
    ensures Letters(KEYWORDS[k].0) && KEYWORDS[k].0 != "" && KEYWORDS[k].0[0] != '#'
  {
  }

  lemma {:induction false} LateLetters(k: nat)
    requires 11 <= k < |KEYWORDS|
    ensures Letters(KEYWORDS[k].0) && KEYWORDS[k].0 != "" && KEYWORDS[k].0[0] != '#'
  {
  }

  /** A word of lower-case letters and dashes. */
  predicate Letters(w: string) {
    forall i :: 0 <= i < |w| ==> 'a' <= w[i] <= 'z' || w[i] == '-'
  }

  lemma {:induction false} KeywordsDistinct(j: nat, k: nat)
    requires j < k < |KEYWORDS|
    ensures KEYWORDS[j].0 != KEYWORDS[k].0
  {
  }

  lemma {:induction false} LookupUnfolds(word: string, i: nat)
    requires i < |KEYWORDS|
    ensures Lookup(word, i) == if KEYWORDS[i].0 == word then KEYWORDS[i].1 else Lookup(word, i + 1)
  {
  }

  /** Every keyword is found in the table, whatever stands before it there. */
  lemma {:induction false} LookupFinds(i: nat, k: nat)
    requires i <= k < |KEYWORDS|
    ensures Lookup(KEYWORDS[k].0, i) == KEYWORDS[k].1
    decreases k - i
  {
    hide Lookup;
    LookupUnfolds(KEYWORDS[k].0, i);
    if i < k {
      KeywordsDistinct(i, k);
      LookupFinds(i + 1, k);
    }
  }

  // ---------------------------------------------------------------- the words of the language

  /** Every word that has a meaning in a menu file. */
  datatype Word =
    | MenuWord | TitleWord | TimeoutWord | DefaultWord | PromptWord | LabelWord | KernelWord | LinuxWord
    | LocalbootWord | AppendWord | InitrdWord | IncludeWord | DevicetreeWord | FdtWord | DevicetreedirWord
    | FdtdirWord | FdtoverlaysWord | DevicetreeOverlayWord | OntimeoutWord | IpappendWord
    | BackgroundWord | KaslrseedWord

  /** How it is written. */
  function Spelling(w: Word): string {
    match w
    case MenuWord => "menu"
    case TitleWord => "title"
    case TimeoutWord => "timeout"
    case DefaultWord => "default"
    case PromptWord => "prompt"
    case LabelWord => "label"
    case KernelWord => "kernel"
    case LinuxWord => "linux"
    case LocalbootWord => "localboot"
    case AppendWord => "append"
    case InitrdWord => "initrd"
    case IncludeWord => "include"
    case DevicetreeWord => "devicetree"
    case FdtWord => "fdt"
    case DevicetreedirWord => "devicetreedir"
    case FdtdirWord => "fdtdir"
    case FdtoverlaysWord => "fdtoverlays"
    case DevicetreeOverlayWord => "devicetree-overlay"
    case OntimeoutWord => "ontimeout"
    case IpappendWord => "ipappend"
    case BackgroundWord => "background"
    case KaslrseedWord => "kaslrseed"
  }

  /** What it stands for. */
  function Meaning(w: Word): Token {
    match w
    case MenuWord => Menu
    case TitleWord => Title
    case TimeoutWord => Timeout
    case DefaultWord => Default
    case PromptWord => Prompt
    case LabelWord => Label
    case KernelWord => Kernel
    case LinuxWord => Linux
    case LocalbootWord => Localboot
    case AppendWord => Append
    case InitrdWord => Initrd
    case IncludeWord => Include
    case DevicetreeWord => Fdt
    case FdtWord => Fdt
    case DevicetreedirWord => Fdtdir
    case FdtdirWord => Fdtdir
    case FdtoverlaysWord => Fdtoverlays
    case DevicetreeOverlayWord => Fdtoverlays
    case OntimeoutWord => Ontimeout
    case IpappendWord => Ipappend
    case BackgroundWord => Background
    case KaslrseedWord => Kaslrseed
  }

  /** Where the table has it. */
  function Row(w: Word): (k: nat)
    ensures k < 22
  {
    match w
    case MenuWord => 0
    case TitleWord => 1
    case TimeoutWord => 2
    case DefaultWord => 3
    case PromptWord => 4
    case LabelWord => 5
    case KernelWord => 6
    case LinuxWord => 7
    case LocalbootWord => 8
    case AppendWord => 9
    case InitrdWord => 10
    case IncludeWord => 11
    case DevicetreeWord => 12
    case FdtWord => 13
    case DevicetreedirWord => 14
    case FdtdirWord => 15
    case FdtoverlaysWord => 16
    case DevicetreeOverlayWord => 17
    case OntimeoutWord => 18
    case IpappendWord => 19
    case BackgroundWord => 20
    case KaslrseedWord => 21
  }

  lemma {:induction false} WordInTable(w: Word)
    ensures |KEYWORDS| == 22 && KEYWORDS[Row(w)] == (Spelling(w), Meaning(w))
  {
    if Row(w) < 11 { EarlyWord(w); } else { LateWord(w); }
  }

  lemma {:induction false} EarlyWord(w: Word)
    requires Row(w) < 11
    ensures |KEYWORDS| == 22 && KEYWORDS[Row(w)] == (Spelling(w), Meaning(w))
  {
  }

  lemma {:induction false} LateWord(w: Word)
    requires 11 <= Row(w)
    ensures |KEYWORDS| == 22 && KEYWORDS[Row(w)] == (Spelling(w), Meaning(w))
  {
  }

  const WORDS: seq<Word> :=
    [MenuWord, TitleWord, TimeoutWord, DefaultWord, PromptWord, LabelWord, KernelWord, LinuxWord, LocalbootWord,
     AppendWord, InitrdWord, IncludeWord, DevicetreeWord, FdtWord, DevicetreedirWord, FdtdirWord,
     FdtoverlaysWord, DevicetreeOverlayWord, OntimeoutWord, IpappendWord, BackgroundWord, KaslrseedWord]

  lemma {:induction false} RowOf(k: nat)
    requires k < 22
    ensures |WORDS| == 22 && Row(WORDS[k]) == k
  {
  }

  lemma {:induction false} TableWord(k: nat) returns (w: Word)
    requires k < 22
    ensures |KEYWORDS| == 22 && KEYWORDS[k] == (Spelling(w), Meaning(w))
  {
    hide Spelling, Meaning, Row;
    w := WORDS[k];
    RowOf(k);
    WordInTable(w);
  }

  /** Each of the words is recognised, and no other text is. */
  lemma {:induction false} LookupExact(text: string)
    ensures forall w :: Spelling(w) == text ==> Lookup(text, 0) == Meaning(w)
    ensures Lookup(text, 0).Str? <==> forall w :: Spelling(w) != text
    ensures Lookup(text, 0).Str? ==> Lookup(text, 0) == Str(text)
  {
    hide Spelling, Meaning, Lookup, Row;
    forall w | Spelling(w) == text ensures Lookup(text, 0) == Meaning(w) && !Lookup(text, 0).Str? {
      WordInTable(w);
      LookupFinds(0, Row(w));
      NoWordIsText(w);
    }
    LookupKeeps(text, 0);
    if !Lookup(text, 0).Str? {
      var k := LookupFrom(text, 0);
      WordInTable(MenuWord);
      var w := TableWord(k);
      assert Spelling(w) == text;
    }
  }

  lemma {:induction false} NoWordIsText(w: Word)
    ensures !Meaning(w).Str? && Meaning(w) != Eol && Meaning(w) != Eof
  {
  }

  lemma {:induction false} LookupFrom(text: string, i: nat) returns (k: nat)
    requires i <= |KEYWORDS| && !Lookup(text, i).Str?
    ensures i <= k < |KEYWORDS| && KEYWORDS[k].0 == text
    decreases |KEYWORDS| - i
  {
    hide Lookup;
    if i == |KEYWORDS| {
      NoMoreRows(text);
      k := i;
    } else {
      LookupUnfolds(text, i);
      if KEYWORDS[i].0 == text {
        k := i;
      } else {
        k := LookupFrom(text, i + 1);
      }
    }
  }

  lemma {:induction false} NoMoreRows(text: string)
    ensures Lookup(text, |KEYWORDS|) == Str(text)
  {
  }

  lemma {:induction false} WordPlain(w: Word)
    ensures PlainWord(Spelling(w)) && '\0' !in Spelling(w) && '\n' !in Spelling(w)
  {
    hide Spelling, Meaning;
    WordInTable(w);
    KeywordsPlain(Row(w));
    assert forall i :: 0 <= i < |Spelling(w)| ==> !IsSpace(Spelling(w)[i]);
  }

  // ---------------------------------------------------------------- one token

  lemma {:induction false} NoSkip(s: string)
    requires s != "" && !IsBlank(s[0]) && s[0] != '#'
    ensures TokenStart(s) == s
  {
  }

  /** Spaces and tabs in front of a token do not matter. */
  lemma {:induction false} BlanksSkipped(pad: string, s: string, mode: Mode)
    requires forall i :: 0 <= i < |pad| ==> pad[i] == ' ' || pad[i] == '\t'
    ensures GetToken(pad + s, mode) == GetToken(s, mode)
  {
    hide Split, Lookup, SkipLine;
    SkipPad(pad, s);
  }

  lemma {:induction false} SkipPad(pad: string, s: string)
    requires forall i :: 0 <= i < |pad| ==> pad[i] == ' ' || pad[i] == '\t'
    ensures SkipBlanks(pad + s) == SkipBlanks(s)
  {
    if pad == "" {
      assert pad + s == s;
    } else {
      assert (pad + s)[1..] == pad[1..] + s;
      SkipPad(pad[1..], s);
    }
  }

  lemma {:induction false} SkipOne(s: string)
    ensures TokenStart(" " + s) == TokenStart(s)
  {
    assert (" " + s)[1..] == s;
  }

  /** A plain word in front of white space or at the end is read as what it stands for, if anything. */
  lemma {:induction false} PlainToken(word: string, rest: string)
    requires PlainWord(word) && (rest != "" ==> IsSpace(rest[0]))
    ensures GetToken(word + rest, Keyword) == (Lookup(word, 0), At(rest))
  {
    hide TokenStart, Lookup, Split, Lowered;
    NoSkip(word + rest);
    SplitIs(word, rest, Keyword);
    LoweredSame(word);
  }

  /** So is each word of the language. */
  lemma {:induction false} KeywordToken(w: Word, rest: string)
    requires rest != "" ==> IsSpace(rest[0])
    ensures GetToken(Spelling(w) + rest, Keyword) == (Meaning(w), At(rest))
  {
    hide GetToken, Lookup, Spelling, Meaning;
    WordPlain(w);
    PlainToken(Spelling(w), rest);
    LookupExact(Spelling(w));
  }

  /** A value that survives being written on a line of its own after its keyword. */
  predicate GoodValue(v: string) {
    v != "" && '\n' !in v && '\0' !in v && !IsBlank(v[0]) && v[0] != '#'
  }

  lemma {:induction false} LiteralToken(v: string, rest: string)
    requires GoodValue(v)
    ensures GetToken(" " + v + "\n" + rest, Literal) == (Str(v), At("\n" + rest))
  {
    hide TokenStart, Split;
    var line := v + ("\n" + rest);
    assert " " + v + "\n" + rest == " " + line;
    SkipOne(line);
    NoSkip(line);
    SplitIs(v, "\n" + rest, Literal);
  }

  lemma {:induction false} EolToken(rest: string)
    ensures GetToken("\n" + rest, Keyword) == (Eol, At(rest))
  {
    hide TokenStart;
    NoSkip("\n" + rest);
    assert ("\n" + rest)[1..] == rest;
  }
}
