/** The lexer for PXE and extlinux menu files: what a token means depends on what is expected. */
module PxeLexer {
  /** Where the input stands: before this text, or past its terminator. */
  datatype Cursor = At(rest: string) | Past

  datatype Token =
    | Eol | Str(val: string) | Eof | Menu | Title | Timeout | Label | Kernel | Linux | Append
    | Initrd | Localboot | Default | Prompt | Include | Fdt | Fdtdir | Fdtoverlays | Ontimeout
    | Ipappend | Background | Kaslrseed

  datatype Mode = Keyword | Literal

  const KEYWORDS: seq<(string, Token)> :=
    [("menu", Menu), ("title", Title), ("timeout", Timeout), ("default", Default),
     ("prompt", Prompt), ("label", Label), ("kernel", Kernel), ("linux", Linux),
     ("localboot", Localboot), ("append", Append), ("initrd", Initrd), ("include", Include),
     ("devicetree", Fdt), ("fdt", Fdt), ("devicetreedir", Fdtdir), ("fdtdir", Fdtdir),
     ("fdtoverlays", Fdtoverlays), ("devicetree-overlay", Fdtoverlays), ("ontimeout", Ontimeout),
     ("ipappend", Ipappend), ("background", Background), ("kaslrseed", Kaslrseed)]

  predicate IsBlank(c: char) {
    c == ' ' || c == '\t'
  }

  predicate IsSpace(c: char) {
    9 <= c as int <= 13 || c as int == 32 || c as int == 160
  }

  predicate IsUpper(c: char) {
    'A' <= c <= 'Z' || (192 <= c as int <= 222 && c as int != 215)
  }

  function Lower(c: char): char {
    if IsUpper(c) then (c as int + 32) as char else c
  }

  function Lowered(s: string): (r: string)
    ensures |r| == |s|
  {
    if s == "" then "" else [Lower(s[0])] + Lowered(s[1..])
  }

  /** Drops blanks. */
  function SkipBlanks(s: string): (r: string)
    ensures |r| <= |s|
    ensures r != "" ==> !IsBlank(r[0])
  {
    if s != "" && IsBlank(s[0]) then SkipBlanks(s[1..]) else s
  }

  /** Drops everything up to the end of the line. */
  function SkipLine(s: string): (r: string)
    ensures |r| <= |s|
    ensures r != "" ==> r[0] == '\n'
  {
    if s != "" && s[0] != '\n' then SkipLine(s[1..]) else s
  }

  predicate Ends(mode: Mode, c: char) {
    if mode == Keyword then IsSpace(c) else c == '\n'
  }

  /** The text up to a delimiter, and what follows, starting with the delimiter. */
  function Split(s: string, mode: Mode): (r: (string, string))
    ensures r.0 + r.1 == s
    ensures r.1 != "" ==> Ends(mode, r.1[0])
    ensures forall i :: 0 <= i < |r.0| ==> !Ends(mode, r.0[i])
  {
    if s == "" || Ends(mode, s[0]) then ("", s)
    else
      var (word, rest) := Split(s[1..], mode);
      assert [s[0]] + (word + rest) == s;
      ([s[0]] + word, rest)
  }

  /** The token for a lower-case word: the first entry that matches, or the word itself. */
  function Lookup(word: string, i: nat): (r: Token)
    requires i <= |KEYWORDS|
    ensures r != Eol && r != Eof
    decreases |KEYWORDS| - i
  {
    if i == |KEYWORDS| then Str(word)
    else if KEYWORDS[i].0 == word then
      assert KEYWORDS[i].1 != Eol && KEYWORDS[i].1 != Eof;
      KEYWORDS[i].1
    else Lookup(word, i + 1)
  }

  /** Drops blanks and a comment: what a token is then made from. */
  function TokenStart(s: string): (r: string)
    ensures |r| <= |s|
    ensures r != "" ==> !IsBlank(r[0]) && r[0] != '#'
  {
    var r := SkipBlanks(s);
    if r != "" && r[0] == '#' then SkipLine(r) else r
  }

  /** The next token.  The last one steps over the terminator; every other one consumes input,
    * except an empty word in front of white space that is neither a blank nor a line end. */
  function GetToken(s: string, mode: Mode): (r: (Token, Cursor))
    ensures r.0 == Eof <==> r.1.Past?
    ensures r.1.At? && r.0 != Str("") ==> |r.1.rest| < |s|
    ensures r.0 == Str("") ==> 0 < |r.1.rest| <= |s| && r.1.rest[0] != '\n'
    ensures mode == Literal ==> r.0.Eol? || r.0.Eof? || (r.0.Str? && r.0.val != "")
  {
    var start := TokenStart(s);
    if start == "" then (Eof, Past)
    else if start[0] == '\n' then (Eol, At(start[1..]))
    else
      var (word, rest) := Split(start, mode);
      assert |word| + |rest| == |start|;
      LookupKeeps(Lowered(word), 0);
      (if mode == Keyword then Lookup(Lowered(word), 0) else Str(word), At(rest))
  }

  lemma {:induction false} LookupKeeps(word: string, i: nat)
    requires i <= |KEYWORDS|
    ensures Lookup(word, i).Str? ==> Lookup(word, i).val == word
    ensures word == "" ==> Lookup(word, i) == Str("")
    decreases |KEYWORDS| - i
  {
    if i < |KEYWORDS| {
      assert !KEYWORDS[i].1.Str? && KEYWORDS[i].0 != "";
      LookupKeeps(word, i + 1);
    }
  }
}
