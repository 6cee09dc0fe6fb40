/** The parser for PXE and extlinux menu files, with nested includes. */
module PxeParser {
  import opened CStrings
  import opened Results
  import opened PxeLexer

  const MAX_NEST_LEVEL := 16

  datatype Entry = Entry(
    name: string, menu: Option<string>, kernelLabel: Option<string>, kernel: Option<string>,
    config: Option<string>, append: Option<string>, initrd: Option<string>, fdt: Option<string>,
    fdtdir: Option<string>, fdtoverlays: Option<string>, ipappend: int, localboot: bool,
    localbootVal: int, kaslrseed: bool)

  datatype Config = Config(
    title: Option<string>, defaultLabel: Option<string>, bmp: Option<string>, timeout: int,
    prompt: int, labels: seq<Entry>)

  const EMPTY := Config(None, None, None, 0, 0, [])

  function NewEntry(name: string): Entry {
    Entry(name, None, None, None, None, None, None, None, None, None, 0, false, 0, false)
  }

  /** Overrun: the code would read past the terminator.  Undefined: it would read through a null
    * address, an unset or stale variable, or use an undefined difference. */
  datatype Error = Invalid | TooDeep | NoFile | Overrun | Undefined

  /** What decides the default label, in the order in which it is met. */
  datatype Event = SetDefault(name: string) | MenuDefault(name: string)

  /** The text of each file, up to its terminator. */
  type Files = map<string, CString>

  // ---------------------------------------------------------------- values

  predicate IsDigit(c: char) { '0' <= c <= '9' }

  predicate IsHexLetter(c: char) { 'a' <= c <= 'f' || 'A' <= c <= 'F' }

  function Digit(c: char): nat
    requires IsDigit(c) || IsHexLetter(c)
  {
    if IsDigit(c) then c as int - '0' as int else Lower(c) as int - 'a' as int + 10
  }

  function Digits(s: string, base: nat, sofar: nat): nat {
    if s == "" || !(IsDigit(s[0]) || IsHexLetter(s[0])) || Digit(s[0]) >= base then sofar
    else Digits(s[1..], base, sofar * base + Digit(s[0]))
  }

  function Unsigned(s: string): nat {
    if |s| >= 2 && s[0] == '0' && Lower(s[1]) == 'x' then Digits(s[2..], 16, 0) else Digits(s, 10, 0)
  }

  /** The value of a decimal number, or of a hexadecimal one with its prefix. */
  function Number(s: string): int {
    if s != "" && s[0] == '-' then 0 - Unsigned(s[1..]) else Unsigned(s)
  }

  /** A number as a 32-bit integer holds it. */
  function Wrapped(n: int): (r: int)
    ensures -0x8000_0000 <= r < 0x8000_0000
  {
    (n + 0x8000_0000) % 0x1_0000_0000 - 0x8000_0000
  }

  function Integer(s: string): int {
    Wrapped(Number(s))
  }

  /** A string literal, if one stands here, and where the input stands then. */
  function ParseLiteral(s: string): (r: (Option<string>, Cursor))
    ensures r.0.Some? ==> r.0.value != "" && r.1.At?
    ensures r.1.At? ==> |r.1.rest| < |s|
  {
    var (t, c) := GetToken(s, Literal);
    (if t.Str? then Some(t.val) else None, c)
  }

  function ToLineEnd(c: Cursor): (r: Result<string, Error>)
    ensures r.Ok? ==> c.At? && |r.value| <= |c.rest|
    ensures r.Err? <==> c.Past?
  {
    match c
    case At(rest) => Ok(SkipLine(rest))
    case Past => Err(Overrun)
  }

  /** The text from the first '#' on, if there is one. */
  function FromHash(s: string): (r: Option<string>)
    ensures r.Some? ==> |r.value| <= |s|
  {
    if s == "" then None else if s[0] == '#' then Some(s) else FromHash(s[1..])
  }

  function WithKernel(e: Entry, v: string): Entry {
    var tail := FromHash(v);
    if tail.None? then e.(kernelLabel := Some(v), kernel := Some(v))
    else e.(kernelLabel := Some(v), kernel := Some(v[..|v| - |tail.value|]), config := tail)
  }

  /** The text after the first occurrence of "initrd=", if there is one. */
  function AfterInitrd(s: string): Option<string> {
    if |s| < 7 then None else if s[..7] == "initrd=" then Some(s[7..]) else AfterInitrd(s[1..])
  }

  function ToSpace(s: string): Option<string> {
    if s == "" then None
    else if s[0] == ' ' then Some("")
    else
      var rest := ToSpace(s[1..]);
      if rest.None? then None else Some([s[0]] + rest.value)
  }

  /** An initial ramdisk named in the kernel arguments counts unless one is set already. */
  function WithAppend(e: Entry, v: string): Result<Entry, Error> {
    var e' := e.(append := Some(v));
    if e.initrd.Some? then Ok(e')
    else
      var found := AfterInitrd(v);
      if found.None? then Ok(e')
      else
        var name := ToSpace(found.value);
        if name.None? then Err(Undefined) else Ok(e'.(initrd := name))
  }

  // ---------------------------------------------------------------- labels

  /** One turn inside a label: the label ends before this token, or goes on with these values. */
  datatype Turn = Stop | Next(e: Entry, d: Option<string>, log: seq<Event>, rest: string) | Fail(error: Error)

  function LabelMenu(e: Entry, d: Option<string>, s: string): (r: Turn)
    ensures r != Stop
    ensures r.Next? ==> |r.rest| <= |s|
  {
    var (t, c) := GetToken(s, Keyword);
    if t == Default then
      Next(e, if d.None? then Some(e.name) else d, [MenuDefault(e.name)], SkipLine(c.rest))
    else if t == Label then
      var (v, c') := ParseLiteral(c.rest);
      var rest := ToLineEnd(c');
      if rest.Err? then Fail(rest.error)
      else Next(if v.Some? then e.(menu := v) else e, d, [], rest.value)
    else
      var rest := ToLineEnd(c);
      if rest.Err? then Fail(rest.error) else Next(e, d, [], rest.value)
  }

  /** Fields that take the first value they are given and do not even read a second one. */
  function FirstWins(e: Entry, t: Token): Option<string>
    requires t == Initrd || t == Fdt || t == Fdtdir || t == Fdtoverlays
  {
    match t
    case Initrd => e.initrd
    case Fdt => e.fdt
    case Fdtdir => e.fdtdir
    case Fdtoverlays => e.fdtoverlays
  }

  /** A label's entry with the value of a keyword stored in it. */
  function Stored(e: Entry, t: Token, v: string): Result<Entry, Error> {
    match t
    case Kernel => Ok(WithKernel(e, v))
    case Linux => Ok(WithKernel(e, v))
    case Append => WithAppend(e, v)
    case Initrd => Ok(e.(initrd := Some(v)))
    case Fdt => Ok(e.(fdt := Some(v)))
    case Fdtdir => Ok(e.(fdtdir := Some(v)))
    case Fdtoverlays => Ok(e.(fdtoverlays := Some(v)))
    case Localboot => Ok(e.(localboot := true, localbootVal := Integer(v)))
    case Ipappend => Ok(e.(ipappend := Integer(v)))
    case _ => Err(Invalid)
  }

  predicate TakesValue(t: Token) {
    t in {Kernel, Linux, Append, Initrd, Fdt, Fdtdir, Fdtoverlays, Localboot, Ipappend}
  }

  function LabelTurn(e: Entry, d: Option<string>, s: string): (r: Turn)
    ensures r.Next? ==> |r.rest| < |s|
  {
    var (t, c) := GetToken(s, Keyword);
    if t == Menu then LabelMenu(e, d, c.rest)
    else if t == Eol then Next(e, d, [], c.rest)
    else if t == Kaslrseed then Next(e.(kaslrseed := true), d, [], c.rest)
    else if !TakesValue(t) then Stop
    else if t in {Initrd, Fdt, Fdtdir, Fdtoverlays} && FirstWins(e, t).Some? then Next(e, d, [], c.rest)
    else
      var (v, c') := ParseLiteral(c.rest);
      if v.None? then
        if t == Append && e.append.None? && e.initrd.None? then Fail(Undefined) else Fail(Invalid)
      else
        var e' := Stored(e, t, v.value);
        if e'.Err? then Fail(e'.error) else Next(e'.value, d, [], c'.rest)
  }

  datatype Body = Body(e: Entry, d: Option<string>, log: seq<Event>, rest: string)

  /** A label up to the token that ends it; that token is left for the caller. */
  function LabelBody(e: Entry, d: Option<string>, log: seq<Event>, s: string): (r: Result<Body, Error>)
    ensures r.Ok? ==> |r.value.rest| <= |s|
    decreases |s|
  {
    match LabelTurn(e, d, s)
    case Stop => Ok(Body(e, d, log, s))
    case Fail(error) => Err(error)
    case Next(e', d', more, rest) => LabelBody(e', d', log + more, rest)
  }

  // ---------------------------------------------------------------- files

  /** The menu so far and the events that decide its default label. */
  datatype State = State(cfg: Config, log: seq<Event>)

  datatype Step = Finished | Going(st: State, rest: string) | Failed(error: Error)

  function ParseLabel(st: State, s: string): (r: Step)
    ensures r != Finished
    ensures r.Going? ==> |r.rest| <= |s|
  {
    var (name, c) := ParseLiteral(s);
    if name.None? then Failed(Invalid)
    else
      match LabelBody(NewEntry(name.value), st.cfg.defaultLabel, st.log, c.rest)
      case Err(error) => Failed(error)
      case Ok(b) =>
        Going(State(st.cfg.(labels := st.cfg.labels + [b.e], defaultLabel := b.d), b.log), b.rest)
  }

  /** Reads the included file and parses it one level deeper. */
  function HandleInclude(files: Files, st: State, s: string, nest: nat): (r: Step)
    requires nest <= MAX_NEST_LEVEL + 1
    ensures r != Finished
    ensures r.Going? ==> |r.rest| <= |s|
    decreases MAX_NEST_LEVEL + 1 - nest, 1, 0, 0
  {
    var (path, c) := ParseLiteral(s);
    if path.None? then Failed(Invalid)
    else if path.value !in files then Failed(NoFile)
    else
      match ParseFile(files, st, files[path.value], nest)
      case Err(error) => Failed(error)
      case Ok(st') => Going(st', c.rest)
  }

  function MenuStatement(files: Files, st: State, s: string, nest: nat): (r: Step)
    requires nest <= MAX_NEST_LEVEL
    ensures r != Finished
    ensures r.Going? ==> |r.rest| <= |s|
    decreases MAX_NEST_LEVEL + 1 - nest, 0, |s|, 0
  {
    var (t, c) := GetToken(s, Keyword);
    if t == Title || t == Background then
      var (v, c') := ParseLiteral(c.rest);
      if v.None? then Failed(Invalid)
      else
        var cfg := if t == Title then st.cfg.(title := v) else st.cfg.(bmp := v);
        Going(st.(cfg := cfg), SkipLine(c'.rest))
    else if t == Include then
      match HandleInclude(files, st, c.rest, nest + 1)
      case Going(st', rest) => Going(st', SkipLine(rest))
      case Failed(error) => Failed(error)
    else
      var rest := ToLineEnd(c);
      if rest.Err? then Failed(rest.error) else Going(st, rest.value)
  }

  /** A timeout or a prompt.  A prompt without a value looks for the line end once more. */
  function NumberStatement(st: State, s: string, prompt: bool): (r: Step)
    ensures r != Finished
    ensures r.Going? ==> |r.rest| <= |s|
  {
    var (v, c) := ParseLiteral(s);
    if v.None? then Failed(if prompt && c.Past? then Overrun else Invalid)
    else
      var n := Integer(v.value);
      Going(st.(cfg := if prompt then st.cfg.(prompt := n) else st.cfg.(timeout := n)), c.rest)
  }

  predicate IsSetting(t: Token) {
    t == Timeout || t == Prompt || t == Default || t == Ontimeout
  }

  function Setting(st: State, s: string, t: Token): (r: Step)
    ensures r != Finished
    ensures r.Going? ==> |r.rest| <= |s|
  {
    if t == Timeout || t == Prompt then NumberStatement(st, s, t == Prompt) else SetDefaultLabel(st, s)
  }

  function Statement(files: Files, st: State, s: string, nest: nat): (r: Step)
    requires nest <= MAX_NEST_LEVEL
    ensures r.Going? ==> |r.rest| < |s|
    decreases MAX_NEST_LEVEL + 1 - nest, 0, |s|, 1
  {
    var (t, c) := GetToken(s, Keyword);
    if t == Eof then Finished
    else if t == Eol then Going(st, c.rest)
    else if t == Menu then MenuStatement(files, st.(cfg := st.cfg.(prompt := 1)), c.rest, nest)
    else if t == Label then ParseLabel(st, c.rest)
    else if t == Include then HandleInclude(files, st, c.rest, nest + 1)
    else if IsSetting(t) then Setting(st, c.rest, t)
    else Going(st, SkipLine(c.rest))
  }

  /** Without a label the code goes on to use a name that is unset, or released already. */
  function SetDefaultLabel(st: State, s: string): (r: Step)
    ensures r != Finished
    ensures r.Going? ==> |r.rest| <= |s|
  {
    var (v, c) := ParseLiteral(s);
    if v.None? then Failed(Undefined)
    else Going(State(st.cfg.(defaultLabel := v), st.log + [SetDefault(v.value)]), c.rest)
  }

  /** A whole file from here on.  Nesting is limited, so files may even include themselves. */
  function ParseFile(files: Files, st: State, s: string, nest: nat): (r: Result<State, Error>)
    requires nest <= MAX_NEST_LEVEL + 1
    decreases MAX_NEST_LEVEL + 1 - nest, 0, |s|, 2
  {
    if nest > MAX_NEST_LEVEL then Err(TooDeep)
    else
      match Statement(files, st, s, nest)
      case Finished => Ok(st)
      case Failed(error) => Err(error)
      case Going(st', rest) => ParseFile(files, st', rest, nest)
  }

  function Parse(files: Files, text: CString): Result<State, Error> {
    ParseFile(files, State(EMPTY, []), text, 1)
  }
}
