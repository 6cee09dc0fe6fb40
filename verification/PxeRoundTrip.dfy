/** Writing one label as text and parsing the text gives the label back. */
module PxeRoundTrip {
  import opened CStrings
  import opened Results
  import opened PxeLexer
  import opened PxeParser
  import opened PxeTokens
  import opened PxeLines

  /** A line that does nothing inside a label: a remark, or a menu line meant for the whole menu. */
  datatype Junk = Remark(text: string) | MenuOther(w: Word, v: string)

  /** One line of a label: a keyword with a value, the seed flag, a menu title, the default mark, or
    * one that does nothing. */
  datatype Field = Value(w: Word, v: string) | Seed | MenuTitle(v: string) | MenuMark | Stray(junk: Junk)

  datatype Spec = Spec(name: string, fields: seq<Field>)

  // ---------------------------------------------------------------- writing

  /** Text for the rest of a line. */
  predicate OneLine(text: string) {
    '\n' !in text && '\0' !in text
  }

  function Line(w: Word, v: CString): CString {
    WordPlain(w);
    Spelling(w) + (" " + v + "\n")
  }

  function MenuLine(w: Word, v: CString): CString {
    "menu" + (" " + Line(w, v))
  }

  predicate Writable(f: Field) {
    match f
    case Value(w, v) =>
      TakesValue(Meaning(w)) && GoodValue(v) && (Meaning(w) == Append ==> AfterInitrd(v).None?)
    case MenuTitle(v) => GoodValue(v)
    case Stray(Remark(text)) => OneLine(text)
    case Stray(MenuOther(w, v)) => w in {TitleWord, BackgroundWord, IncludeWord} && GoodValue(v)
    case _ => true
  }

  function Written(f: Field): CString
    requires Writable(f)
  {
    match f
    case Value(w, v) => Line(w, v)
    case Seed => "kaslrseed\n"
    case MenuTitle(v) => MenuLine(LabelWord, v)
    case MenuMark => "menu" + (" " + ("default" + "\n"))
    case Stray(Remark(text)) => "#" + text + "\n"
    case Stray(MenuOther(w, v)) => MenuLine(w, v)
  }

  predicate AllWritable(fs: seq<Field>) {
    forall i :: 0 <= i < |fs| ==> Writable(fs[i])
  }

  function WrittenAll(fs: seq<Field>): CString
    requires AllWritable(fs)
  {
    if fs == [] then "" else Written(fs[0]) + WrittenAll(fs[1..])
  }

  /** What a line sets: two lines for one slot would compete. */
  function Slot(f: Field): Token {
    match f
    case Value(w, _) => if Meaning(w) == Linux then Kernel else Meaning(w)
    case Seed => Kaslrseed
    case MenuTitle(_) => Title
    case MenuMark => Default
    case Stray(_) => Eof
  }

  predicate DistinctSlots(fs: seq<Field>) {
    forall i, j :: 0 <= i < j < |fs| ==> fs[i].Stray? || Slot(fs[i]) != Slot(fs[j])
  }

  predicate GoodSpec(sp: Spec) {
    GoodValue(sp.name) && AllWritable(sp.fields) && DistinctSlots(sp.fields)
  }

  function WrittenSpec(sp: Spec): CString
    requires GoodSpec(sp)
  {
    Line(LabelWord, sp.name) + WrittenAll(sp.fields)
  }

  // ---------------------------------------------------------------- what the label should hold

  /** The value some line gives for a slot. */
  function ValueOf(fs: seq<Field>, slot: Token): Option<string> {
    if fs == [] then None
    else
      var f := fs[|fs| - 1];
      if (f.Value? || f.MenuTitle?) && Slot(f) == slot then Some(f.v) else ValueOf(fs[..|fs| - 1], slot)
  }

  function Num(v: Option<string>): int {
    if v.None? then 0 else Integer(v.value)
  }

  /** What the lines of a label say. */
  datatype Values = Values(
    title: Option<string>, append: Option<string>, initrd: Option<string>, fdt: Option<string>,
    fdtdir: Option<string>, fdtoverlays: Option<string>, ipappend: Option<string>,
    localboot: Option<string>, kernel: Option<string>, seed: bool)

  function ValuesOf(fs: seq<Field>): Values {
    Values(ValueOf(fs, Title), ValueOf(fs, Append), ValueOf(fs, Initrd), ValueOf(fs, Fdt), ValueOf(fs, Fdtdir),
           ValueOf(fs, Fdtoverlays), ValueOf(fs, Ipappend), ValueOf(fs, Localboot), ValueOf(fs, Kernel), Seed in fs)
  }

  predicate HoldsAll(e: Entry, name: string, v: Values) {
    && e.name == name && e.menu == v.title && e.append == v.append && e.initrd == v.initrd
    && e.fdt == v.fdt && e.fdtdir == v.fdtdir && e.fdtoverlays == v.fdtoverlays
    && e.ipappend == Num(v.ipappend)
    && e.localboot == v.localboot.Some? && e.localbootVal == Num(v.localboot)
    && e.kaslrseed == v.seed
    && e.kernelLabel == v.kernel && KernelSplit(e, v.kernel)
  }

  /** The entry holds exactly what the lines say, and nothing else. */
  predicate Holds(e: Entry, name: string, fs: seq<Field>) {
    HoldsAll(e, name, ValuesOf(fs))
  }

  /** Kernel and configuration are the kernel text cut before its first '#'. */
  predicate KernelSplit(e: Entry, v: Option<string>) {
    if v.None? then e.kernel.None? && e.config.None?
    else
      && e.kernel.Some? && '#' !in e.kernel.value
      && e.kernel.value + (if e.config.Some? then e.config.value else "") == v.value
      && (e.config.Some? ==> e.config.value != "" && e.config.value[0] == '#')
  }

  // ---------------------------------------------------------------- one line

  function Applied(e: Entry, f: Field): Entry
    requires Writable(f)
  {
    match f
    case Value(w, v) =>
      var r := Stored(e, Meaning(w), v);
      if r.Ok? then r.value else e
    case Seed => e.(kaslrseed := true)
    case MenuTitle(v) => e.(menu := Some(v))
    case _ => e
  }

  function Marks(e: Entry, f: Field): seq<Event> {
    if f == MenuMark then [MenuDefault(e.name)] else []
  }

  function NewDefault(e: Entry, f: Field, d: Option<string>): Option<string> {
    if f == MenuMark && d.None? then Some(e.name) else d
  }

  /** A slot that keeps its first value is still free. */
  predicate Free(e: Entry, f: Field) {
    f.Value? && Meaning(f.w) in {Initrd, Fdt, Fdtdir, Fdtoverlays} ==> FirstWins(e, Meaning(f.w)).None?
  }

  lemma {:induction false} ValueTurn(e: Entry, d: Option<string>, w: Word, v: string, rest: string)
    requires Writable(Value(w, v)) && Free(e, Value(w, v))
    ensures LabelTurn(e, d, Written(Value(w, v)) + rest) == Next(Applied(e, Value(w, v)), d, [], "\n" + rest)
  {
    hide GetToken, Spelling, Meaning, AfterInitrd;
    var line := " " + v + "\n" + rest;
    assert Written(Value(w, v)) + rest == Spelling(w) + line;
    KeywordToken(w, line);
    LiteralToken(v, rest);
  }

  lemma {:induction false} SeedTurn(e: Entry, d: Option<string>, rest: string)
    ensures LabelTurn(e, d, Written(Seed) + rest) == Next(Applied(e, Seed), d, [], "\n" + rest)
  {
    hide GetToken;
    assert Written(Seed) + rest == Spelling(KaslrseedWord) + ("\n" + rest);
    KeywordToken(KaslrseedWord, "\n" + rest);
  }

  lemma {:induction false} LineEndStays(rest: string)
    ensures SkipLine("\n" + rest) == "\n" + rest
  {
  }

  /** The two words a menu line starts with. */
  lemma {:induction false} MenuWords(w: Word, rest: string)
    requires rest != "" && IsSpace(rest[0])
    ensures var tail := " " + (Spelling(w) + rest);
            && GetToken("menu" + tail, Keyword) == (Menu, At(tail))
            && GetToken(tail, Keyword) == (Meaning(w), At(rest))
  {
    hide TokenStart, Split, Lookup, GetToken;
    var tail := " " + (Spelling(w) + rest);
    KeywordToken(MenuWord, tail);
    KeywordToken(w, rest);
    BlanksSkipped(" ", Spelling(w) + rest, Keyword);
  }

  lemma {:induction false} MenuLineIs(w: Word, v: CString, rest: string)
    ensures MenuLine(w, v) + rest == "menu" + (" " + (Spelling(w) + (" " + v + "\n" + rest)))
  {
  }

  lemma {:induction false} MenuTitleTurn(e: Entry, d: Option<string>, v: string, rest: string)
    requires GoodValue(v)
    ensures LabelTurn(e, d, Written(MenuTitle(v)) + rest) == Next(Applied(e, MenuTitle(v)), d, [], "\n" + rest)
  {
    hide GetToken, SkipLine, MenuLine;
    MenuLineIs(LabelWord, v, rest);
    MenuWords(LabelWord, " " + v + "\n" + rest);
    LiteralToken(v, rest);
    LineEndStays(rest);
  }

  lemma {:induction false} MenuMarkTurn(e: Entry, d: Option<string>, rest: string)
    ensures LabelTurn(e, d, Written(MenuMark) + rest)
            == Next(e, NewDefault(e, MenuMark, d), [MenuDefault(e.name)], "\n" + rest)
  {
    hide GetToken, SkipLine;
    assert Written(MenuMark) + rest == "menu" + (" " + (Spelling(DefaultWord) + ("\n" + rest)));
    MenuWords(DefaultWord, "\n" + rest);
    LineEndStays(rest);
  }

  /** A menu line for the whole menu is passed over when a label is still open. */
  lemma {:induction false} MenuOtherTurn(e: Entry, d: Option<string>, w: Word, v: string, rest: string)
    requires Writable(Stray(MenuOther(w, v)))
    ensures LabelTurn(e, d, MenuLine(w, v) + rest) == Next(e, d, [], "\n" + rest)
  {
    hide GetToken, SkipLine, MenuLine;
    var value := " " + v + "\n" + rest;
    MenuLineIs(w, v, rest);
    MenuWords(w, value);
    LiteralToken(v, rest);
    ValueSkipped(v, rest);
  }

  lemma {:induction false} ValueSkipped(v: string, rest: string)
    requires '\n' !in v
    ensures SkipLine(" " + v + "\n" + rest) == "\n" + rest
  {
    hide SkipLine;
    assert " " + v + "\n" + rest == (" " + v) + ("\n" + rest);
    WordSameLine(" " + v, "\n" + rest);
    LineEndStays(rest);
  }

  lemma {:induction false} RemarkToken(text: string, rest: string)
    requires '\n' !in text
    ensures GetToken("#" + text + "\n" + rest, Keyword) == (Eol, At(rest))
  {
    hide SkipLine, Split, Lookup;
    var line := "#" + text;
    assert "#" + text + "\n" + rest == line + ("\n" + rest);
    WordSameLine(line, "\n" + rest);
    LineEndStays(rest);
    assert ("\n" + rest)[1..] == rest;
  }

  /** A written line, followed by its line end, is read as the field it was written from. */
  lemma {:induction false} LineRead(e: Entry, d: Option<string>, log: seq<Event>, f: Field, rest: string)
    requires Writable(f) && Free(e, f)
    ensures LabelBody(e, d, log, Written(f) + rest)
            == LabelBody(Applied(e, f), NewDefault(e, f, d), log + Marks(e, f), rest)
  {
    if f.Stray? && f.junk.Remark? {
      RemarkRead(e, d, log, f.junk.text, rest);
    } else {
      hide GetToken, LabelTurn, Written, Applied;
      match f {
        case Value(w, v) => ValueTurn(e, d, w, v, rest);
        case Seed => SeedTurn(e, d, rest);
        case MenuTitle(v) => MenuTitleTurn(e, d, v, rest);
        case MenuMark => MenuMarkTurn(e, d, rest);
        case Stray(_) => MenuOtherTurn(e, d, f.junk.w, f.junk.v, rest);
      }
      AppliedNothing(e, f);
      LineEnd(Applied(e, f), NewDefault(e, f, d), log + Marks(e, f), rest);
    }
  }

  lemma {:induction false} RemarkRead(e: Entry, d: Option<string>, log: seq<Event>, text: string, rest: string)
    requires OneLine(text)
    ensures LabelBody(e, d, log, "#" + text + "\n" + rest) == LabelBody(e, d, log + [], rest)
  {
    hide GetToken;
    RemarkToken(text, rest);
  }

  lemma {:induction false} AppliedNothing(e: Entry, f: Field)
    requires Writable(f)
    ensures f == MenuMark || f.Stray? ==> Applied(e, f) == e
    ensures f.Stray? && f.junk.MenuOther? ==> Written(f) == MenuLine(f.junk.w, f.junk.v)
  {
  }

  lemma {:induction false} LineEnd(e: Entry, d: Option<string>, log: seq<Event>, rest: string)
    ensures LabelBody(e, d, log, "\n" + rest) == LabelBody(e, d, log, rest)
  {
    hide GetToken;
    EolToken(rest);
    assert log + [] == log;
  }

  // ---------------------------------------------------------------- one label

  lemma {:induction false} NoValue(fs: seq<Field>, slot: Token)
    requires forall i :: 0 <= i < |fs| ==> Slot(fs[i]) != slot
    ensures ValueOf(fs, slot).None?
  {
    if fs != [] { NoValue(fs[..|fs| - 1], slot); }
  }

  lemma {:induction false} ValueSnoc(fs: seq<Field>, f: Field, slot: Token)
    ensures ValueOf(fs + [f], slot)
            == if (f.Value? || f.MenuTitle?) && Slot(f) == slot then Some(f.v) else ValueOf(fs, slot)
  {
    assert (fs + [f])[..|fs|] == fs;
  }

  lemma {:induction false} CutOneLater(v: string, n: nat)
    requires 0 < n <= |v|
    ensures v[..n] == [v[0]] + v[1..][..n - 1] && v[n..] == v[1..][n - 1..] && v == v[..n] + v[n..]
  {
  }

  lemma {:induction false} HashCut(v: string)
    ensures match FromHash(v)
            case None => '#' !in v
            case Some(tail) =>
              && tail != "" && tail[0] == '#' && |tail| <= |v|
              && v[..|v| - |tail|] + tail == v && '#' !in v[..|v| - |tail|]
  {
    if v != "" && v[0] != '#' {
      HashCut(v[1..]);
      var tail := FromHash(v[1..]);
      if tail.Some? {
        CutOneLater(v, |v| - |tail.value|);
      }
    }
  }

  /** Kernel and configuration are the parts of the kernel's text if and only if it names a
    * configuration or none was named before: one that was stays with a later kernel. */
  lemma {:induction false} KernelSplitIff(e: Entry, v: string)
    ensures WithKernel(e, v).kernelLabel == Some(v)
    ensures KernelSplit(WithKernel(e, v), Some(v)) <==> '#' in v || e.config.None?
  {
    HashCut(v);
    if e.config.Some? { assert |v + e.config.value| == |v| + |e.config.value|; }
  }

  /** The values after one more line for a slot. */
  function With(v: Values, slot: Token, text: string): Values {
    v.(title := if slot == Title then Some(text) else v.title,
       append := if slot == Append then Some(text) else v.append,
       initrd := if slot == Initrd then Some(text) else v.initrd,
       fdt := if slot == Fdt then Some(text) else v.fdt,
       fdtdir := if slot == Fdtdir then Some(text) else v.fdtdir,
       fdtoverlays := if slot == Fdtoverlays then Some(text) else v.fdtoverlays,
       ipappend := if slot == Ipappend then Some(text) else v.ipappend,
       localboot := if slot == Localboot then Some(text) else v.localboot,
       kernel := if slot == Kernel then Some(text) else v.kernel)
  }

  lemma {:induction false} ValuesSnoc(fs: seq<Field>, f: Field)
    ensures f.Value? || f.MenuTitle? ==> ValuesOf(fs + [f]) == With(ValuesOf(fs), Slot(f), f.v)
    ensures f == Seed ==> ValuesOf(fs + [f]) == ValuesOf(fs).(seed := true)
    ensures f == MenuMark || f.Stray? ==> ValuesOf(fs + [f]) == ValuesOf(fs)
  {
    hide Slot, ValueOf;
    ValueSnoc(fs, f, Title);
    ValueSnoc(fs, f, Append);
    ValueSnoc(fs, f, Initrd);
    ValueSnoc(fs, f, Fdt);
    ValueSnoc(fs, f, Fdtdir);
    ValueSnoc(fs, f, Fdtoverlays);
    ValueSnoc(fs, f, Ipappend);
    ValueSnoc(fs, f, Localboot);
    ValueSnoc(fs, f, Kernel);
    assert Seed in fs + [f] <==> f == Seed || Seed in fs;
  }

  lemma {:induction false} KernelStored(e: Entry, name: string, v: Values, t: Token, text: string)
    requires HoldsAll(e, name, v) && (t == Kernel || t == Linux) && v.kernel.None?
    ensures Stored(e, t, text).Ok? && HoldsAll(Stored(e, t, text).value, name, With(v, Kernel, text))
  {
    hide WithKernel;
    KernelSplitIff(e, text);
    KernelOnly(e, text);
  }

  lemma {:induction false} HoldsValue(e: Entry, name: string, fs: seq<Field>, f: Field, t: Token)
    requires Holds(e, name, fs) && f.Value? && TakesValue(t) && Slot(f) == if t == Linux then Kernel else t
    requires t == Append ==> AfterInitrd(f.v).None?
    requires forall i :: 0 <= i < |fs| ==> Slot(fs[i]) != Slot(f)
    ensures Stored(e, t, f.v).Ok? && Holds(Stored(e, t, f.v).value, name, fs + [f])
  {
    hide ValuesOf, HoldsAll, Stored, With, Slot;
    ValuesSnoc(fs, f);
    if Slot(f) == Kernel {
      NoValue(fs, Kernel);
      KernelUnset(fs);
      KernelStored(e, name, ValuesOf(fs), t, f.v);
    } else {
      StoredKept(e, name, ValuesOf(fs), t, f.v);
    }
  }

  lemma {:induction false} KernelUnset(fs: seq<Field>)
    ensures ValuesOf(fs).kernel == ValueOf(fs, Kernel)
  {
  }

  lemma {:induction false} StoredKept(e: Entry, name: string, v: Values, t: Token, text: string)
    requires HoldsAll(e, name, v) && TakesValue(t) && t != Kernel && t != Linux
    requires t == Append ==> AfterInitrd(text).None?
    ensures Stored(e, t, text).Ok? && HoldsAll(Stored(e, t, text).value, name, With(v, t, text))
  {
    hide AfterInitrd, Integer, KernelSplit;
    SplitKept(e, Stored(e, t, text).value, v.kernel);
  }

  /** Applying one more line adds exactly its value. */
  lemma {:induction false} HoldsSnoc(e: Entry, name: string, fs: seq<Field>, f: Field)
    requires Holds(e, name, fs) && Writable(f)
    requires f.Stray? || forall i :: 0 <= i < |fs| ==> Slot(fs[i]) != Slot(f)
    ensures Holds(Applied(e, f), name, fs + [f])
  {
    hide Holds, Stored, AfterInitrd, Meaning;
    if f.Value? {
      HoldsValue(e, name, fs, f, Meaning(f.w));
    } else {
      HoldsFlag(e, name, fs, f);
    }
  }

  lemma {:induction false} HoldsFlag(e: Entry, name: string, fs: seq<Field>, f: Field)
    requires Holds(e, name, fs) && Writable(f) && !f.Value?
    ensures Holds(Applied(e, f), name, fs + [f])
  {
    hide ValuesOf, KernelSplit, Stored, Num;
    ValuesSnoc(fs, f);
    SplitKept(e, Applied(e, f), ValuesOf(fs).kernel);
  }

  lemma {:induction false} SplitKept(e: Entry, e': Entry, v: Option<string>)
    requires e'.kernel == e.kernel && e'.config == e.config
    ensures KernelSplit(e, v) <==> KernelSplit(e', v)
  {
  }

  lemma {:induction false} KernelOnly(e: Entry, v: string)
    ensures WithKernel(e, v) == e.(kernelLabel := WithKernel(e, v).kernelLabel,
                                   kernel := WithKernel(e, v).kernel, config := WithKernel(e, v).config)
  {
  }

  lemma {:induction false} SlotFree(e: Entry, name: string, fs: seq<Field>, f: Field)
    requires Holds(e, name, fs) && (f.Stray? || forall i :: 0 <= i < |fs| ==> Slot(fs[i]) != Slot(f))
    ensures Free(e, f)
  {
    hide Meaning;
    if !f.Stray? { NoValue(fs, Slot(f)); }
  }

  function MarkLog(name: string, fs: seq<Field>): seq<Event> {
    if MenuMark in fs then [MenuDefault(name)] else []
  }

  /** The lines still to come are read into an entry that holds all lines. */
  lemma {:induction false} FieldsRead(name: string, done: seq<Field>, todo: seq<Field>, e: Entry,
                                      d: Option<string>, log: seq<Event>, rest: string)
      returns (e': Entry)
    requires AllWritable(todo) && DistinctSlots(done + todo) && Holds(e, name, done)
    ensures Holds(e', name, done + todo)
    ensures LabelBody(e, d, log, WrittenAll(todo) + rest)
            == LabelBody(e', if MenuMark in todo && d.None? then Some(name) else d, log + MarkLog(name, todo), rest)
    decreases |todo|
  {
    hide LabelBody, Holds, Written, Applied, DistinctSlots, NewDefault, Marks, MarkLog;
    if todo == [] {
      NoMarks(name);
      assert done + todo == done && WrittenAll(todo) + rest == rest && log + MarkLog(name, todo) == log;
      e' := e;
    } else {
      var f, later := todo[0], todo[1..];
      FieldRead(name, done, todo, e, d, log, rest);
      assert done + [f] + later == done + todo;
      e' := FieldsRead(name, done + [f], later, Applied(e, f), NewDefault(e, f, d), log + Marks(e, f), rest);
      MarkStep(name, done, todo, e, d, log);
    }
  }

  lemma {:induction false} FieldRead(name: string, done: seq<Field>, todo: seq<Field>, e: Entry,
                                     d: Option<string>, log: seq<Event>, rest: string)
    requires todo != [] && AllWritable(todo) && DistinctSlots(done + todo) && Holds(e, name, done)
    ensures e.name == name && Holds(Applied(e, todo[0]), name, done + [todo[0]])
    ensures LabelBody(e, d, log, WrittenAll(todo) + rest)
            == LabelBody(Applied(e, todo[0]), NewDefault(e, todo[0], d), log + Marks(e, todo[0]),
                         WrittenAll(todo[1..]) + rest)
  {
    hide LabelBody, Holds, Written, Applied, DistinctSlots, NewDefault, Marks;
    var f, later := todo[0], todo[1..];
    SlotsApart(done, todo);
    HoldsName(e, name, done);
    SlotFree(e, name, done, f);
    HoldsSnoc(e, name, done, f);
    assert WrittenAll(todo) + rest == Written(f) + (WrittenAll(later) + rest);
    LineRead(e, d, log, f, WrittenAll(later) + rest);
  }

  lemma {:induction false} MarkStep(name: string, done: seq<Field>, todo: seq<Field>, e: Entry, d: Option<string>,
                                    log: seq<Event>)
    requires todo != [] && DistinctSlots(done + todo) && e.name == name
    ensures log + Marks(e, todo[0]) + MarkLog(name, todo[1..]) == log + MarkLog(name, todo)
    ensures var d' := NewDefault(e, todo[0], d);
            (if MenuMark in todo[1..] && d'.None? then Some(name) else d')
            == if MenuMark in todo && d.None? then Some(name) else d
  {
    hide DistinctSlots;
    MarkOnce(done, todo);
  }

  lemma {:induction false} NoMarks(name: string)
    ensures MarkLog(name, []) == []
  {
  }

  lemma {:induction false} HoldsName(e: Entry, name: string, fs: seq<Field>)
    requires Holds(e, name, fs)
    ensures e.name == name
  {
  }

  lemma {:induction false} SlotsApart(done: seq<Field>, todo: seq<Field>)
    requires todo != [] && DistinctSlots(done + todo)
    ensures todo[0].Stray? || forall i :: 0 <= i < |done| ==> Slot(done[i]) != Slot(todo[0])
  {
    hide Slot;
    var all := done + todo;
    if !todo[0].Stray? {
      forall i | 0 <= i < |done| ensures Slot(done[i]) != Slot(todo[0]) {
        assert all[i] == done[i] && all[|done|] == todo[0];
        if done[i].Stray? { OnlyStrays(done[i]); OnlyStrays(todo[0]); }
      }
    }
  }

  lemma {:induction false} OnlyStrays(f: Field)
    ensures Slot(f) == Eof <==> f.Stray?
  {
    if f.Value? { NoWordIsText(f.w); }
  }

  lemma {:induction false} MarkOnce(done: seq<Field>, todo: seq<Field>)
    requires todo != [] && DistinctSlots(done + todo)
    ensures todo[0] == MenuMark ==> MenuMark !in todo[1..]
    ensures MenuMark in todo <==> todo[0] == MenuMark || MenuMark in todo[1..]
  {
    var all := done + todo;
    forall i | 0 < i < |todo| && todo[0] == MenuMark ensures Slot(todo[i]) != Slot(todo[0]) {
      assert all[|done|] == todo[0] && all[|done| + i] == todo[i];
    }
    assert todo == [todo[0]] + todo[1..];
  }

  // ---------------------------------------------------------------- whole files

  /** Here a label ends: the next token is none of a label's own. */
  predicate LabelEnds(rest: string) {
    !Handled(GetToken(rest, Keyword).0)
  }

  lemma {:induction false} BodyStops(e: Entry, d: Option<string>, log: seq<Event>, rest: string)
    requires LabelEnds(rest)
    ensures LabelBody(e, d, log, rest) == Ok(Body(e, d, log, rest))
  {
    hide GetToken, Handled, LabelTurn;
    TurnStopsIff(e, d, rest);
  }

  lemma {:induction false} LabelLine(files: Files, st: State, name: string, body: string, nest: nat)
    requires nest <= MAX_NEST_LEVEL && GoodValue(name)
    ensures Statement(files, st, Line(LabelWord, name) + body, nest)
            == match LabelBody(NewEntry(name), st.cfg.defaultLabel, st.log, "\n" + body)
               case Err(error) => Failed(error)
               case Ok(b) =>
                 Going(State(st.cfg.(labels := st.cfg.labels + [b.e], defaultLabel := b.d), b.log), b.rest)
  {
    hide GetToken, LabelBody, LabelTurn;
    var value := " " + name + "\n" + body;
    assert Line(LabelWord, name) + body == Spelling(LabelWord) + value;
    KeywordToken(LabelWord, value);
    LiteralToken(name, body);
  }

  /** A second ramdisk, device tree, device tree directory or overlay list does not even have its
    * value read: the value stands where the next keyword should, and ends the label unless it
    * happens to be a keyword of a label. */
  lemma {:induction false} RepeatedValue(e: Entry, d: Option<string>, log: seq<Event>, w: Word, v: string, rest: string)
    requires Writable(Value(w, v)) && !Free(e, Value(w, v))
    ensures var left := " " + v + "\n" + rest;
            && LabelTurn(e, d, Line(w, v) + rest) == Next(e, d, [], left)
            && (LabelTurn(e, d, left) == Stop <==> LabelEnds(left))
            && (LabelEnds(left) ==> LabelBody(e, d, log, Line(w, v) + rest) == Ok(Body(e, d, log, left)))
  {
    hide GetToken, Spelling, Meaning, Handled, LabelMenu, Stored;
    var left := " " + v + "\n" + rest;
    assert Line(w, v) + rest == Spelling(w) + left;
    KeywordToken(w, left);
    assert log + [] == log;
    TurnStopsIff(e, d, left);
    if LabelEnds(left) { BodyStops(e, d, log, left); }
  }

  /** A second device tree named "b" ends the label: nothing of it is stored. */
  lemma {:induction false} SecondTreeEnds(e: Entry, d: Option<string>, log: seq<Event>, rest: string)
    requires e.fdt.Some?
    ensures LabelBody(e, d, log, "fdt b\n" + rest) == Ok(Body(e, d, log, " b\n" + rest))
  {
    hide GetToken, LabelBody, LabelTurn, Lookup, Lowered;
    assert Line(FdtWord, "b") + rest == "fdt b\n" + rest;
    assert " " + "b" + "\n" + rest == " b\n" + rest;
    assert " " + ("b" + ("\n" + rest)) == " b\n" + rest;
    BlanksSkipped(" ", "b" + ("\n" + rest), Keyword);
    PlainToken("b", "\n" + rest);
    assert forall w :: |Spelling(w)| > 1;
    LookupExact("b");
    RepeatedValue(e, d, log, FdtWord, "b", rest);
  }

  /** A written label is read back, whatever label or end follows it. */
  lemma {:induction false} SpecRead(files: Files, st: State, sp: Spec, rest: string, nest: nat) returns (e: Entry)
    requires nest <= MAX_NEST_LEVEL && GoodSpec(sp) && LabelEnds(rest)
    ensures Holds(e, sp.name, sp.fields)
    ensures Statement(files, st, WrittenSpec(sp) + rest, nest)
            == Going(State(st.cfg.(labels := st.cfg.labels + [e],
                                   defaultLabel := if MenuMark in sp.fields && st.cfg.defaultLabel.None?
                                                   then Some(sp.name) else st.cfg.defaultLabel),
                           st.log + MarkLog(sp.name, sp.fields)),
                     rest)
  {
    hide Statement, LabelBody, Holds, Written, DistinctSlots, LabelEnds, MarkLog;
    var body := WrittenAll(sp.fields) + rest;
    LabelLine(files, st, sp.name, body, nest);
    assert WrittenSpec(sp) + rest == Line(LabelWord, sp.name) + body;
    assert [] + sp.fields == sp.fields;
    NothingHeld(sp.name);
    e := FieldsRead(sp.name, [], sp.fields, NewEntry(sp.name), st.cfg.defaultLabel, st.log, rest);
    LineEnd(NewEntry(sp.name), st.cfg.defaultLabel, st.log, body);
    BodyStops(e, if MenuMark in sp.fields && st.cfg.defaultLabel.None? then Some(sp.name) else st.cfg.defaultLabel,
              st.log + MarkLog(sp.name, sp.fields), rest);
  }

  lemma {:induction false} NothingHeld(name: string)
    ensures Holds(NewEntry(name), name, [])
  {
  }
}
