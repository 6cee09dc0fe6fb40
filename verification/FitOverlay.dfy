/** Loading a device tree from a FIT: the loop that applies overlays. */
module FitOverlay {
  import opened Results
  import opened CStrings

  /** The fdt list of each configuration; a configuration that is not there has none. */
  type Configs = map<string, seq<string>>

  function Fdts(configs: Configs, name: string): seq<string> {
    if name in configs then configs[name] else []
  }

  /** An overlay is asked for by image name, or as the first one of a configuration. */
  datatype Attempt = ByName(uname: string) | ByConfig(uconfig: string)

  /** How an attempt went: not loaded and skipped, applied, or loaded and refused. */
  datatype Outcome = Skipped | Applied | Refused

  type Env = nat -> Outcome

  // ---------------------------------------------------------------- cutting the argument at '#'

  /** The text before the first '#', and what follows it if there is one. */
  function Cut(s: string): (r: (string, Option<string>))
    ensures r.1.Some? ==> |r.1.value| < |s|
  {
    if s == "" then ("", None)
    else if s[0] == '#' then ("", Some(s[1..]))
    else
      var (head, rest) := Cut(s[1..]);
      ([s[0]] + head, rest)
  }

  /** All pieces between '#' marks; empty ones count. */
  function Pieces(s: string): seq<string>
    decreases |s|
  {
    var (head, rest) := Cut(s);
    [head] + if rest.None? then [] else Pieces(rest.value)
  }

  function Joined(pieces: seq<string>): string
    requires pieces != []
  {
    if |pieces| == 1 then pieces[0] else pieces[0] + "#" + Joined(pieces[1..])
  }

  lemma {:induction false} CutRejoins(s: string)
    ensures '#' !in Cut(s).0
    ensures s == Cut(s).0 + if Cut(s).1.None? then "" else "#" + Cut(s).1.value
  {
    if s != "" && s[0] != '#' { CutRejoins(s[1..]); }
  }

  /** The pieces hold no mark and, joined by marks, give the text back. */
  lemma {:induction false} PiecesRejoin(s: string)
    ensures Pieces(s) != [] && Joined(Pieces(s)) == s
    ensures forall i :: 0 <= i < |Pieces(s)| ==> '#' !in Pieces(s)[i]
    decreases |s|
  {
    hide Cut;
    CutRejoins(s);
    var (head, rest) := Cut(s);
    if rest.Some? {
      PiecesRejoin(rest.value);
      assert Pieces(s)[1..] == Pieces(rest.value);
      assert head + "#" + rest.value == head + ("#" + rest.value);
    }
  }

  // ---------------------------------------------------------------- what should be attempted

  function Names(fdts: seq<string>, i: nat): seq<Attempt>
    decreases |fdts| - i
  {
    if i >= |fdts| then [] else [ByName(fdts[i])] + Names(fdts, i + 1)
  }

  lemma {:induction false} NamesAt(fdts: seq<string>, i: nat, k: nat)
    requires i <= k < |fdts|
    ensures |Names(fdts, i)| == |fdts| - i && Names(fdts, i)[k - i] == ByName(fdts[k])
    decreases |fdts| - i
  {
    if i + 1 == |fdts| {
      assert Names(fdts, i + 1) == [];
    } else {
      NamesAt(fdts, i + 1, if i < k then k else k + 1);
    }
  }

  /** Each extra configuration: its first overlay through the configuration, the others by name. */
  function Extras(configs: Configs, names: seq<string>): seq<Attempt> {
    if names == [] then []
    else [ByConfig(names[0])] + (Names(Fdts(configs, names[0]), 1) + Extras(configs, names[1..]))
  }

  /** The rest of the base configuration's list, and then every extra configuration's list. */
  function Plan(configs: Configs, fdts: seq<string>, i: nat, rest: Option<string>): seq<Attempt> {
    Names(fdts, i) + if rest.None? then [] else Extras(configs, Pieces(rest.value))
  }

  /** No attempt among the first `n` was refused. */
  predicate NoneRefused(env: Env, n: nat) {
    forall t: nat :: t < n ==> env(t) != Refused
  }

  /** The base list starts at its second entry: the first one is the tree itself. */
  method ApplyOverlays(configs: Configs, base: string, extra: Option<string>, env: Env)
    returns (attempts: seq<Attempt>, ok: bool)
    ensures attempts <= Plan(configs, Fdts(configs, base), 1, extra)
    ensures ok ==> attempts == Plan(configs, Fdts(configs, base), 1, extra)
    ensures ok <==> NoneRefused(env, |attempts|)
    ensures !ok ==> attempts != [] && NoneRefused(env, |attempts| - 1) && env(|attempts| - 1) == Refused
  {
    hide Plan, Cut;
    attempts, ok := [], true;
    var fdts, i, next := Fdts(configs, base), 1, extra;
    while true
      invariant i >= 1
      invariant attempts + Plan(configs, fdts, i, next) == Plan(configs, Fdts(configs, base), 1, extra)
      invariant NoneRefused(env, |attempts|)
      decreases if next.Some? then 1 + |next.value| else 0, |fdts| - i
    {
      var attempt;
      if i < |fdts| {
        TakeName(configs, fdts, i, next);
        attempt := ByName(fdts[i]);
        i := i + 1;
      } else {
        if next.None? {
          break;
        }
        var (uconfig, rest) := Cut(next.value);
        StartExtra(configs, fdts, i, next.value);
        attempt := ByConfig(uconfig);
        next := rest;
        fdts := Fdts(configs, uconfig);
        i := 1;
      }
      ghost var before := attempts;
      var t := |attempts|;
      attempts := attempts + [attempt];
      assert before + ([attempt] + Plan(configs, fdts, i, next)) == attempts + Plan(configs, fdts, i, next);
      if env(t) == Refused {
        ok := false;
        return;
      }
    }
    NothingLeft(configs, fdts, i);
  }

  lemma {:induction false} StartExtra(configs: Configs, fdts: seq<string>, i: nat, next: string)
    requires i >= |fdts|
    ensures var (uconfig, rest) := Cut(next);
            Plan(configs, fdts, i, Some(next)) == [ByConfig(uconfig)] + Plan(configs, Fdts(configs, uconfig), 1, rest)
  {
    hide Cut, Names, Fdts;
    var (uconfig, rest) := Cut(next);
    var later := if rest.None? then [] else Pieces(rest.value);
    assert Names(fdts, i) == [] by { NoNames(fdts, i); }
    ExtrasCons(configs, uconfig, later);
    assert Pieces(next) == [uconfig] + later;
    assert rest.None? ==> Extras(configs, later) == [];
  }

  lemma {:induction false} NoNames(fdts: seq<string>, i: nat)
    requires i >= |fdts|
    ensures Names(fdts, i) == []
  {
  }

  lemma {:induction false} ExtrasCons(configs: Configs, name: string, later: seq<string>)
    ensures Extras(configs, [name] + later)
            == [ByConfig(name)] + (Names(Fdts(configs, name), 1) + Extras(configs, later))
  {
    assert ([name] + later)[1..] == later;
  }

  lemma {:induction false} TakeName(configs: Configs, fdts: seq<string>, i: nat, next: Option<string>)
    requires i < |fdts|
    ensures Plan(configs, fdts, i, next) == [ByName(fdts[i])] + Plan(configs, fdts, i + 1, next)
  {
  }

  lemma {:induction false} NothingLeft(configs: Configs, fdts: seq<string>, i: nat)
    requires i >= |fdts|
    ensures Plan(configs, fdts, i, None) == []
  {
  }

  // ---------------------------------------------------------------- the argument itself

  lemma {:induction false} CutIs(head: string, rest: string)
    requires '#' !in head
    ensures Cut(head) == (head, None) && Cut(head + "#" + rest) == (head, Some(rest))
  {
    if head == "" {
      assert head + "#" + rest == "#" + rest;
      assert ("#" + rest)[1..] == rest;
    } else {
      assert (head + "#" + rest)[1..] == head[1..] + "#" + rest;
      assert head == [head[0]] + head[1..];
      CutIs(head[1..], rest);
    }
  }

  /** Names without a mark, joined by marks, are the pieces of the result: nothing is merged. */
  lemma {:induction false} JoinedSplits(names: seq<string>)
    requires names != [] && forall i :: 0 <= i < |names| ==> '#' !in names[i]
    ensures Pieces(Joined(names)) == names
    decreases |names|
  {
    hide Cut;
    if |names| == 1 {
      CutIs(names[0], "");
      assert names == [names[0]];
    } else {
      CutIs(names[0], Joined(names[1..]));
      JoinedSplits(names[1..]);
      assert names == [names[0]] + names[1..];
    }
  }

  /** Cuts a copy of the argument in place.  What stays in front is the first piece; the pieces from
    * `next` on are the others.  The first one names the base unless it is empty before a mark: then
    * the default configuration is meant. */
  method SplitArgument(copy: array<char>) returns (named: bool, next: Option<nat>)
    requires '\0' in copy[..]
    modifies copy
    ensures var arg := Text(old(copy[..]));
            && Pieces(arg) != [] && Text(copy[..]) == Pieces(arg)[0]
            && (next.None? <==> |Pieces(arg)| == 1)
            && (next.Some? ==> next.value < copy.Length && Pieces(Text(copy[next.value..])) == Pieces(arg)[1..])
            && (named <==> Pieces(arg)[0] != "" || |Pieces(arg)| == 1)
  {
    hide Cut, Text;
    TextEnds(copy[..]);
    ghost var arg := Text(copy[..]);
    var i := 0;
    while copy[i] != '\0' && copy[i] != '#'
      invariant i <= |arg| && copy[..] == old(copy[..])
      invariant forall j :: 0 <= j < i ==> copy[j] != '#'
      decreases |arg| - i
    {
      assert i < |arg|;
      i := i + 1;
    }
    PiecesRejoin(arg);
    if copy[i] == '\0' {
      assert arg == copy[..i];
      CutIs(arg, "");
      return true, None;
    }
    var rest := copy[i + 1..];
    assert arg[i] == copy[i];
    assert arg == arg[..i] + "#" + arg[i + 1..];
    CutIs(arg[..i], arg[i + 1..]);
    copy[i] := '\0';
    assert copy[..i] == arg[..i] && copy[i + 1..] == rest;
    TextIsPrefix(copy[..], i);
    assert rest[..|arg| - i - 1] == arg[i + 1..] && rest[|arg| - i - 1] == '\0';
    TextIsPrefix(rest, |arg| - i - 1);
    return i > 0, Some(i + 1);
  }

  /** Whatever names are joined into an argument, the plan made from it is the base's list from its
    * second entry on, and then the list of each extra configuration. */
  lemma {:induction false} ArgumentPlan(configs: Configs, base: string, extras: seq<string>)
    requires '#' !in base && forall i :: 0 <= i < |extras| ==> '#' !in extras[i]
    ensures var (head, rest) := Cut(Joined([base] + extras));
            && head == base
            && Plan(configs, Fdts(configs, head), 1, rest) == Names(Fdts(configs, base), 1) + Extras(configs, extras)
  {
    hide Cut, Names, Extras, Fdts;
    var names := [base] + extras;
    assert names[1..] == extras;
    if extras == [] {
      CutIs(base, "");
      NoExtras(configs);
    } else {
      CutIs(base, Joined(extras));
      JoinedSplits(extras);
    }
  }

  lemma {:induction false} NoExtras(configs: Configs)
    ensures Extras(configs, []) == []
  {
  }

  /** What an argument asks for: its first piece, or the default configuration, and the others. */
  function Asked(configs: Configs, pieces: seq<string>, dflt: string): seq<Attempt>
    requires pieces != []
  {
    var base := if pieces[0] != "" || |pieces| == 1 then pieces[0] else dflt;
    Names(Fdts(configs, base), 1) + Extras(configs, pieces[1..])
  }

  /** Cuts the argument and applies what it asks for. */
  method ApplyArgument(copy: array<char>, configs: Configs, dflt: string, env: Env)
    returns (attempts: seq<Attempt>, ok: bool)
    requires '\0' in copy[..]
    modifies copy
    ensures var pieces := Pieces(Text(old(copy[..])));
            && pieces != [] && attempts <= Asked(configs, pieces, dflt)
            && (ok ==> attempts == Asked(configs, pieces, dflt))
            && (ok <==> NoneRefused(env, |attempts|))
  {
    hide Names, Extras, Fdts, Text, Pieces, NoneRefused;
    ghost var pieces := Pieces(Text(copy[..]));
    var named, next := SplitArgument(copy);
    var base := if named then Text(copy[..]) else dflt;
    var extra := if next.Some? then Some(Text(copy[next.value..])) else None;
    if next.None? {
      assert pieces[1..] == [];
      NoExtras(configs);
    }
    attempts, ok := ApplyOverlays(configs, base, extra, env);
  }
}
