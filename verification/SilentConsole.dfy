/** Silencing the kernel console: rewriting a command line inside one buffer. */
module SilentConsole {
  import opened Results
  import opened CStrings
  import opened MemmoveWd

  const CONSOLE_ARG := "console="
  const NULL_CONSOLE := "console=ttynull"
  const CONSOLE_ARG_SIZE := 16

  // ---------------------------------------------------------------- the rewrite on strings

  predicate OccursAt(s: string, sub: string, i: nat) {
    i + |sub| <= |s| && s[i..i + |sub|] == sub
  }

  /** The first occurrence of `sub` at `i` or later. */
  function Find(s: string, sub: string, i: nat): (r: Option<nat>)
    ensures r.Some? ==> i <= r.value && OccursAt(s, sub, r.value)
    ensures r.Some? ==> forall j :: i <= j < r.value ==> !OccursAt(s, sub, j)
    ensures r.None? ==> forall j :: i <= j ==> !OccursAt(s, sub, j)
    decreases |s| - i
  {
    if i + |sub| > |s| then None
    else if OccursAt(s, sub, i) then Some(i)
    else Find(s, sub, i + 1)
  }

  /** The first space at `i` or later, or the end. */
  function NextSpace(s: string, i: nat): (r: nat)
    requires i <= |s|
    ensures i <= r <= |s|
    ensures r < |s| ==> s[r] == ' '
    ensures forall j :: i <= j < r ==> s[j] != ' '
    decreases |s| - i
  {
    if i == |s| || s[i] == ' ' then i else NextSpace(s, i + 1)
  }

  /** The first console argument replaced by the null console, or that one appended. */
  function Silenced(s: string): string {
    if s == "" then NULL_CONSOLE
    else
      match Find(s, CONSOLE_ARG, 0)
      case None => s + " " + NULL_CONSOLE
      case Some(i) => s[..i] + NULL_CONSOLE + s[NextSpace(s, i)..]
  }

  lemma {:induction false} FindIs(s: string, sub: string, i: nat)
    requires OccursAt(s, sub, i) && forall j :: 0 <= j < i ==> !OccursAt(s, sub, j)
    ensures Find(s, sub, 0) == Some(i)
  {
  }

  lemma {:induction false} NextSpaceIs(s: string, i: nat, r: nat)
    requires i <= r <= |s| && (r < |s| ==> s[r] == ' ') && forall j :: i <= j < r ==> s[j] != ' '
    ensures NextSpace(s, i) == r
  {
  }

  /** Only the first console argument changes: its value, up to the space or the end. */
  lemma {:induction false} SilencedIs(a: string, value: string, rest: string)
    requires ' ' !in value && (rest == "" || rest[0] == ' ')
    requires forall j: nat :: j < |a| ==> !OccursAt(a + "console=" + value + rest, "console=", j)
    ensures Silenced(a + "console=" + value + rest) == a + "console=ttynull" + rest
  {
    hide NextSpace, Find;
    var s, e := a + "console=" + value + rest, |a| + 8 + |value|;
    assert s[|a|..|a| + 8] == "console=";
    FindIs(s, CONSOLE_ARG, |a|);
    assert forall j :: |a| <= j < |a| + 8 ==> s[j] == "console="[j - |a|];
    assert forall j :: |a| + 8 <= j < e ==> s[j] == value[j - |a| - 8];
    NextSpaceIs(s, |a|, e);
    assert s[..|a|] == a && s[e..] == rest;
  }

  /** Without one the null console is added at the end. */
  lemma {:induction false} SilencedAdds(s: string)
    requires forall j: nat :: !OccursAt(s, "console=", j)
    ensures Silenced(s) == if s == "" then "console=ttynull" else s + " console=ttynull"
  {
    hide Find;
    assert Find(s, CONSOLE_ARG, 0).None?;
    assert " " + NULL_CONSOLE == " console=ttynull";
    assert s + " " + NULL_CONSOLE == s + (" " + NULL_CONSOLE);
  }

  /** Silencing twice is silencing once. */
  lemma {:induction false} Idempotent(s: string)
    ensures Silenced(Silenced(s)) == Silenced(s)
  {
    hide NextSpace, Find;
    var at := if s == "" then 0
              else match Find(s, CONSOLE_ARG, 0) case None => |s| + 1 case Some(i) => i;
    forall j | 0 <= j < at ensures !OccursAt(Silenced(s), CONSOLE_ARG, j) {
      NoEarlier(s, at, j);
    }
    SilencedShape(s, at);
    SilencedAgain(Silenced(s), at);
  }

  /** The null console stands where the first argument was, or at the end. */
  lemma {:induction false} SilencedShape(s: string, at: nat)
    requires at == (if s == "" then 0
                    else match Find(s, CONSOLE_ARG, 0) case None => |s| + 1 case Some(i) => i)
    ensures var out := Silenced(s);
            && at + 15 <= |out| && out[at..at + 15] == NULL_CONSOLE
            && (at + 15 < |out| ==> out[at + 15] == ' ')
  {
    hide NextSpace, Find;
  }

  lemma {:induction false} SilencedAgain(out: string, at: nat)
    requires at + 15 <= |out| && out[at..at + 15] == NULL_CONSOLE
    requires at + 15 < |out| ==> out[at + 15] == ' '
    requires forall j :: 0 <= j < at ==> !OccursAt(out, CONSOLE_ARG, j)
    ensures Silenced(out) == out
  {
    hide NextSpace, Find;
    assert out[at..at + 8] == out[at..at + 15][..8] == CONSOLE_ARG;
    FindIs(out, CONSOLE_ARG, at);
    assert forall k :: at <= k < at + 15 ==> out[k] == out[at..at + 15][k - at];
    assert forall k :: 0 <= k < 15 ==> NULL_CONSOLE[k] != ' ';
    NextSpaceIs(out, at, at + 15);
    assert out == out[..at] + out[at..at + 15] + out[at + 15..];
  }

  lemma {:induction false} NoEarlier(s: string, at: nat, j: nat)
    requires at == (if s == "" then 0
                    else match Find(s, CONSOLE_ARG, 0) case None => |s| + 1 case Some(i) => i)
    requires j < at
    ensures !OccursAt(Silenced(s), CONSOLE_ARG, j)
  {
    hide NextSpace, Find;
    var out := Silenced(s);
    if j + 8 <= |out| {
      if j + 8 <= |s| && at != |s| + 1 {
        assert s[at..at + 8] == CONSOLE_ARG == NULL_CONSOLE[..8];
        assert forall k :: 0 <= k < at + 8 ==> out[k] == s[k];
        assert out[j..j + 8] == s[j..j + 8];
      } else if j + 8 <= |s| {
        assert out[j..j + 8] == s[j..j + 8];
      } else {
        assert out[j..j + 8][|s| - j] == ' ' && ' ' !in CONSOLE_ARG;
      }
      assert j + 8 <= |s| ==> !OccursAt(s, CONSOLE_ARG, j);
    }
  }

  /** `arg` stands at `k` as an argument of its own, between spaces or ends. */
  predicate IsArg(s: string, arg: string, k: nat) {
    OccursAt(s, arg, k) && (k == 0 || s[k - 1] == ' ') && (k + |arg| == |s| || s[k + |arg|] == ' ')
  }

  ghost predicate HasArg(s: string, arg: string) {
    exists k: nat :: IsArg(s, arg, k)
  }

  /** The first text "console=", if there is one, starts an argument. */
  predicate StartsArg(s: string) {
    match Find(s, CONSOLE_ARG, 0)
    case None => true
    case Some(i) => i == 0 || s[i - 1] == ' '
  }

  lemma {:induction false} NoSpaceInside(out: string, at: nat)
    requires at + 15 <= |out| && out[at..at + 15] == NULL_CONSOLE
    ensures forall k :: at <= k < at + 15 ==> out[k] != ' '
  {
    assert forall k :: at <= k < at + 15 ==> out[k] == out[at..at + 15][k - at];
    assert forall k :: 0 <= k < 15 ==> NULL_CONSOLE[k] != ' ';
  }

  lemma {:induction false} SameTail(s: string, out: string, e: nat, f: nat, k: nat)
    requires e <= |s| && f <= |out| && out[f..] == s[e..] && k > 0
    ensures IsArg(s, NULL_CONSOLE, e + k) <==> IsArg(out, NULL_CONSOLE, f + k)
  {
    var tail := s[e..];
    assert forall j :: 0 <= j < |tail| ==> tail[j] == s[e + j] == out[f + j];
    if k + 15 <= |tail| {
      assert s[e + k..e + k + 15] == tail[k..k + 15] == out[f + k..f + k + 15];
      assert s[e + k - 1] == tail[k - 1] == out[f + k - 1];
    }
  }

  lemma {:induction false} PrefixOccurs(s: string, k: nat)
    requires OccursAt(s, NULL_CONSOLE, k)
    ensures OccursAt(s, CONSOLE_ARG, k)
  {
    assert s[k..k + 8] == s[k..k + 15][..8];
  }

  /** `out` is `s` with the text from `i` up to the space or end at `e` replaced. */
  predicate Replaced(s: string, out: string, i: nat, e: nat) {
    && i <= e <= |s| && i + 15 <= |out|
    && out[..i] == s[..i] && out[i..i + 15] == NULL_CONSOLE && out[i + 15..] == s[e..]
    && (forall j :: i <= j < e ==> s[j] != ' ') && (e == |s| || s[e] == ' ')
    && (forall j :: 0 <= j < i ==> !OccursAt(s, CONSOLE_ARG, j) && !OccursAt(out, CONSOLE_ARG, j))
  }

  lemma {:induction false} SilencedReplaces(s: string, i: nat)
    requires s != "" && Find(s, CONSOLE_ARG, 0) == Some(i)
    ensures Replaced(s, Silenced(s), i, NextSpace(s, i))
  {
    hide NextSpace, Find;
    var out, e := Silenced(s), NextSpace(s, i);
    assert out == s[..i] + NULL_CONSOLE + s[e..];
    assert out[i..i + 15] == NULL_CONSOLE && out[i + 15..] == s[e..];
    forall j | 0 <= j < i ensures !OccursAt(out, CONSOLE_ARG, j) {
      NoEarlier(s, i, j);
    }
  }

  lemma {:induction false} ReplacedKeeps(s: string, out: string, i: nat, e: nat, k: nat)
    requires Replaced(s, out, i, e) && IsArg(s, NULL_CONSOLE, k)
    ensures HasArg(out, NULL_CONSOLE)
  {
    PrefixOccurs(s, k);
    if i < k {
      SameTail(s, out, e, i + 15, k - e);
    } else {
      ReplacedAtStart(s, out, i, e);
    }
  }

  lemma {:induction false} ReplacedAtStart(s: string, out: string, i: nat, e: nat)
    requires Replaced(s, out, i, e) && (i == 0 || s[i - 1] == ' ')
    ensures IsArg(out, NULL_CONSOLE, i)
  {
    assert i > 0 ==> out[i - 1] == out[..i][i - 1] == s[..i][i - 1];
    assert e < |s| ==> out[i + 15] == out[i + 15..][0] == s[e..][0];
  }

  lemma {:induction false} ReplacedHad(s: string, out: string, i: nat, e: nat, k: nat)
    requires Replaced(s, out, i, e) && IsArg(out, NULL_CONSOLE, k) && i > 0 && s[i - 1] != ' '
    ensures HasArg(s, NULL_CONSOLE)
  {
    PrefixOccurs(out, k);
    NoSpaceInside(out, i);
    assert out[i - 1] == out[..i][i - 1] == s[..i][i - 1];
    assert k > i + 15;
    SameTail(s, out, e, i + 15, k - i - 15);
  }

  /** A line with "console=" in it: its null console is an argument of its own if and only if the
    * text replaced started an argument, or one stood further on already. */
  lemma {:induction false} ReplacedIff(s: string, i: nat)
    requires s != "" && Find(s, CONSOLE_ARG, 0) == Some(i)
    ensures HasArg(Silenced(s), NULL_CONSOLE) <==> i == 0 || s[i - 1] == ' ' || HasArg(s, NULL_CONSOLE)
  {
    hide NextSpace, Find, Silenced, Replaced, IsArg;
    var out, e := Silenced(s), NextSpace(s, i);
    SilencedReplaces(s, i);
    if i == 0 || s[i - 1] == ' ' {
      ReplacedAtStart(s, out, i, e);
    } else if HasArg(s, NULL_CONSOLE) {
      var k: nat :| IsArg(s, NULL_CONSOLE, k);
      ReplacedKeeps(s, out, i, e, k);
    } else if k: nat :| IsArg(out, NULL_CONSOLE, k) {
      ReplacedHad(s, out, i, e, k);
    }
  }

  /** The silenced line holds the null console as an argument of its own if and only if the first
    * text "console=" starts an argument, there is none, or the line held it as one before. */
  lemma {:induction false} OwnArgIff(s: string)
    ensures HasArg(Silenced(s), NULL_CONSOLE) <==> StartsArg(s) || HasArg(s, NULL_CONSOLE)
  {
    hide NextSpace, Find;
    var out := Silenced(s);
    if s == "" {
      assert IsArg(out, NULL_CONSOLE, 0);
      NothingFound();
    } else if Find(s, CONSOLE_ARG, 0).None? {
      SilencedShape(s, |s| + 1);
      assert out[|s|] == ' ';
      assert IsArg(out, NULL_CONSOLE, |s| + 1);
    } else {
      ReplacedIff(s, Find(s, CONSOLE_ARG, 0).value);
    }
  }

  lemma {:induction false} NothingFound()
    ensures Find("", CONSOLE_ARG, 0) == None
  {
  }

  /** An argument that only ends in "console=" is turned into one that is not the null console. */
  lemma {:induction false} InsideArgument()
    ensures Silenced("netconsole=a") == "netconsole=ttynull" && !HasArg("netconsole=ttynull", NULL_CONSOLE)
  {
    hide NextSpace, Find, HasArg;
    var s := "netconsole=a";
    FoundInside();
    NextSpaceIs(s, 3, 12);
    assert s[..3] == "net" && s[12..] == "";
    NotAnArgument();
  }

  lemma {:induction false} FoundInside()
    ensures Find("netconsole=a", CONSOLE_ARG, 0) == Some(3)
  {
    hide Find;
    var s := "netconsole=a";
    assert s[3..11] == CONSOLE_ARG;
    assert s[0] != 'c' && s[1] != 'c' && s[2] != 'c';
    forall j | 0 <= j < 3 ensures !OccursAt(s, CONSOLE_ARG, j) {
      assert s[j..j + 8][0] == s[j];
    }
    FindIs(s, CONSOLE_ARG, 3);
  }

  lemma {:induction false} NotAnArgument()
    ensures !HasArg("netconsole=ttynull", NULL_CONSOLE)
  {
    var out := "netconsole=ttynull";
    forall k: nat ensures !IsArg(out, NULL_CONSOLE, k) {
      assert k + 15 <= |out| ==> out[k..k + 15][0] == out[k];
      assert NULL_CONSOLE[0] == 'c';
    }
  }

  // ---------------------------------------------------------------- the rewrite in the buffer

  /** What the buffer must have room for. */
  predicate Fits(s: string, maxlen: nat, silent: bool) {
    var size := |s| + 1;
    && 2 * size <= maxlen
    && (silent ==> if s == "" then maxlen >= 16
                   else size + 16 <= maxlen && |Silenced(s)| < maxlen - size)
  }

  /** Copies `n` characters upwards one by one; safe when the target lies below the source. */
  method CopyDown(buf: array<char>, dst: nat, src: nat, n: nat)
    requires dst <= src && src + n <= buf.Length
    modifies buf
    ensures buf[..] == Moved(old(buf[..]), dst, src, n)
  {
    for i := 0 to n
      invariant buf[..dst + i] == old(buf[..])[..dst] + old(buf[..])[src..src + i]
      invariant buf[dst + i..] == old(buf[..])[dst + i..]
    {
      assert buf[src + i] == buf[dst + i..][src - dst] == old(buf[..])[dst + i..][src - dst];
      buf[dst + i] := buf[src + i];
    }
    assert buf[..] == buf[..dst + n] + buf[dst + n..];
  }

  /** The buffer with a string and its terminator written at `at`. */
  function Put(buf: seq<char>, at: nat, str: string): seq<char>
    requires at + |str| < |buf|
  {
    buf[..at] + str + "\0" + buf[at + |str| + 1..]
  }

  method PutString(buf: array<char>, at: nat, str: string)
    requires at + |str| < buf.Length
    modifies buf
    ensures buf[..] == Put(old(buf[..]), at, str)
  {
    hide Put;
    for i := 0 to |str|
      invariant forall k :: 0 <= k < at || at + i <= k < buf.Length ==> buf[k] == old(buf[k])
      invariant forall k {:trigger buf[k]} :: at <= k < at + i ==> buf[k] == str[k - at]
    {
      buf[at + i] := str[i];
    }
    buf[at + |str|] := '\0';
    PutIs(old(buf[..]), buf[..], at, str);
  }

  lemma {:induction false} PutIs(was: seq<char>, now: seq<char>, at: nat, str: string)
    requires at + |str| < |was| == |now| && now[at + |str|] == '\0'
    requires forall k :: 0 <= k < at || at + |str| < k < |was| ==> now[k] == was[k]
    requires forall k {:trigger now[k]} :: at <= k < at + |str| ==> now[k] == str[k - at]
    ensures now == Put(was, at, str)
  {
    var n := |str|;
    assert now[..at] == was[..at] && now[at..at + n] == str && now[at + n + 1..] == was[at + n + 1..];
    assert now == now[..at] + now[at..at + n] + [now[at + n]] + now[at + n + 1..];
  }

  /** After the string was moved to the end: it stands at both ends of the buffer. */
  predicate AtBothEnds(buf: seq<char>, s: string) {
    && '\0' !in s && 2 * (|s| + 1) <= |buf|
    && buf[..|s|] == s && buf[|s|] == '\0'
    && buf[|buf| - |s| - 1..|buf| - 1] == s && buf[|buf| - 1] == '\0'
  }

  lemma {:induction false} PutText(buf: seq<char>, at: nat, str: string)
    requires at + |str| < |buf| && '\0' !in buf[..at] && '\0' !in str
    ensures Text(Put(buf, at, str)) == buf[..at] + str
  {
    var b := Put(buf, at, str);
    assert b[..at + |str|] == buf[..at] + str;
    TextIsPrefix(b, at + |str|);
  }

  /** The part before the argument is already in place. */
  lemma {:induction false} FrontInPlace(b: seq<char>, s: string, i: nat)
    requires AtBothEnds(b, s) && i <= |s|
    ensures Moved(b, 0, |b| - |s| - 1, i) == b && b[..i] == s[..i] && '\0' !in s[..i]
  {
    var c := |b| - |s| - 1;
    assert b[c..c + i] == b[c..c + |s|][..i];
    assert b[..i] == b[..|s|][..i];
  }

  lemma {:induction false} ArgWritten(b: seq<char>, s: string, i: nat)
    requires AtBothEnds(b, s) && i + 8 <= |s| && |s| + 1 + CONSOLE_ARG_SIZE <= |b|
    ensures Put(b, i, NULL_CONSOLE)[..i + 15] == s[..i] + NULL_CONSOLE
    ensures '\0' !in s[..i] + NULL_CONSOLE
  {
    FrontInPlace(b, s, i);
  }

  /** The rest of the line is copied from the end of the buffer, where it is still intact. */
  lemma {:induction false} RestCopied(b: seq<char>, s: string, i: nat, e: nat)
    requires AtBothEnds(b, s) && i + 8 <= e <= |s| && |s| + 1 + CONSOLE_ARG_SIZE <= |b|
    ensures var b2, c, n := Put(b, i, NULL_CONSOLE), |b| - |s| - 1, |s| - e + 1;
            && |b2| == |b| && i + 15 + n <= |b| && i + 15 < c + e
            && Moved(b2, i + 15, c + e, n) == Put(b2, i + 15, s[e..])
  {
    var b2, c, n := Put(b, i, NULL_CONSOLE), |b| - |s| - 1, |s| - e + 1;
    assert b2[c + e..c + e + n] == b[c + e..c + e + n];
    assert b[c + e..c + |s|] == b[c..c + |s|][e..] == s[e..];
    assert b[c + e..c + e + n] == s[e..] + "\0";
  }

  /** Replaces the console argument at `i`, whose text ends at `e`. */
  method ReplaceArg(buf: array<char>, s: string, i: nat, e: nat)
    requires AtBothEnds(buf[..], s) && i + 8 <= e <= |s| && |s| + 1 + CONSOLE_ARG_SIZE <= buf.Length
    modifies buf
    ensures Text(buf[..]) == s[..i] + NULL_CONSOLE + s[e..]
  {
    hide Moved, Put, AtBothEnds;
    ghost var b := buf[..];
    var cmdline := buf.Length - |s| - 1;
    FrontInPlace(b, s, i);
    ArgWritten(b, s, i);
    RestCopied(b, s, i, e);
    CopyDown(buf, 0, cmdline, i);
    PutString(buf, i, NULL_CONSOLE);
    if e < |s| {
      CopyDown(buf, i + 15, cmdline + e, |s| - e + 1);
      NoTerminator(b, s, e);
      PutText(Put(b, i, NULL_CONSOLE), i + 15, s[e..]);
    } else {
      PutText(b, i, NULL_CONSOLE);
      PutEnds(b, i, NULL_CONSOLE);
      TextKept(buf[..], i + 16);
      buf[i + 16] := '\0';
    }
  }

  lemma {:induction false} PutEnds(b: seq<char>, at: nat, str: string)
    requires at + |str| < |b|
    ensures |Put(b, at, str)| == |b| && '\0' in Put(b, at, str)[..at + |str| + 1]
  {
    assert Put(b, at, str)[..at + |str| + 1][at + |str|] == '\0';
  }

  lemma {:induction false} NoTerminator(b: seq<char>, s: string, e: nat)
    requires AtBothEnds(b, s) && e <= |s|
    ensures '\0' !in s[e..]
  {
  }

  /** A character written behind the terminator does not show. */
  lemma {:induction false} TextKept(b: seq<char>, at: nat)
    requires at < |b| && '\0' in b[..at]
    ensures Text(b[at := '\0']) == Text(b)
  {
    TextEnds(b);
    TextEnds(b[..at]);
    TextIsPrefix(b, |Text(b[..at])|);
    TextIsPrefix(b[at := '\0'], |Text(b[..at])|);
  }

  /** Appends the null console to the string at the start. */
  method AppendArg(buf: array<char>, s: string)
    requires AtBothEnds(buf[..], s) && |s| + 1 + CONSOLE_ARG_SIZE <= buf.Length
    modifies buf
    ensures Text(buf[..]) == s + " " + NULL_CONSOLE
  {
    hide Moved, Put;
    FrontInPlace(buf[..], s, |s|);
    CopyDown(buf, 0, buf.Length - |s| - 1, |s|);
    PutText(buf[..], |s|, " " + NULL_CONSOLE);
    PutString(buf, |s|, " " + NULL_CONSOLE);
    assert s + (" " + NULL_CONSOLE) == s + " " + NULL_CONSOLE;
  }

  /** The fix-up: succeeds exactly when there is room, and then the buffer holds the silenced line,
    * although the old line, the new one and its source share the buffer. */
  method FixupSilentLinux(buf: array<char>, silentLinux: int, consoleSilent: bool) returns (ok: bool)
    requires '\0' in buf[..]
    modifies buf
    ensures var s := Text(old(buf[..]));
            var silent := silentLinux != 0 && !(silentLinux == -1 && !consoleSilent);
            && (ok <==> Fits(s, buf.Length, silent))
            && (ok ==> Text(buf[..]) == if silent then Silenced(s) else s)
  {
    hide Moved, Put, Find, NextSpace;
    TextEnds(buf[..]);
    var s, maxlen := Text(buf[..]), buf.Length;
    var size := |s| + 1;
    if size * 2 > maxlen {
      return false;
    }
    var cmdline := maxlen - size;
    StandsAtBothEnds(buf[..], s);
    Memmove(buf, cmdline, 0, size);
    if silentLinux == 0 || (silentLinux == -1 && !consoleSilent) {
      TextIsPrefix(buf[..], |s|);
      return true;
    }
    if buf[cmdline] != '\0' {
      var start := Find(s, CONSOLE_ARG, 0);
      if size + CONSOLE_ARG_SIZE > maxlen {
        return false;
      }
      if start.Some? {
        var end := NextSpace(s, start.value);
        ArgLength(s, start.value);
        ReplaceArg(buf, s, start.value, end);
      } else {
        AppendArg(buf, s);
      }
      return |Text(buf[..])| < cmdline;
    } else {
      if maxlen < CONSOLE_ARG_SIZE {
        return false;
      }
      PutText(buf[..], 0, NULL_CONSOLE);
      PutString(buf, 0, NULL_CONSOLE);
      return true;
    }
  }

  lemma {:induction false} ArgLength(s: string, i: nat)
    requires OccursAt(s, CONSOLE_ARG, i)
    ensures NextSpace(s, i) >= i + 8
  {
    assert forall k :: 0 <= k < 8 ==> s[i + k] == s[i..i + 8][k] == CONSOLE_ARG[k];
    assert forall k :: i <= k < i + 8 ==> s[k] == CONSOLE_ARG[k - i] && CONSOLE_ARG[k - i] != ' ';
  }

  lemma {:induction false} StandsAtBothEnds(b: seq<char>, s: string)
    requires '\0' !in s && 2 * (|s| + 1) <= |b| && b[..|s|] == s && b[|s|] == '\0'
    ensures AtBothEnds(Moved(b, |b| - |s| - 1, 0, |s| + 1), s)
    ensures |Moved(b, |b| - |s| - 1, 0, |s| + 1)| == |b|
    ensures Moved(b, |b| - |s| - 1, 0, |s| + 1)[|b| - |s| - 1] == '\0' <==> s == ""
  {
    var c := |b| - |s| - 1;
    var m := Moved(b, c, 0, |s| + 1);
    assert m[..|s|] == b[..|s|];
    assert m[c..|b| - 1] == b[..|s|];
    assert m[c] == if s == "" then '\0' else s[0];
    assert s != "" ==> s[0] in s;
  }
}
