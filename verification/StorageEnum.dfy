/** Enumerating devices through the API: the caller keeps a cookie, the code keeps two flags per
  * storage group.
  */
module StorageEnum {
  import opened Results

  const ENUM_MAX := 5

  /** A block descriptor: its address as the cookie shows it, and whether its type is known. */
  datatype Desc = Desc(id: nat, active: bool)

  /** A storage group: compiled in or not, and what each of its device numbers yields. */
  datatype Group = Group(configured: bool, devs: seq<Option<Desc>>)

  datatype World = World(net: Option<nat>, groups: seq<Group>)

  datatype Kind = NoKind | Net | Storage(group: nat)

  datatype State = State(cookie: Option<nat>, kind: Kind, started: seq<bool>, ended: seq<bool>)

  predicate ValidWorld(w: World) {
    && |w.groups| == ENUM_MAX
    && (forall g :: 0 <= g < ENUM_MAX ==> w.groups[g].configured || w.groups[g].devs == [])
  }

  predicate ValidState(s: State) {
    |s.started| == ENUM_MAX == |s.ended|
  }

  // ---------------------------------------------------------------- one group

  /** The device number of the cookie in this group, if it is there. */
  function IndexOf(devs: seq<Option<Desc>>, id: nat, i: nat): (r: Option<nat>)
    requires i <= |devs|
    ensures r.Some? ==> i <= r.value < |devs| && devs[r.value].Some? && devs[r.value].value.id == id
    ensures r.None? ==> forall k :: i <= k < |devs| ==> devs[k].Some? ==> devs[k].value.id != id
    decreases |devs| - i
  {
    if i == |devs| then None
    else if devs[i].Some? && devs[i].value.id == id then Some(i)
    else IndexOf(devs, id, i + 1)
  }

  /** The first device number from `i` on that has a descriptor. */
  function NextPresent(devs: seq<Option<Desc>>, i: nat): (r: nat)
    requires i <= |devs|
    ensures i <= r <= |devs|
    ensures r < |devs| ==> devs[r].Some?
    ensures forall k :: i <= k < r ==> devs[k].None?
    decreases |devs| - i
  {
    if i == |devs| || devs[i].Some? then i else NextPresent(devs, i + 1)
  }

  function After(devs: seq<Option<Desc>>, cookie: Option<nat>): (r: nat)
    ensures r <= |devs|
  {
    if cookie.None? then 0
    else
      var last := IndexOf(devs, cookie.value, 0);
      if last.Some? then last.value + 1 else 0
  }

  /** The next device of a group: found, more to come, and the state with the new cookie. */
  function StorGet(w: World, g: nat, s: State): (bool, bool, State)
    requires g < |w.groups|
  {
    var devs := w.groups[g].devs;
    if !w.groups[g].configured then (false, false, s)
    else
      var i := NextPresent(devs, After(devs, s.cookie));
      if i == |devs| then (false, false, s.(cookie := None))
      else (devs[i].value.active, true, s.(cookie := Some(devs[i].value.id), kind := Storage(g)))
  }

  /** The first group, from `g` on, that has a device with this address. */
  function TypeFrom(w: World, id: nat, g: nat): (r: nat)
    requires g <= |w.groups|
    ensures g <= r <= |w.groups|
    ensures r < |w.groups| ==> IndexOf(w.groups[r].devs, id, 0).Some?
    ensures forall h :: g <= h < r ==> IndexOf(w.groups[h].devs, id, 0).None?
    decreases |w.groups| - g
  {
    if g == |w.groups| || IndexOf(w.groups[g].devs, id, 0).Some? then g else TypeFrom(w, id, g + 1)
  }

  predicate IsStor(w: World, g: nat, cookie: Option<nat>) {
    cookie.Some? && TypeFrom(w, cookie.value, 0) == g
  }

  /** One group's turn: whether it yields a device, and the flags it leaves. */
  function EnumStor(w: World, g: nat, s: State): (bool, State)
    requires ValidWorld(w) && ValidState(s) && g < ENUM_MAX
  {
    if s.cookie.None? then
      var (found, more, s') := StorGet(w, g, s);
      (found, s'.(started := s.started[g := true], ended := s.ended[g := !more]))
    else if IsStor(w, g, s.cookie) then
      if s.ended[g] then (false, s)
      else
        var (found, more, s') := StorGet(w, g, s);
        (found, s'.(ended := s.ended[g := !more]))
    else if s.ended[g] then (false, s)
    else if !s.started[g] then
      var (found, more, s') := StorGet(w, g, s.(started := s.started[g := true]));
      (found, s'.(ended := s.ended[g := !more]))
    else (false, s.(ended := s.ended[g := true]))
  }

  lemma {:induction false} EnumStorValid(w: World, g: nat, s: State)
    requires ValidWorld(w) && ValidState(s) && g < ENUM_MAX
    ensures ValidState(EnumStor(w, g, s).1)
  {
  }

  function EnumStorage(w: World, g: nat, s: State): (bool, State)
    requires ValidWorld(w) && ValidState(s) && g <= ENUM_MAX
    decreases ENUM_MAX - g
  {
    if g == ENUM_MAX then (false, s)
    else
      var (found, s') := EnumStor(w, g, s);
      EnumStorValid(w, g, s);
      if found then (true, s') else EnumStorage(w, g + 1, s')
  }

  const CLEAR: seq<bool> := [false, false, false, false, false]

  /** One call of the enumeration entry point. */
  function DevEnum(w: World, s: State): State
    requires ValidWorld(w) && ValidState(s)
  {
    var s1 := if s.cookie.None? then s.(started := CLEAR, ended := CLEAR) else s;
    if s.cookie.None? && w.net.Some? then s1.(cookie := w.net, kind := Net)
    else
      var s2 := if s.cookie.None? then s1.(kind := Net) else s1;
      var (found, s') := EnumStorage(w, 0, s2);
      if found then s' else s'.(cookie := None)
  }

  // ---------------------------------------------------------------- the code on its own state

  class Enumerator {
    var cookie: Option<nat>
    var kind: Kind
    var started: array<bool>
    var ended: array<bool>

    ghost predicate Valid()
      reads this
    {
      started.Length == ENUM_MAX == ended.Length && started != ended
    }

    function View(): State
      reads this, started, ended
      requires Valid()
    {
      State(cookie, kind, started[..], ended[..])
    }

    constructor ()
      ensures Valid() && fresh(started) && fresh(ended)
      ensures View() == State(None, NoKind, CLEAR, CLEAR)
    {
      cookie, kind := None, NoKind;
      started := new bool[ENUM_MAX](_ => false);
      ended := new bool[ENUM_MAX](_ => false);
    }

    method Get(w: World, g: nat) returns (found: bool, more: bool)
      requires Valid() && ValidWorld(w) && g < ENUM_MAX
      modifies `cookie, `kind
      ensures (found, more, View()) == StorGet(w, g, old(View()))
    {
      found, more := false, false;
      if !w.groups[g].configured {
        return;
      }
      var devs, i := w.groups[g].devs, 0;
      if cookie.Some? {
        var foundLast := false;
        while i < |devs| && !foundLast
          invariant 0 <= i <= |devs|
          invariant foundLast ==> i > 0 && IndexOf(devs, cookie.value, 0) == Some(i - 1)
          invariant !foundLast ==> IndexOf(devs, cookie.value, 0) == IndexOf(devs, cookie.value, i)
          decreases |devs| - i, !foundLast
        {
          if devs[i].Some? && devs[i].value.id == cookie.value {
            foundLast := true;
          }
          i := i + 1;
        }
        if !foundLast {
          i := 0;
        }
      }
      ghost var from := i;
      while i < |devs| && devs[i].None?
        invariant from <= i <= |devs|
        invariant NextPresent(devs, i) == NextPresent(devs, from)
      {
        i := i + 1;
      }
      more := i < |devs|;
      if more {
        cookie := Some(devs[i].value.id);
        kind := Storage(g);
        found := devs[i].value.active;
      } else {
        cookie := None;
      }
    }

    method EnumGroup(w: World, g: nat) returns (found: bool)
      requires Valid() && ValidWorld(w) && g < ENUM_MAX
      modifies `cookie, `kind, started, ended
      ensures (found, View()) == EnumStor(w, g, old(View()))
    {
      var more := false;
      if cookie.None? {
        found, more := Get(w, g);
        started[g] := true;
      } else if IsStor(w, g, cookie) {
        if ended[g] {
          return false;
        }
        found, more := Get(w, g);
      } else {
        if ended[g] {
          return false;
        }
        if !started[g] {
          started[g] := true;
          found, more := Get(w, g);
        } else {
          found := false;
        }
      }
      ended[g] := !more;
    }

    method EnumAll(w: World) returns (found: bool)
      requires Valid() && ValidWorld(w)
      modifies `cookie, `kind, started, ended
      ensures (found, View()) == EnumStorage(w, 0, old(View()))
    {
      var g := 0;
      while g < ENUM_MAX
        invariant 0 <= g <= ENUM_MAX
        invariant EnumStorage(w, g, View()) == EnumStorage(w, 0, old(View()))
      {
        found := EnumGroup(w, g);
        if found {
          return true;
        }
        g := g + 1;
      }
      return false;
    }

    method Reset()
      requires Valid()
      modifies started, ended
      ensures View() == old(View()).(started := CLEAR, ended := CLEAR)
    {
      for i := 0 to ENUM_MAX
        invariant forall k :: 0 <= k < i ==> !started[k] && !ended[k]
      {
        started[i] := false;
        ended[i] := false;
      }
    }

    /** The entry point: an empty cookie starts over, with the network device first. */
    method Next(w: World)
      requires Valid() && ValidWorld(w)
      modifies `cookie, `kind, started, ended
      ensures View() == DevEnum(w, old(View()))
    {
      if cookie.None? {
        Reset();
        kind := Net;
        cookie := w.net;
        if cookie.Some? {
          return;
        }
      }
      var found := EnumAll(w);
      if !found {
        cookie := None;
      }
    }
  }
}
