/** Repeated enumeration: what comes out, in which order, and where it stops short. */
module StorageEnumRuns {
  import opened Results
  import opened StorageEnum

  datatype Pos = Pos(group: nat, index: nat)

  /** Within a group: present devices from number `i` on, up to the first inactive one. */
  function Prefix(devs: seq<Option<Desc>>, g: nat, i: nat): seq<Pos>
    requires i <= |devs|
    decreases |devs| - i
  {
    if i == |devs| then []
    else if devs[i].None? then Prefix(devs, g, i + 1)
    else if !devs[i].value.active then []
    else [Pos(g, i)] + Prefix(devs, g, i + 1)
  }

  /** What is still to come in group `g` from number `i` on, and in all later groups. */
  function Remaining(w: World, g: nat, i: nat): seq<Pos>
    requires g < |w.groups| && i <= |w.groups[g].devs|
    decreases |w.groups| - g
  {
    Prefix(w.groups[g].devs, g, i) + if g + 1 == |w.groups| then [] else Remaining(w, g + 1, 0)
  }

  /** No two device numbers share a descriptor, and none is the network device. */
  predicate DistinctIds(w: World) {
    && (forall g, i, h, j ::
          && 0 <= g < |w.groups| && 0 <= i < |w.groups[g].devs| && w.groups[g].devs[i].Some?
          && 0 <= h < |w.groups| && 0 <= j < |w.groups[h].devs| && w.groups[h].devs[j].Some?
          && w.groups[g].devs[i].value.id == w.groups[h].devs[j].value.id
          ==> g == h && i == j)
    && (w.net.Some? ==> forall g :: 0 <= g < |w.groups| ==> IndexOf(w.groups[g].devs, w.net.value, 0).None?)
  }

  predicate IsPos(w: World, p: Pos) {
    p.group < |w.groups| && p.index < |w.groups[p.group].devs| && w.groups[p.group].devs[p.index].Some?
  }

  function IdAt(w: World, p: Pos): nat
    requires IsPos(w, p)
  {
    w.groups[p.group].devs[p.index].value.id
  }

  /** The cookie is nothing, or not a device of group `g`. */
  predicate Foreign(w: World, g: nat, cookie: Option<nat>)
    requires g < |w.groups|
  {
    cookie.Some? ==> IndexOf(w.groups[g].devs, cookie.value, 0).None?
  }

  /** Groups from `g` on are untouched. */
  predicate Untouched(s: State, g: nat) {
    ValidState(s) && forall h :: g <= h < ENUM_MAX ==> !s.started[h] && !s.ended[h]
  }

  /** Every descriptor of the group is active. */
  predicate GroupActive(w: World, g: nat)
    requires g < |w.groups|
  {
    forall i :: 0 <= i < |w.groups[g].devs| && w.groups[g].devs[i].Some? ==> w.groups[g].devs[i].value.active
  }

  /** The last answer was the device at `p`: earlier groups are over or about to be, later ones
    * untouched. */
  predicate Standing(w: World, s: State, p: Pos) {
    && IsPos(w, p) && |w.groups| == ENUM_MAX && ValidState(s)
    && s.cookie == Some(IdAt(w, p)) && s.kind == Storage(p.group)
    && s.started[p.group] && !s.ended[p.group]
    && (forall h :: 0 <= h < p.group ==> s.started[h])
    && Untouched(s, p.group + 1)
  }

  // ---------------------------------------------------------------- addresses

  lemma {:induction false} IdFound(w: World, p: Pos)
    requires DistinctIds(w) && IsPos(w, p)
    ensures TypeFrom(w, IdAt(w, p), 0) == p.group
    ensures IndexOf(w.groups[p.group].devs, IdAt(w, p), 0) == Some(p.index)
    ensures forall h :: 0 <= h < |w.groups| && h != p.group ==> Foreign(w, h, Some(IdAt(w, p)))
  {
    forall h | 0 <= h < |w.groups| && h != p.group
      ensures IndexOf(w.groups[h].devs, IdAt(w, p), 0).None?
    {
    }
  }

  // ---------------------------------------------------------------- one group's turn

  lemma {:induction false} PrefixHead(devs: seq<Option<Desc>>, g: nat, i: nat)
    requires i <= |devs|
    ensures var n := NextPresent(devs, i);
            Prefix(devs, g, i)
            == if n == |devs| || !devs[n].value.active then [] else [Pos(g, n)] + Prefix(devs, g, n + 1)
    decreases |devs| - i
  {
    if i < |devs| && devs[i].None? { PrefixHead(devs, g, i + 1); }
  }

  /** A turn that takes a device after number `i - 1`: either the group's prefix goes on, or the
    * group is left with a cookie that later groups do not know. */
  predicate Took(w: World, g: nat, i: nat, found: bool, s: State)
    requires g < |w.groups| && i <= |w.groups[g].devs|
  {
    var rest := Prefix(w.groups[g].devs, g, i);
    if rest == [] then !found && forall h :: g < h < |w.groups| ==> Foreign(w, h, s.cookie)
    else found && IsPos(w, rest[0]) && rest[0].group == g && s.cookie == Some(IdAt(w, rest[0])) && s.kind == Storage(g)
  }

  lemma {:induction false} GetTakes(w: World, g: nat, i: nat, s: State)
    requires ValidWorld(w) && DistinctIds(w) && g < ENUM_MAX && i <= |w.groups[g].devs|
    requires After(w.groups[g].devs, s.cookie) == i
    requires !w.groups[g].configured ==> forall h :: g < h < ENUM_MAX ==> Foreign(w, h, s.cookie)
    ensures var (found, more, s') := StorGet(w, g, s);
            && Took(w, g, i, found, s')
            && (found ==> more) && (!found && GroupActive(w, g) ==> !more)
            && s'.started == s.started && s'.ended == s.ended
  {
    var devs := w.groups[g].devs;
    PrefixHead(devs, g, i);
    if w.groups[g].configured {
      var n := NextPresent(devs, i);
      if n < |devs| {
        IdFound(w, Pos(g, n));
      }
    }
  }

  /** A group not yet visited offers its first device. */
  lemma {:induction false} FirstTurn(w: World, g: nat, s: State)
    requires ValidWorld(w) && DistinctIds(w) && g < ENUM_MAX && Untouched(s, g)
    requires forall h :: g <= h < ENUM_MAX ==> Foreign(w, h, s.cookie)
    ensures var (found, s') := EnumStor(w, g, s);
            && Took(w, g, 0, found, s')
            && ValidState(s') && s'.started == s.started[g := true]
            && s'.ended[..g] == s.ended[..g] && s'.ended[g + 1..] == s.ended[g + 1..]
            && (found ==> !s'.ended[g]) && (!found && GroupActive(w, g) ==> s'.ended[g])
  {
    assert Foreign(w, g, s.cookie);
    assert !IsStor(w, g, s.cookie);
    GetTakes(w, g, 0, s);
    GetTakes(w, g, 0, s.(started := s.started[g := true]));
  }

  /** The group of the last answer goes on after it. */
  lemma {:induction false} NextTurn(w: World, p: Pos, s: State)
    requires ValidWorld(w) && DistinctIds(w) && Standing(w, s, p)
    ensures var (found, s') := EnumStor(w, p.group, s);
            && Took(w, p.group, p.index + 1, found, s')
            && ValidState(s') && s'.started == s.started
            && s'.ended[..p.group] == s.ended[..p.group] && s'.ended[p.group + 1..] == s.ended[p.group + 1..]
            && (found ==> !s'.ended[p.group]) && (!found && GroupActive(w, p.group) ==> s'.ended[p.group])
  {
    IdFound(w, p);
    GetTakes(w, p.group, p.index + 1, s);
  }

  /** The flags with groups `g` up to `upto` marked as over. */
  function Closed(ended: seq<bool>, g: nat, upto: nat): (r: seq<bool>)
    requires g <= upto <= |ended|
    ensures |r| == |ended|
    ensures forall h :: 0 <= h < |ended| ==> r[h] == ((g <= h && h < upto) || ended[h])
    decreases upto - g
  {
    if g == upto then ended else Closed(ended[g := true], g + 1, upto)
  }

  /** Groups before the last answer are marked as over and leave the cookie alone. */
  lemma {:induction false} PassOver(w: World, g: nat, p: Pos, s: State)
    requires ValidWorld(w) && DistinctIds(w) && Standing(w, s, p) && g <= p.group
    ensures EnumStorage(w, g, s) == EnumStorage(w, p.group, s.(ended := Closed(s.ended, g, p.group)))
    ensures Standing(w, s.(ended := Closed(s.ended, g, p.group)), p)
    decreases p.group - g
  {
    if g < p.group {
      IdFound(w, p);
      var s' := s.(ended := s.ended[g := true]);
      assert s.ended[g] ==> s.ended[g := true] == s.ended;
      assert EnumStor(w, g, s) == (false, s');
      PassOver(w, g + 1, p, s');
      assert s'.(ended := Closed(s'.ended, g + 1, p.group)) == s.(ended := Closed(s.ended, g, p.group));
    }
  }

  // ---------------------------------------------------------------- one call

  /** The flags mark exactly the groups before `g` as over. */
  predicate FlagsExact(s: State, g: nat) {
    ValidState(s) && forall h :: 0 <= h < ENUM_MAX ==> s.ended[h] == (h < g)
  }

  predicate AllActive(w: World) {
    forall g :: 0 <= g < |w.groups| ==> GroupActive(w, g)
  }

  /** What a call yields when `rest` is still to come. */
  predicate Yields(w: World, rest: seq<Pos>, found: bool, s: State) {
    if rest == [] then !found && (AllActive(w) ==> FlagsExact(s, ENUM_MAX))
    else found && Standing(w, s, rest[0]) && (AllActive(w) ==> FlagsExact(s, rest[0].group))
  }

  lemma {:induction false} FromGroup(w: World, g: nat, s: State)
    requires ValidWorld(w) && DistinctIds(w) && g < ENUM_MAX && Untouched(s, g)
    requires forall h :: 0 <= h < g ==> s.started[h]
    requires AllActive(w) ==> FlagsExact(s, g)
    requires forall h :: g <= h < ENUM_MAX ==> Foreign(w, h, s.cookie)
    ensures Yields(w, Remaining(w, g, 0), EnumStorage(w, g, s).0, EnumStorage(w, g, s).1)
    decreases ENUM_MAX - g
  {
    hide EnumStor, Prefix, DistinctIds, FlagsExact, AllActive, Foreign, GroupActive, Remaining;
    FirstTurn(w, g, s);
    EnumStorValid(w, g, s);
    var (found, s') := EnumStor(w, g, s);
    TailKept(s.ended, s'.ended, g);
    RemainingStarts(w, g, 0);
    if AllActive(w) {
      FlagsStep(w, g, s, found, s');
    }
    if !found && g + 1 < ENUM_MAX {
      FromGroup(w, g + 1, s');
    }
  }

  lemma {:induction false} RemainingStarts(w: World, g: nat, i: nat)
    requires g < |w.groups| && i <= |w.groups[g].devs|
    ensures var here := Prefix(w.groups[g].devs, g, i);
            && (here != [] ==> Remaining(w, g, i) != [] && Remaining(w, g, i)[0] == here[0])
            && (here == [] ==> Remaining(w, g, i) == if g + 1 == |w.groups| then [] else Remaining(w, g + 1, 0))
  {
    hide Prefix;
  }

  /** A group's turn keeps the flags exact: it is over if and only if the turn found nothing. */
  lemma {:induction false} FlagsStep(w: World, g: nat, s: State, found: bool, s': State)
    requires ValidWorld(w) && AllActive(w) && g < ENUM_MAX && FlagsExact(s, g) && ValidState(s')
    requires forall h :: 0 <= h < ENUM_MAX && h != g ==> s'.ended[h] == s.ended[h]
    requires (found ==> !s'.ended[g]) && (!found && GroupActive(w, g) ==> s'.ended[g])
    ensures FlagsExact(s', if found then g else g + 1)
  {
    hide GroupActive;
    assert GroupActive(w, g);
  }

  lemma {:induction false} TailKept(a: seq<bool>, b: seq<bool>, g: nat)
    requires |a| == |b| && g < |a| && b[..g] == a[..g] && b[g + 1..] == a[g + 1..]
    ensures forall h :: 0 <= h < |a| && h != g ==> b[h] == a[h]
  {
    forall h | 0 <= h < |a| && h != g ensures b[h] == a[h] {
      if h < g { assert b[..g][h] == a[..g][h]; } else { assert b[g + 1..][h - g - 1] == a[g + 1..][h - g - 1]; }
    }
  }

  /** A call with the cookie of one device yields the next one, or nothing at the end. */
  lemma {:induction false} CallGoesOn(w: World, p: Pos, s: State)
    requires ValidWorld(w) && DistinctIds(w) && Standing(w, s, p)
    ensures var rest := Remaining(w, p.group, p.index + 1);
            var s' := DevEnum(w, s);
            if rest == [] then s'.cookie.None? && ValidState(s') && (AllActive(w) ==> FlagsExact(s', ENUM_MAX))
            else Standing(w, s', rest[0]) && (AllActive(w) ==> FlagsExact(s', rest[0].group))
  {
    hide EnumStor, DistinctIds, Prefix, FlagsExact, AllActive, Foreign, GroupActive, Remaining;
    PassOver(w, 0, p, s);
    var s1 := s.(ended := Closed(s.ended, 0, p.group));
    NextTurn(w, p, s1);
    EnumStorValid(w, p.group, s1);
    var (found, s2) := EnumStor(w, p.group, s1);
    TailKept(s1.ended, s2.ended, p.group);
    EnumStorageValid(w, 0, s);
    RemainingStarts(w, p.group, p.index + 1);
    if AllActive(w) {
      StandingExact(w, s1, p);
      FlagsStep(w, p.group, s1, found, s2);
    }
    if !found && p.group + 1 < ENUM_MAX {
      FromGroup(w, p.group + 1, s2);
    }
    SameFlags(EnumStorage(w, 0, s).1, DevEnum(w, s));
  }

  lemma {:induction false} SameFlags(s: State, s': State)
    requires s'.started == s.started && s'.ended == s.ended && (ValidState(s) ==> ValidState(s'))
    ensures forall g: nat :: FlagsExact(s, g) ==> FlagsExact(s', g)
  {
  }

  lemma {:induction false} StandingExact(w: World, s: State, p: Pos)
    requires Standing(w, s, p) && forall h :: 0 <= h < p.group ==> s.ended[h]
    ensures FlagsExact(s, p.group)
  {
  }

  lemma {:induction false} EnumStorageValid(w: World, g: nat, s: State)
    requires ValidWorld(w) && ValidState(s) && g <= ENUM_MAX
    ensures ValidState(EnumStorage(w, g, s).1)
    decreases ENUM_MAX - g
  {
    if g < ENUM_MAX {
      EnumStorValid(w, g, s);
      EnumStorageValid(w, g + 1, EnumStor(w, g, s).1);
    }
  }

  // ---------------------------------------------------------------- whole enumerations

  lemma {:induction false} DevEnumValid(w: World, s: State)
    requires ValidWorld(w) && ValidState(s)
    ensures ValidState(DevEnum(w, s))
  {
    EnumStorageValid(w, 0, s);
    EnumStorageValid(w, 0, s.(started := CLEAR, ended := CLEAR, kind := Net));
  }

  /** The state after `k + 1` calls. */
  function Calls(w: World, s: State, k: nat): (r: State)
    requires ValidWorld(w) && ValidState(s)
    ensures ValidState(r)
  {
    if k == 0 then
      DevEnumValid(w, s);
      DevEnum(w, s)
    else
      DevEnumValid(w, Calls(w, s, k - 1));
      DevEnum(w, Calls(w, s, k - 1))
  }

  lemma {:induction false} RemainingHead(w: World, g: nat, i: nat)
    requires g < |w.groups| && i <= |w.groups[g].devs|
    ensures var rest := Remaining(w, g, i);
            rest != [] ==>
              && IsPos(w, rest[0])
              && Remaining(w, rest[0].group, rest[0].index + 1) == rest[1..]
    decreases |w.groups| - g
  {
    hide NextPresent, Prefix;
    PrefixHead(w.groups[g].devs, g, i);
    var here := Prefix(w.groups[g].devs, g, i);
    var later := if g + 1 == |w.groups| then [] else Remaining(w, g + 1, 0);
    if here == [] {
      assert [] + later == later;
      if g + 1 < |w.groups| { RemainingHead(w, g + 1, 0); }
    } else {
      assert (here + later)[1..] == here[1..] + later;
      assert here[1..] == Prefix(w.groups[g].devs, g, here[0].index + 1);
    }
  }

  lemma {:induction false} RemainingTail(w: World, g: nat, i: nat, n: nat)
    requires g < |w.groups| && i <= |w.groups[g].devs| && n < |Remaining(w, g, i)|
    ensures var rest := Remaining(w, g, i);
            IsPos(w, rest[n]) && Remaining(w, rest[n].group, rest[n].index + 1) == rest[n + 1..]
    decreases n
  {
    hide Remaining;
    RemainingHead(w, g, i);
    var rest := Remaining(w, g, i);
    if n > 0 {
      RemainingTail(w, rest[0].group, rest[0].index + 1, n - 1);
    }
  }

  /** The first call that reaches storage. */
  lemma {:induction false} CallStarts(w: World, s: State)
    requires ValidWorld(w) && DistinctIds(w) && ValidState(s)
    requires (s.cookie.None? && w.net.None?) || (w.net.Some? && s.cookie == w.net && Untouched(s, 0))
    ensures var rest := Remaining(w, 0, 0);
            var s' := DevEnum(w, s);
            if rest == [] then s'.cookie.None? && (AllActive(w) ==> FlagsExact(s', ENUM_MAX))
            else Standing(w, s', rest[0]) && (AllActive(w) ==> FlagsExact(s', rest[0].group))
  {
    hide Remaining, EnumStorage, AllActive;
    FromGroup(w, 0, if s.cookie.None? then s.(started := CLEAR, ended := CLEAR, kind := Net) else s);
  }

  /** Starting from an empty cookie: first the network device if there is one, then the storage
    * devices in order of group and number, each group up to its first inactive descriptor, and
    * then an empty cookie again.  With all descriptors active the flags always mark exactly the
    * groups already exhausted. */
  lemma {:induction false} Enumeration(w: World, s: State, k: nat)
    requires ValidWorld(w) && DistinctIds(w) && ValidState(s) && s.cookie.None?
    ensures var off := if w.net.Some? then 1 else 0;
            var all := Remaining(w, 0, 0);
            var s' := Calls(w, s, k);
            && (k < off ==> s'.cookie == w.net && s'.kind == Net && Untouched(s', 0))
            && (off <= k < off + |all| ==>
                  Standing(w, s', all[k - off]) && (AllActive(w) ==> FlagsExact(s', all[k - off].group)))
            && (k == off + |all| ==> s'.cookie.None? && (AllActive(w) ==> FlagsExact(s', ENUM_MAX)))
  {
    hide Standing, FlagsExact, AllActive, DistinctIds, Remaining, EnumStorage;
    var off, all := if w.net.Some? then 1 else 0, Remaining(w, 0, 0);
    if k == 0 {
      if off == 0 { CallStarts(w, s); }
    } else if k <= off + |all| {
      Enumeration(w, s, k - 1);
      if k - 1 < off {
        CallStarts(w, Calls(w, s, k - 1));
      } else {
        RemainingTail(w, 0, 0, k - 1 - off);
        CallGoesOn(w, all[k - 1 - off], Calls(w, s, k - 1));
      }
    }
  }

  // ---------------------------------------------------------------- what is missed

  /** All active devices of a group from number `i` on. */
  function Actives(devs: seq<Option<Desc>>, g: nat, i: nat): seq<Pos>
    requires i <= |devs|
    decreases |devs| - i
  {
    if i == |devs| then []
    else if devs[i].Some? && devs[i].value.active then [Pos(g, i)] + Actives(devs, g, i + 1)
    else Actives(devs, g, i + 1)
  }

  function Everything(w: World, g: nat): seq<Pos>
    requires g <= |w.groups|
    decreases |w.groups| - g
  {
    if g == |w.groups| then [] else Actives(w.groups[g].devs, g, 0) + Everything(w, g + 1)
  }

  predicate IsActive(d: Option<Desc>) {
    d.Some? && d.value.active
  }

  /** No active device has an inactive descriptor before it in its group. */
  predicate NoneHidden(devs: seq<Option<Desc>>, i: nat) {
    forall j, k :: i <= j < k < |devs| ==> devs[j].Some? && !devs[j].value.active ==> !IsActive(devs[k])
  }

  lemma {:induction false} NoActives(devs: seq<Option<Desc>>, g: nat, i: nat)
    requires i <= |devs|
    ensures Actives(devs, g, i) == [] <==> forall k :: i <= k < |devs| ==> !IsActive(devs[k])
    decreases |devs| - i
  {
    if i < |devs| { NoActives(devs, g, i + 1); }
  }

  lemma {:induction false} NoneHiddenCons(devs: seq<Option<Desc>>, i: nat)
    requires i <= |devs|
    ensures NoneHidden(devs, i)
            <==> i == |devs|
                 || (&& NoneHidden(devs, i + 1)
                     && (devs[i].Some? && !devs[i].value.active ==> forall k :: i < k < |devs| ==> !IsActive(devs[k])))
  {
    if i < |devs| && NoneHidden(devs, i + 1)
       && (devs[i].Some? && !devs[i].value.active ==> forall k :: i < k < |devs| ==> !IsActive(devs[k])) {
      forall j, k | i <= j < k < |devs| && devs[j].Some? && !devs[j].value.active ensures !IsActive(devs[k]) {
      }
    }
  }

  lemma {:induction false} PrefixComplete(devs: seq<Option<Desc>>, g: nat, i: nat)
    requires i <= |devs|
    ensures |Prefix(devs, g, i)| <= |Actives(devs, g, i)|
    ensures |Prefix(devs, g, i)| == |Actives(devs, g, i)| <==> NoneHidden(devs, i)
    ensures NoneHidden(devs, i) ==> Prefix(devs, g, i) == Actives(devs, g, i)
    decreases |devs| - i
  {
    hide NoneHidden;
    if i == |devs| {
      NoneHiddenCons(devs, i);
    } else {
      PrefixComplete(devs, g, i + 1);
      NoActives(devs, g, i + 1);
      NoneHiddenCons(devs, i);
    }
  }

  /** An enumeration misses nothing if and only if no group hides an active device behind an
    * inactive descriptor. */
  lemma {:induction false} CompleteIff(w: World, g: nat)
    requires g < |w.groups|
    ensures |Remaining(w, g, 0)| <= |Everything(w, g)|
    ensures Remaining(w, g, 0) == Everything(w, g) <==>
              forall h :: g <= h < |w.groups| ==> NoneHidden(w.groups[h].devs, 0)
    decreases |w.groups| - g
  {
    hide NoneHidden;
    PrefixComplete(w.groups[g].devs, g, 0);
    var here, all := Prefix(w.groups[g].devs, g, 0), Actives(w.groups[g].devs, g, 0);
    if g + 1 < |w.groups| {
      CompleteIff(w, g + 1);
      var rest, later := Remaining(w, g + 1, 0), Everything(w, g + 1);
      if here + rest == all + later {
        assert |here| + |rest| == |all| + |later|;
        assert here == (here + rest)[..|here|];
        assert rest == (here + rest)[|here|..] && later == (all + later)[|all|..];
      }
    } else {
      assert Everything(w, g + 1) == [];
      assert all + [] == all && here + [] == here;
    }
  }

  /** An inactive first descriptor hides an active second one. */
  lemma {:induction false} HiddenDevice(w: World)
    requires ValidWorld(w) && w.groups[0].devs == [Some(Desc(1, false)), Some(Desc(2, true))]
    requires forall g :: 1 <= g < ENUM_MAX ==> w.groups[g].devs == []
    ensures Pos(0, 1) in Everything(w, 0) && Pos(0, 1) !in Remaining(w, 0, 0)
  {
    var devs := w.groups[0].devs;
    assert Actives(devs, 0, 2) == [];
    assert Actives(devs, 0, 1) == [Pos(0, 1)];
    assert Actives(devs, 0, 0) == [Pos(0, 1)];
    assert Everything(w, 0) == [Pos(0, 1)] + Everything(w, 1);
    assert Remaining(w, 4, 0) == [] && Remaining(w, 3, 0) == [] && Remaining(w, 2, 0) == [] && Remaining(w, 1, 0) == [];
  }
}
