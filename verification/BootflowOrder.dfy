/** Every step of a scan moves strictly forward, so a scan ends and never repeats a position. */
module BootflowOrder {
  import opened Results
  import opened BootflowModel

  /** The answer to the check with this number, on this partition or for a global bootmeth. */
  type Env = (nat, Option<nat>) -> Outcome

  /** The partition a check is made on; a global bootmeth has none. */
  function Where(it: Iter): Option<nat> {
    if it.doingGlobal then None else Some(it.part)
  }

  ghost predicate Tame(env: Env) {
    forall t: nat :: env(t, None).code != NoMoreParts
  }

  lemma {:induction false} SetupAdvances(w: World, f: Flags, it: Iter)
    requires ValidWorld(w) && it.curPrio < BOOTDEVP_COUNT && Setup(w, it).1
    ensures var it' := Setup(w, it).0;
            && LabelsOk(w, it') && it'.curPrio < BOOTDEVP_COUNT
            && it'.dev.Some? && it'.dev.value < |w.devs|
            && it' == it.(labels := it'.labels, curLabel := it'.curLabel, curPrio := it'.curPrio, dev := it'.dev)
  {
    if w.labels.Some? {
      var (cur, dev) := NextLabel(w.labels.value, -1);
      assert dev == w.labels.value[cur];
    }
  }

  lemma {:induction false} NextDevAdvances(w: World, f: Flags, it: Iter)
    requires ValidWorld(w) && LabelsOk(w, it) && it.curPrio < BOOTDEVP_COUNT
    requires it.dev.Some? && it.dev.value < |w.devs| && !it.doingGlobal
    requires NextDev(w, f, it, false).1
    ensures var it' := NextDev(w, f, it, false).0;
            && LabelsOk(w, it') && it'.curPrio < BOOTDEVP_COUNT
            && it'.dev.Some? && it'.dev.value < |w.devs|
            && it' == it.(curLabel := it'.curLabel, curPrio := it'.curPrio, dev := it'.dev)
            && (KeyOf(f, it).major < KeyOf(f, it').major
                || (KeyOf(f, it).major == KeyOf(f, it').major && KeyOf(f, it).minor < KeyOf(f, it').minor))
  {
    if !f.singleUclass && !f.singleMedia && it.labels.Some? {
      var (cur, dev) := NextLabel(it.labels.value, it.curLabel);
      assert dev == w.labels.value[cur];
    }
  }

  /** The next bootdev does not depend on the bootmeths or the recorded error. */
  lemma {:induction false} NextDevAlike(w: World, f: Flags, a: Iter, b: Iter, restart: bool)
    requires ValidWorld(w) && LabelsOk(w, a) && a.curPrio < BOOTDEVP_COUNT
    requires !restart ==> a.dev.Some? && a.dev.value < |w.devs|
    requires b == a.(order := b.order, numMethods := b.numMethods, meth := b.meth, err := b.err)
    ensures NextDev(w, f, b, restart).1 == NextDev(w, f, a, restart).1
    ensures NextDev(w, f, b, restart).0
            == NextDev(w, f, a, restart).0.(order := b.order, numMethods := b.numMethods, meth := b.meth, err := b.err)
    ensures var r := NextDev(w, f, a, restart).0;
            r == a.(dev := r.dev, labels := r.labels, curLabel := r.curLabel, curPrio := r.curPrio)
  {
    hide NextPrio, NextLabel, NextSibling, NextAt;
  }

  /** Nor does the next place, other than through the end of partitions. */
  lemma {:induction false} MoveOnAlike(w: World, f: Flags, a: Iter, b: Iter, restart: bool)
    requires ValidWorld(w) && LabelsOk(w, a) && a.curPrio < BOOTDEVP_COUNT && a.order != [] && b.order != []
    requires !restart ==> a.dev.Some? && a.dev.value < |w.devs|
    requires b == a.(order := b.order, numMethods := b.numMethods, meth := b.meth, err := b.err)
    requires a.err == NoMoreParts <==> b.err == NoMoreParts
    ensures var r, r' := MoveOn(w, f, a, restart), MoveOn(w, f, b, restart);
            && r'.1 == r.1 && r.0.curMethod == 0 && r.0.err == a.err
            && r'.0 == r.0.(order := b.order, numMethods := b.numMethods, meth := b.order[0], err := b.err)
  {
    hide NextDev;
    NextDevAlike(w, f, a.(curMethod := 0, meth := a.order[0], part := 0, maxPart := 0),
                 b.(curMethod := 0, meth := b.order[0], part := 0, maxPart := 0), restart);
  }

  /** A successful step keeps the iterator valid and moves it strictly forward in
    * (phase, bootdev or label, partition, bootmeth), whatever the recorded error is. */
  lemma {:induction false} IncrAdvances(w: World, f: Flags, it: Iter)
    requires Valid(w, f, it) && CanStep(it) && Incr(w, f, it).1
    ensures Valid(w, f, Incr(w, f, it).0) && CanStep(Incr(w, f, it).0)
    ensures KeyLess(KeyOf(f, it), KeyOf(f, Incr(w, f, it).0))
    ensures Incr(w, f, it).0.curMethod < Incr(w, f, it).0.numMethods || Incr(w, f, it).0.curMethod == 0
  {
    hide Setup, NextDev;
    var skip := it.err == NoMoreParts;
    if skip || it.curMethod + 1 >= it.numMethods {
      var leave := !skip && it.doingGlobal;
      var it1 := if leave then it.(numMethods := it.firstGlob, doingGlobal := false) else it;
      var it2 := it1.(curMethod := 0, meth := it.order[0]);
      if skip || it.part + 1 > it.maxPart {
        var it3 := it2.(part := 0, maxPart := 0);
        if leave {
          RestartAdvances(w, f, it3);
        } else {
          NextDevAdvances(w, f, it3);
        }
      }
    }
  }

  lemma {:induction false} RestartAdvances(w: World, f: Flags, it: Iter)
    requires ValidWorld(w) && LabelsOk(w, it) && it.curPrio < BOOTDEVP_COUNT && NextDev(w, f, it, true).1
    ensures var it' := NextDev(w, f, it, true).0;
            && LabelsOk(w, it') && it'.curPrio < BOOTDEVP_COUNT
            && it'.dev.Some? && it'.dev.value < |w.devs|
            && it' == it.(labels := it'.labels, curLabel := it'.curLabel, curPrio := it'.curPrio, dev := it'.dev)
  {
    hide Setup;
    SetupAdvances(w, f, it);
  }

  /** A check and a dropped bootmeth leave the position where it is. */
  lemma {:induction false} CheckStays(w: World, f: Flags, it: Iter, o: Outcome, record: bool)
    requires Valid(w, f, it) && CanStep(it)
    requires it.doingGlobal ==> o.code != NoMoreParts
    ensures Valid(w, f, AfterCheck(it, o, record)) && CanStep(AfterCheck(it, o, record))
    ensures KeyOf(f, AfterCheck(it, o, record)) == KeyOf(f, it)
  {
  }

  lemma {:induction false} DropStays(w: World, f: Flags, it: Iter, bmeth: Bootmeth)
    requires Valid(w, f, it) && CanStep(it) && Drop(it, bmeth).Some?
    ensures Valid(w, f, Drop(it, bmeth).value) && CanStep(Drop(it, bmeth).value)
    ensures KeyOf(f, Drop(it, bmeth).value) == KeyOf(f, it)
  {
  }

  // ---------------------------------------------------------------- whole runs

  /** The positions offered from here on, starting with the step after check number `t - 1`. */
  ghost function Rest(w: World, f: Flags, env: Env, it: Iter, t: nat): seq<Offer>
    requires Valid(w, f, it) && CanStep(it) && Tame(env)
    decreases if it.doingGlobal then 1 else 0, MajorLeft(w, f, it), |w.devs| - DevIndex(it),
              MAX_PART_PER_BOOTDEV - it.part, it.numMethods - it.curMethod
  {
    var (it', more) := Incr(w, f, it);
    if !more then []
    else
      IncrAdvances(w, f, it);
      CheckStays(w, f, it', env(t, Where(it')), true);
      [OfferOf(f, it')] + Rest(w, f, env, AfterCheck(it', env(t, Where(it')), true), t + 1)
  }

  predicate Ascending(from: Key, keys: seq<Key>) {
    && (forall i :: 0 <= i < |keys| ==> KeyLess(from, keys[i]))
    && (forall i, j :: 0 <= i < j < |keys| ==> KeyLess(keys[i], keys[j]))
  }

  function Keys(offers: seq<Offer>): (r: seq<Key>)
    ensures |r| == |offers|
    ensures forall i :: 0 <= i < |offers| ==> r[i] == offers[i].key
  {
    seq(|offers|, i requires 0 <= i < |offers| => offers[i].key)
  }

  lemma {:induction false} AscendingCons(from: Key, key: Key, keys: seq<Key>)
    requires KeyLess(from, key) && Ascending(key, keys)
    ensures Ascending(from, [key] + keys)
  {
    forall i | 0 <= i < |keys| ensures KeyLess(from, keys[i]) {
      assert KeyLess(key, keys[i]);
    }
  }

  /** Ascending positions never come back. */
  lemma {:induction false} AscendingOnce(from: Key, keys: seq<Key>)
    requires Ascending(from, keys)
    ensures from !in keys
    ensures forall i, j :: 0 <= i < j < |keys| ==> keys[i] != keys[j] && !KeyLess(keys[j], keys[i])
  {
    forall i, j | 0 <= i < j < |keys| ensures keys[i] != keys[j] && !KeyLess(keys[j], keys[i]) {
      assert KeyLess(keys[i], keys[j]);
    }
  }

  /** Within one scan every offered position lies strictly after all earlier ones. */
  lemma {:induction false} RestAscends(w: World, f: Flags, env: Env, it: Iter, t: nat)
    requires Valid(w, f, it) && CanStep(it) && Tame(env)
    ensures Ascending(KeyOf(f, it), Keys(Rest(w, f, env, it, t)))
    decreases |Rest(w, f, env, it, t)|
  {
    hide Incr, Valid, KeyOf, KeyLess, Ascending;
    var (it', more) := Incr(w, f, it);
    if more {
      IncrAdvances(w, f, it);
      var o := env(t, Where(it'));
      CheckStays(w, f, it', o, true);
      RestAscends(w, f, env, AfterCheck(it', o, true), t + 1);
      var rest := Rest(w, f, env, AfterCheck(it', o, true), t + 1);
      assert Keys([OfferOf(f, it')] + rest) == [KeyOf(f, it')] + Keys(rest);
      AscendingCons(KeyOf(f, it), KeyOf(f, it'), Keys(rest));
    } else {
      assert Ascending(KeyOf(f, it), []) by { NothingAscends(KeyOf(f, it)); }
    }
  }

  lemma {:induction false} NothingAscends(from: Key)
    ensures Ascending(from, [])
  {
  }

  /** What can happen to an iterator: a step, the answer of a check, a dropped bootmeth. */
  datatype Op = Step | Answer(o: Outcome) | DropIt(bmeth: Bootmeth)

  /** The positions reached by the steps among `ops`, up to the first step that fails. */
  ghost function Play(w: World, f: Flags, it: Iter, ops: seq<Op>): seq<Key>
    requires Valid(w, f, it) && CanStep(it)
    decreases |ops|
  {
    if ops == [] then []
    else
      match ops[0]
      case Step =>
        var (it', more) := Incr(w, f, it);
        if !more then [] else
          IncrAdvances(w, f, it);
          [KeyOf(f, it')] + Play(w, f, it', ops[1..])
      case Answer(o) =>
        if it.doingGlobal && o.code == NoMoreParts then [] else
          CheckStays(w, f, it, o, true);
          Play(w, f, AfterCheck(it, o, true), ops[1..])
      case DropIt(bmeth) =>
        if Drop(it, bmeth).None? then Play(w, f, it, ops[1..]) else
          DropStays(w, f, it, bmeth);
          Play(w, f, Drop(it, bmeth).value, ops[1..])
  }

  /** However checks answer and whichever bootmeths are dropped in between, positions only rise. */
  lemma {:induction false} PlayAscends(w: World, f: Flags, it: Iter, ops: seq<Op>)
    requires Valid(w, f, it) && CanStep(it)
    ensures Ascending(KeyOf(f, it), Play(w, f, it, ops))
    decreases |ops|
  {
    hide Incr, KeyOf, KeyLess, Ascending, Drop;
    NothingAscends(KeyOf(f, it));
    if ops != [] {
      match ops[0] {
        case Step =>
          var (it', more) := Incr(w, f, it);
          if more {
            IncrAdvances(w, f, it);
            PlayAscends(w, f, it', ops[1..]);
            AscendingCons(KeyOf(f, it), KeyOf(f, it'), Play(w, f, it', ops[1..]));
          }
        case Answer(o) =>
          if !(it.doingGlobal && o.code == NoMoreParts) {
            CheckStays(w, f, it, o, true);
            PlayAscends(w, f, AfterCheck(it, o, true), ops[1..]);
          }
        case DropIt(bmeth) =>
          if Drop(it, bmeth).None? {
            PlayAscends(w, f, it, ops[1..]);
          } else {
            DropStays(w, f, it, bmeth);
            PlayAscends(w, f, Drop(it, bmeth).value, ops[1..]);
          }
      }
    }
  }
}
