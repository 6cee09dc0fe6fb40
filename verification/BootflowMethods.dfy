/** The list of bootmeths: which ones a scan collects, and what forgetting one does to the rest. */
module BootflowMethods {
  import opened Results
  import opened BootflowModel
  import opened BootflowOrder
  import opened BootflowIter

  // ---------------------------------------------------------------- collecting

  /** Every bootmeth, in order of sequence number. */
  function Present(slots: seq<Option<Bootmeth>>, i: nat): seq<Bootmeth>
    decreases |slots| - i
  {
    if i >= |slots| then []
    else (if slots[i].Some? then [slots[i].value] else []) + Present(slots, i + 1)
  }

  /** No bootmeth has a sequence number beyond those that are tried. */
  predicate Reached(slots: seq<Option<Bootmeth>>, limit: nat, i: nat) {
    forall k :: i <= k < |slots| && limit <= k ==> slots[k].None?
  }

  /** The two passes together pick all bootmeths if and only if no sequence number is out of reach. */
  lemma {:induction false} PassesSplit(slots: seq<Option<Bootmeth>>, limit: nat, i: nat)
    ensures |Pick(slots, limit, false, i)| + |Pick(slots, limit, true, i)| <= |Present(slots, i)|
    ensures |Pick(slots, limit, false, i)| + |Pick(slots, limit, true, i)| == |Present(slots, i)|
            <==> Reached(slots, limit, i)
    decreases |slots| - i
  {
    if i >= |slots| {
    } else if i >= limit {
      PassesSplit(slots, limit, i + 1);
      if slots[i].None? { assert Reached(slots, limit, i) <==> Reached(slots, limit, i + 1); }
    } else {
      PassesSplit(slots, limit, i + 1);
      assert Reached(slots, limit, i) <==> Reached(slots, limit, i + 1);
    }
  }

  /** The bootmeths of one kind, in the same order. */
  function Kind(list: seq<Bootmeth>, global: bool): seq<Bootmeth> {
    if list == [] then []
    else (if list[0].global == global then [list[0]] else []) + Kind(list[1..], global)
  }

  /** The bootmeth of that kind in one slot, if there is one. */
  function OfKind(slot: Option<Bootmeth>, global: bool): seq<Bootmeth> {
    if slot.Some? && slot.value.global == global then [slot.value] else []
  }

  lemma {:induction false} KindOfNext(slots: seq<Option<Bootmeth>>, global: bool, i: nat)
    requires i < |slots|
    ensures Kind(Present(slots, i), global) == OfKind(slots[i], global) + Kind(Present(slots, i + 1), global)
  {
    var rest := Present(slots, i + 1);
    if slots[i].Some? {
      assert ([slots[i].value] + rest)[1..] == rest;
    } else {
      assert Present(slots, i) == rest;
    }
  }

  lemma {:induction false} PickNext(slots: seq<Option<Bootmeth>>, limit: nat, global: bool, i: nat)
    requires i < |slots|
    ensures Pick(slots, limit, global, i)
            == if i < limit then OfKind(slots[i], global) + Pick(slots, limit, global, i + 1) else []
  {
  }

  lemma {:induction false} KindsFit(list: seq<Bootmeth>)
    ensures |Kind(list, false)| + |Kind(list, true)| == |list|
  {
    if list != [] { KindsFit(list[1..]); }
  }

  /** A pass picks in order of sequence number: a prefix of what there is of its kind, and all of it
    * if nothing is out of reach. */
  lemma {:induction false} PickInOrder(slots: seq<Option<Bootmeth>>, limit: nat, global: bool, i: nat)
    ensures Pick(slots, limit, global, i) <= Kind(Present(slots, i), global)
    ensures Reached(slots, limit, i) ==> Pick(slots, limit, global, i) == Kind(Present(slots, i), global)
    decreases |slots| - i
  {
    hide OfKind;
    if i < |slots| {
      hide Pick, Present, Kind;
      KindOfNext(slots, global, i);
      PickNext(slots, limit, global, i);
      if i < limit {
        PickInOrder(slots, limit, global, i + 1);
        assert Reached(slots, limit, i) ==> Reached(slots, limit, i + 1);
      } else if Reached(slots, limit, i) {
        NonePresent(slots, i);
        KindOfNone(global);
      }
    }
  }

  lemma {:induction false} KindOfNone(global: bool)
    ensures Kind([], global) == []
  {
  }

  lemma {:induction false} NonePresent(slots: seq<Option<Bootmeth>>, i: nat)
    requires forall k :: i <= k < |slots| ==> slots[k].None?
    ensures Present(slots, i) == []
    decreases |slots| - i
  {
    if i < |slots| { NonePresent(slots, i + 1); }
  }

  /** Both kinds are listed in order of sequence number, the global ones last, up to a first one out
    * of reach; the list holds every bootmeth if and only if no sequence number is 20 plus twice
    * their number or more. */
  lemma {:induction false} OrderComplete(slots: seq<Option<Bootmeth>>, count: nat)
    requires |Present(slots, 0)| == count
    ensures |Plains(slots, count)| <= count
    ensures var plain, globals, all := Plains(slots, count), GlobalOnes(slots, count), Present(slots, 0);
            && plain <= Kind(all, false) && globals <= Kind(all, true)
            && (plain == Kind(all, false) && globals == Kind(all, true) <==> Reached(slots, 20 + 2 * count, 0))
  {
    hide Pick, Present, Reached, Kind;
    var all := Present(slots, 0);
    PassesSplit(slots, SearchLimit(count), 0);
    PickInOrder(slots, SearchLimit(count), false, 0);
    PickInOrder(slots, SearchLimit(count), true, 0);
    KindsFit(all);
  }

  // ---------------------------------------------------------------- forgetting one

  predicate Distinct(order: seq<Bootmeth>) {
    forall i, j :: 0 <= i < j < |order| ==> order[i] != order[j]
  }

  /** Nowhere in the order from which steps take bootmeths. */
  predicate Forgotten(it: Iter, m: Bootmeth)
    requires it.order != [] && it.numMethods <= |it.order|
  {
    && m !in it.order[..it.numMethods] && it.order[0] != m
    && (it.doingGlobal && 0 <= it.firstGlob <= |it.order| ==> m !in it.order[..it.firstGlob])
  }

  lemma {:induction false} ForgottenStays(w: World, f: Flags, it: Iter, m: Bootmeth)
    requires Valid(w, f, it) && CanStep(it) && Forgotten(it, m) && Incr(w, f, it).1
    ensures Valid(w, f, Incr(w, f, it).0) && Forgotten(Incr(w, f, it).0, m) && Incr(w, f, it).0.meth != m
  {
    hide NextPrio, NextLabel, NextSibling;
    IncrAdvances(w, f, it);
    var skip := it.err == NoMoreParts;
    if !skip && it.curMethod + 1 < it.numMethods {
      assert it.order[..it.numMethods][it.curMethod + 1] == it.order[it.curMethod + 1];
    }
  }

  lemma {:induction false} NeverAgain(w: World, f: Flags, env: Env, it: Iter, m: Bootmeth, t: nat)
    requires Valid(w, f, it) && CanStep(it) && Tame(env) && Forgotten(it, m)
    ensures forall i :: 0 <= i < |Rest(w, f, env, it, t)| ==> Rest(w, f, env, it, t)[i].meth != m
    decreases |Rest(w, f, env, it, t)|
  {
    hide Incr, KeyOf, KeyLess, Forgotten;
    var (it', more) := Incr(w, f, it);
    if more {
      IncrAdvances(w, f, it);
      ForgottenStays(w, f, it, m);
      var o := env(t, Where(it'));
      CheckStays(w, f, it', o, true);
      CheckForgets(it', o, m);
      NeverAgain(w, f, env, AfterCheck(it', o, true), m, t + 1);
    }
  }

  lemma {:induction false} CheckForgets(it: Iter, o: Outcome, m: Bootmeth)
    requires it.order != [] && it.numMethods <= |it.order| && Forgotten(it, m)
    ensures Forgotten(AfterCheck(it, o, true), m)
  {
  }

  lemma {:induction false} DropForgets(it: Iter)
    requires it.order != [] && it.numMethods <= |it.order| && Distinct(it.order[..it.numMethods])
    requires it.doingGlobal ==> 0 <= it.firstGlob <= it.curMethod
    requires Drop(it, it.meth).Some? && it.numMethods > 1
    ensures Forgotten(Drop(it, it.meth).value, it.meth)
  {
    var cur, n, m, it' := it.curMethod, it.numMethods, it.meth, Drop(it, it.meth).value;
    var order := it.order[..n];
    assert it'.order[..n - 1] == order[..cur] + order[cur + 1..];
    assert order[cur] == m;
    forall k | 0 <= k < n && k != cur ensures order[k] != m {
      if k < cur { assert order[k] != order[cur]; } else { assert order[cur] != order[k]; }
    }
    assert it'.order[0] == it'.order[..n - 1][0];
    if it.doingGlobal {
      assert it'.order[..it.firstGlob] == order[..it.firstGlob];
    }
  }

  /** A dropped bootmeth is never offered again in the rest of the scan, whatever the checks answer,
    * if and only if it was not the only one left: the only one comes back at once. */
  lemma {:induction false} DroppedForGood(w: World, f: Flags, env: Env, it: Iter, t: nat)
    requires Valid(w, f, it) && CanStep(it) && Tame(env)
    requires Distinct(it.order[..it.numMethods]) && Drop(it, it.meth).Some?
    ensures var it' := Drop(it, it.meth).value;
            && Valid(w, f, it') && CanStep(it')
            && var rest := Rest(w, f, env, it', t);
               && (it.numMethods > 1 ==> forall i :: 0 <= i < |rest| ==> rest[i].meth != it.meth)
               && (it.numMethods == 1 && rest != [] ==> rest[0].meth == it.meth)
  {
    hide KeyOf, KeyLess, NextDev, Forgotten;
    DropStays(w, f, it, it.meth);
    var it' := Drop(it, it.meth).value;
    if it.numMethods > 1 {
      DropForgets(it);
      NeverAgain(w, f, env, it', it.meth, t);
    } else if Incr(w, f, it').1 {
      OnlyOneReturns(w, f, it);
    }
  }

  lemma {:induction false} OnlyOneReturns(w: World, f: Flags, it: Iter)
    requires Valid(w, f, it) && CanStep(it) && Drop(it, it.meth).Some? && it.numMethods == 1
    ensures var it' := Drop(it, it.meth).value;
            Valid(w, f, it') && CanStep(it') && (Incr(w, f, it').1 ==> Incr(w, f, it').0.meth == it.meth)
  {
    hide NextPrio, NextLabel, NextSibling;
    DropStays(w, f, it, it.meth);
  }

  /** The step stayed on its partition and went on to the next bootmeth. */
  predicate WentOn(it: Iter, step: (Iter, bool)) {
    step.1 && step.0.curMethod == it.curMethod + 1
  }

  /** Another bootmeth is due on this partition. */
  predicate Follows(it: Iter) {
    it.curMethod + 1 < it.numMethods && it.err != NoMoreParts && it.err != NoMoreDevices
  }

  lemma {:induction false} DropPassesOver(w: World, f: Flags, it: Iter)
    requires Valid(w, f, it) && CanStep(it) && Drop(it, it.meth).Some? && Follows(it)
    requires Valid(w, f, Drop(it, it.meth).value) && CanStep(Drop(it, it.meth).value)
    ensures WentOn(it, Incr(w, f, it)) && Incr(w, f, it).0.meth == it.order[it.curMethod + 1]
    ensures var it' := Drop(it, it.meth).value;
            var after := Incr(w, f, it');
            if it.curMethod + 2 < it.numMethods
            then WentOn(it', after) && after.0.meth == it.order[it.curMethod + 2]
            else !WentOn(it', after)
  {
    hide MoveOn, ValidWorld;
    var it' := Drop(it, it.meth).value;
    if it.doingGlobal {
      var gone := it'.(numMethods := it.firstGlob, doingGlobal := false);
      MoveOnAlike(w, f, gone, gone, true);
    } else {
      MoveOnAlike(w, f, it', it', false);
    }
  }

  lemma {:induction false} DropElsewhere(w: World, f: Flags, it: Iter)
    requires Valid(w, f, it) && CanStep(it) && Drop(it, it.meth).Some? && !Follows(it)
    requires Valid(w, f, Drop(it, it.meth).value) && CanStep(Drop(it, it.meth).value)
    ensures var before, after := Incr(w, f, it), Incr(w, f, Drop(it, it.meth).value);
            && !WentOn(it, before) && after.1 == before.1
            && after.0.dev == before.0.dev && after.0.part == before.0.part
            && after.0.curMethod == before.0.curMethod
  {
    hide MoveOn, ValidWorld;
    var it' := Drop(it, it.meth).value;
    if it.doingGlobal {
      var gone := it.(numMethods := it.firstGlob, doingGlobal := false);
      MoveOnAlike(w, f, gone, it'.(numMethods := it.firstGlob, doingGlobal := false), true);
    } else {
      MoveOnAlike(w, f, it, it', false);
    }
  }

  /** The list moves up under an index that still advances.  So a drop makes the scan pass over a
    * bootmeth on this partition if and only if one follows the dropped one here and neither the
    * end of partitions nor of devices is recorded; otherwise the step leads where it would have led
    * without the drop. */
  lemma {:induction false} DropSkipsIff(w: World, f: Flags, it: Iter)
    requires Valid(w, f, it) && CanStep(it) && Drop(it, it.meth).Some?
    ensures var it' := Drop(it, it.meth).value;
            && Valid(w, f, it') && CanStep(it')
            && var before, after := Incr(w, f, it), Incr(w, f, it');
               && (WentOn(it, before) <==> Follows(it))
               && (Follows(it) ==> before.0.meth == it.order[it.curMethod + 1])
               && (Follows(it) && it.curMethod + 2 < it.numMethods ==>
                     WentOn(it', after) && after.0.meth == it.order[it.curMethod + 2])
               && (Follows(it) && it.curMethod + 2 == it.numMethods ==> !WentOn(it', after))
               && (!Follows(it) ==> after.1 == before.1 && after.0.dev == before.0.dev
                                    && after.0.part == before.0.part && after.0.curMethod == before.0.curMethod)
  {
    hide Incr, Valid, CanStep, WentOn;
    DropStays(w, f, it, it.meth);
    if Follows(it) {
      DropPassesOver(w, f, it);
    } else {
      DropElsewhere(w, f, it);
    }
  }

  /** Three bootmeths: after the first one is dropped the third comes next. */
  lemma {:induction false} SecondPassedOver(w: World, f: Flags, it: Iter, a: Bootmeth, b: Bootmeth, c: Bootmeth)
    requires Valid(w, f, it) && it.order == [a, b, c] && it.numMethods == 3
    requires it.curMethod == 0 && it.meth == a && it.err == Done
    ensures Drop(it, a).Some? && Valid(w, f, Drop(it, a).value) && CanStep(Drop(it, a).value)
    ensures Incr(w, f, Drop(it, a).value).1 && Incr(w, f, Drop(it, a).value).0.meth == c
  {
    DropSkipsIff(w, f, it);
  }
}
