/** The iterator object: the scan as code that updates its fields in place. */
module BootflowIter {
  import opened Results
  import opened BootflowModel
  import opened BootflowOrder
  import opened BootflowLoops

  // ---------------------------------------------------------------- default order of bootmeths

  /** The global (or the plain) bootmeths with sequence numbers from `i` up to the search limit. */
  function Pick(slots: seq<Option<Bootmeth>>, limit: nat, global: bool, i: nat): seq<Bootmeth>
    decreases |slots| - i
  {
    if i >= |slots| || i >= limit then []
    else if slots[i].Some? && slots[i].value.global == global
    then [slots[i].value] + Pick(slots, limit, global, i + 1)
    else Pick(slots, limit, global, i + 1)
  }

  function Take<T>(s: seq<T>, n: nat): seq<T> {
    if n < |s| then s[..n] else s
  }

  /** Sequence numbers may have gaps, so more of them are tried than there are bootmeths. */
  function SearchLimit(count: nat): nat {
    20 + count * 2
  }

  function Plains(slots: seq<Option<Bootmeth>>, count: nat): seq<Bootmeth> {
    Take(Pick(slots, SearchLimit(count), false, 0), count)
  }

  function GlobalOnes(slots: seq<Option<Bootmeth>>, count: nat): seq<Bootmeth>
    requires |Plains(slots, count)| <= count
  {
    Take(Pick(slots, SearchLimit(count), true, 0), count - |Plains(slots, count)|)
  }

  lemma {:induction false} PlainsFit(slots: seq<Option<Bootmeth>>, count: nat)
    ensures |Plains(slots, count)| <= count
    ensures count == 0 ==> GlobalOnes(slots, count) == []
  {
  }

  lemma {:induction false} PassesAre(slots: seq<Option<Bootmeth>>, count: nat)
    ensures |Plains(slots, count)| <= count
    ensures Plains(slots, count) == Take(Pick(slots, SearchLimit(count), false, 0), count)
    ensures GlobalOnes(slots, count)
            == Take(Pick(slots, SearchLimit(count), true, 0), count - |Plains(slots, count)|)
    ensures count == 0 ==> Plains(slots, count) == [] && GlobalOnes(slots, count) == []
  {
  }

  lemma {:induction false} TakeCons<T>(done: seq<T>, x: T, rest: seq<T>, n: nat)
    requires n > 0
    ensures done + Take([x] + rest, n) == (done + [x]) + Take(rest, n - 1)
  {
  }

  lemma {:induction false} PickUnfolds(slots: seq<Option<Bootmeth>>, limit: nat, global: bool, i: nat)
    ensures Pick(slots, limit, global, i)
            == if i >= |slots| || i >= limit then []
               else if slots[i].Some? && slots[i].value.global == global
               then [slots[i].value] + Pick(slots, limit, global, i + 1)
               else Pick(slots, limit, global, i + 1)
    ensures i >= |slots| ==> Pick(slots, limit, global, i + 1) == []
  {
  }

  lemma {:induction false} TakeNone<T>(s: seq<T>, n: nat)
    requires n == 0 || s == []
    ensures Take(s, n) == []
  {
  }

  /** One pass over the sequence numbers: appends matching bootmeths until the list is full. */
  method Pass(slots: seq<Option<Bootmeth>>, count: nat, global: bool, order: seq<Bootmeth>)
    returns (order': seq<Bootmeth>)
    requires |order| <= count
    ensures order' == order + Take(Pick(slots, SearchLimit(count), global, 0), count - |order|)
  {
    hide Pick, Take, SearchLimit;
    order' := order;
    var i := 0;
    while |order'| < count && i < SearchLimit(count)
      invariant |order| <= |order'| <= count
      invariant order' + Take(Pick(slots, SearchLimit(count), global, i), count - |order'|)
                == order + Take(Pick(slots, SearchLimit(count), global, 0), count - |order|)
      decreases SearchLimit(count) - i
    {
      PickUnfolds(slots, SearchLimit(count), global, i);
      if i < |slots| && slots[i].Some? && slots[i].value.global == global {
        TakeCons(order', slots[i].value, Pick(slots, SearchLimit(count), global, i + 1), count - |order'|);
        order' := order' + [slots[i].value];
      }
      i := i + 1;
    }
    PickUnfolds(slots, SearchLimit(count), global, i);
    TakeNone(Pick(slots, SearchLimit(count), global, i), count - |order'|);
  }

  /** What the check with this number answered for the offered position. */
  function AnswerTo(env: Env, t: nat, offer: Offer): Code {
    env(t, if offer.key.phase == 0 then None else Some(offer.part)).code
  }

  /** An answer with which a scan returns to its caller: a bootflow, or a failure when all results
    * are wanted. */
  predicate Reported(f: Flags, code: Code) {
    code == Done || (f.all && code == Failed)
  }

  /** An answer after which the scan goes on by itself: when all results are wanted, only that this
    * bootdev has no more partitions or the bootmeth does not work here. */
  predicate PassedOver(f: Flags, code: Code) {
    code != Done && (f.all ==> code == NoMoreParts || code == NotSupported)
  }

  lemma {:induction false} AnswerHere(env: Env, t: nat, f: Flags, it: Iter)
    ensures AnswerTo(env, t, OfferOf(f, it)) == env(t, Where(it)).code
  {
  }

  lemma {:induction false} PrioUnfolds(w: World, prio: nat, dev: Option<nat>)
    requires prio < BOOTDEVP_COUNT && (dev.Some? ==> dev.value < |w.devs|)
    ensures NextPrio(w, prio, dev)
            == var found := NextAt(w, prio, if dev.Some? then dev.value + 1 else 0);
               if found.Some? then (prio, found)
               else if prio + 1 == BOOTDEVP_COUNT then (BOOTDEVP_COUNT, None)
               else NextPrio(w, prio + 1, None)
  {
    hide NextAt;
  }

  method ArrayOf(list: seq<Bootmeth>) returns (a: array<Bootmeth>)
    ensures fresh(a) && a[..] == list
  {
    a := new Bootmeth[|list|](i requires 0 <= i < |list| => list[i]);
  }

  /** Moves the entries after `cur` up to `last` one place towards the front, in place. */
  method MoveUp(a: array<Bootmeth>, cur: nat, last: nat)
    requires cur <= last < a.Length
    modifies a
    ensures forall k :: 0 <= k < cur || last <= k < a.Length ==> a[k] == old(a[k])
    ensures forall k :: cur <= k < last ==> a[k] == old(a[k + 1])
    ensures a[..] == old(a[..])[..cur] + old(a[..])[cur + 1..last + 1] + old(a[..])[last..]
  {
    for i := cur to last
      invariant forall k :: 0 <= k < cur ==> a[k] == old(a[k])
      invariant forall k :: cur <= k < i ==> a[k] == old(a[k + 1])
      invariant forall k :: i <= k < a.Length ==> a[k] == old(a[k])
    {
      a[i] := a[i + 1];
    }
    DropShifts(old(a[..]), a[..], cur, last + 1);
  }

  /** What one turn does to the list of positions still to be offered. */
  lemma {:induction false} OneTurn(w: World, f: Flags, env: Env, it: Iter, t: nat)
    requires Valid(w, f, it) && CanStep(it) && Tame(env)
    ensures var (it', more) := Incr(w, f, it);
            if !more then Rest(w, f, env, it, t) == []
            else
              var o := env(t, Where(it'));
              var it2 := AfterCheck(it', o, true);
              && Valid(w, f, it') && CanStep(it') && Valid(w, f, it2) && CanStep(it2)
              && Rest(w, f, env, it, t) == [OfferOf(f, it')] + Rest(w, f, env, it2, t + 1)
              && AnswerTo(env, t, OfferOf(f, it')) == o.code
              && (o.code == NoMoreDevices ==> Rest(w, f, env, it2, t + 1) == [])
  {
    hide Incr, Valid, KeyLess;
    var (it', more) := Incr(w, f, it);
    if more {
      IncrAdvances(w, f, it);
      var o := env(t, Where(it'));
      CheckStays(w, f, it', o, true);
      OutOfDevices(w, f, env, AfterCheck(it', o, true), t + 1);
    }
  }

  lemma {:induction false} RecordsError(it: Iter, o: Outcome)
    ensures AfterCheck(it, o, true)
            == if o.code == Done then AfterCheck(it, o, false) else AfterCheck(it, o, false).(err := o.code)
  {
  }

  lemma {:induction false} DropIs(it: Iter, bmeth: Bootmeth, after: seq<Bootmeth>)
    requires it.numMethods <= |it.order| && it.curMethod < it.numMethods
    requires bmeth == it.meth == it.order[it.curMethod]
    requires after == it.order[..it.curMethod] + it.order[it.curMethod + 1..it.numMethods]
                      + it.order[it.numMethods - 1..]
    ensures Drop(it, bmeth) == Some(it.(order := after, numMethods := it.numMethods - 1))
  {
  }

  lemma {:induction false} DropShifts(before: seq<Bootmeth>, after: seq<Bootmeth>, cur: nat, n: nat)
    requires cur < n <= |before| == |after|
    requires forall k :: 0 <= k < cur || n - 1 <= k < |before| ==> after[k] == before[k]
    requires forall k {:trigger after[k]} :: cur <= k < n - 1 ==> after[k] == before[k + 1]
    ensures after == before[..cur] + before[cur + 1..n] + before[n - 1..]
  {
  }

  class Iterator {
    var flags: Flags
    var dev: Option<nat>
    var part: nat
    var maxPart: nat
    var err: Code
    var labels: Option<seq<Option<nat>>>
    var curLabel: int
    var curPrio: nat
    var order: array<Bootmeth>
    var numMethods: nat
    var curMethod: nat
    var firstGlob: int
    var doingGlobal: bool
    var meth: Bootmeth
    /** How many checks have been made, and every position they were offered. */
    var checks: nat
    ghost var trace: seq<Offer>

    function View(): Iter
      reads this, order
    {
      Iter(dev, part, maxPart, err, labels, curLabel, curPrio, order[..], numMethods, curMethod,
           firstGlob, doingGlobal, meth)
    }

    constructor (flags: Flags)
      ensures this.flags == flags && checks == 0 && trace == []
      ensures View() == Iter(None, 0, 0, Done, None, 0, 0, [], 0, 0, -1, false, Bootmeth(0, false))
    {
      this.flags := flags;
      dev, part, maxPart, err := None, 0, 0, Done;
      labels, curLabel, curPrio := None, 0, 0;
      order := new Bootmeth[0];
      numMethods, curMethod, firstGlob, doingGlobal := 0, 0, -1, false;
      meth := Bootmeth(0, false);
      checks, trace := 0, [];
    }

    /** Plain bootmeths first, then the global ones; the scan starts with the global ones. */
    method SetupOrder(slots: seq<Option<Bootmeth>>, count: nat, includeGlobal: bool) returns (ok: bool)
      modifies `order, `numMethods, `firstGlob, `doingGlobal, `curMethod
      ensures |Plains(slots, count)| <= count
      ensures var plain := Plains(slots, count);
              var globals := if includeGlobal then GlobalOnes(slots, count) else [];
              && ok == (plain + globals != [])
              && (ok ==> View() == old(View()).(
                    order := plain + globals, numMethods := |plain| + |globals|,
                    firstGlob := if includeGlobal then |plain| else old(firstGlob),
                    doingGlobal := globals != [] || old(doingGlobal),
                    curMethod := if globals != [] then |plain| else old(curMethod)))
    {
      hide Pick, Take, SearchLimit, Plains, GlobalOnes;
      PassesAre(slots, count);
      if count == 0 {
        return false;
      }
      var list := Pass(slots, count, false, []);
      assert list == Plains(slots, count);
      var first := firstGlob;
      if includeGlobal {
        first := |list|;
        list := Pass(slots, count, true, list);
      }
      if list == [] {
        return false;
      }
      if includeGlobal && first != |list| {
        curMethod := first;
        doingGlobal := true;
      }
      order := ArrayOf(list);
      firstGlob, numMethods := first, |list|;
      return true;
    }

    /** Looks for the next bootdev by priority, after the current one if there is one. */
    method FindByPrio(w: World, start: Option<nat>) returns (ok: bool)
      requires curPrio < BOOTDEVP_COUNT && (start.Some? ==> start.value < |w.devs|)
      modifies `curPrio, `dev
      ensures var (p, d) := NextPrio(w, old(curPrio), start);
              View() == old(View()).(curPrio := p, dev := d) && ok == d.Some?
    {
      hide NextAt, NextPrio;
      var at: nat := if start.Some? then start.value + 1 else 0;
      ghost var from: Option<nat> := start;
      while true
        invariant curPrio < BOOTDEVP_COUNT && at <= |w.devs|
        invariant from.Some? ==> from.value < |w.devs|
        invariant dev == old(dev)
        invariant NextPrio(w, curPrio, from) == NextPrio(w, old(curPrio), start)
        invariant NextAt(w, curPrio, at) == NextAt(w, curPrio, if from.Some? then from.value + 1 else 0)
        decreases BOOTDEVP_COUNT - curPrio, |w.devs| - at
      {
        AtUnfolds(w, curPrio, at);
        PrioUnfolds(w, curPrio, from);
        if at < |w.devs| {
          if w.devs[at].prio == curPrio {
            dev := Some(at);
            return true;
          }
          at := at + 1;
        } else {
          curPrio := curPrio + 1;
          if curPrio == BOOTDEVP_COUNT {
            dev := None;
            return false;
          }
          at, from := 0, None;
        }
      }
    }

    /** Looks for the next bootdev by label. */
    method FindByLabel() returns (ok: bool)
      requires labels.Some? && -1 <= curLabel < |labels.value|
      modifies `curLabel, `dev
      ensures var (c, d) := NextLabel(old(labels).value, old(curLabel));
              View() == old(View()).(curLabel := c, dev := d) && ok == d.Some?
    {
      dev := None;
      curLabel := curLabel + 1;
      while curLabel < |labels.value| && labels.value[curLabel].None?
        invariant old(curLabel) < curLabel <= |labels.value|
        invariant dev == None
        invariant NextLabel(labels.value, curLabel - 1) == NextLabel(labels.value, old(curLabel))
        decreases |labels.value| - curLabel
      {
        curLabel := curLabel + 1;
      }
      if curLabel == |labels.value| {
        return false;
      }
      dev := labels.value[curLabel];
      return true;
    }

    method SetupDevices(w: World) returns (ok: bool)
      requires ValidWorld(w) && curPrio < BOOTDEVP_COUNT
      modifies `labels, `curLabel, `curPrio, `dev
      ensures (View(), ok) == Setup(w, old(View()))
    {
      labels := w.labels;
      if labels.Some? {
        curLabel := -1;
        ok := FindByLabel();
      } else {
        ok := FindByPrio(w, None);
      }
    }

    method FindSibling(w: World) returns (ok: bool)
      requires dev.Some? && dev.value < |w.devs|
      modifies `dev
      ensures var d := NextSibling(w, w.devs[old(dev).value].media, old(dev).value + 1);
              View() == old(View()).(dev := d) && ok == d.Some?
    {
      var media, at := w.devs[dev.value].media, dev.value + 1;
      while at < |w.devs| && w.devs[at].media != media
        invariant at <= |w.devs|
        invariant NextSibling(w, media, at) == NextSibling(w, media, dev.value + 1)
        decreases |w.devs| - at
      {
        at := at + 1;
      }
      dev := if at < |w.devs| then Some(at) else None;
      return dev.Some?;
    }

    method SelectDevice(w: World, restart: bool) returns (ok: bool)
      requires ValidWorld(w) && LabelsOk(w, View()) && curPrio < BOOTDEVP_COUNT
      requires !restart ==> dev.Some? && dev.value < |w.devs|
      modifies `labels, `curLabel, `curPrio, `dev
      ensures (View(), ok) == NextDev(w, flags, old(View()), restart)
    {
      if flags.singleDev {
        ok := false;
      } else if restart {
        ok := SetupDevices(w);
      } else if flags.singleUclass {
        dev := if dev.value + 1 < |w.devs| then Some(dev.value + 1) else None;
        ok := dev.Some?;
      } else if flags.singleMedia {
        ok := FindSibling(w);
      } else if labels.Some? {
        ok := FindByLabel();
      } else {
        ok := FindByPrio(w, dev);
      }
    }

    /** Back to the first bootmeth, on the next partition or bootdev. */
    method Proceed(w: World, restart: bool) returns (ok: bool)
      requires ValidWorld(w) && LabelsOk(w, View()) && curPrio < BOOTDEVP_COUNT && order.Length > 0
      requires !restart ==> dev.Some? && dev.value < |w.devs|
      modifies `labels, `curLabel, `curPrio, `dev, `curMethod, `meth, `part, `maxPart
      ensures (View(), ok) == MoveOn(w, flags, old(View()), restart)
    {
      hide NextDev, ValidWorld;
      curMethod := 0;
      meth := order[curMethod];
      if err != NoMoreParts {
        if part + 1 <= maxPart {
          part := part + 1;
          return true;
        }
      }
      part := 0;
      maxPart := 0;
      ok := SelectDevice(w, restart);
    }

    /** Moves to the next bootmeth, partition or bootdev. */
    method Increment(w: World) returns (ok: bool)
      requires Valid(w, flags, View()) && CanStep(View())
      modifies `labels, `curLabel, `curPrio, `dev, `curMethod, `meth, `numMethods, `doingGlobal, `part, `maxPart
      ensures (View(), ok) == Incr(w, flags, old(View()))
    {
      hide MoveOn, ValidWorld;
      var incDev := true;
      if err == NoMoreDevices {
        return false;
      }
      if err != NoMoreParts {
        if curMethod + 1 < numMethods {
          curMethod := curMethod + 1;
          meth := order[curMethod];
          return true;
        }
        if doingGlobal {
          numMethods := firstGlob;
          doingGlobal := false;
          incDev := false;
        }
      }
      ok := Proceed(w, !incDev);
    }

    /** Drops the current bootmeth by moving the later ones up in place; any other is refused. */
    method DropBootmeth(bmeth: Bootmeth) returns (ok: bool)
      requires numMethods <= order.Length
      modifies order, `numMethods
      ensures ok <==> bmeth == meth && curMethod < old(numMethods) && old(order[..])[curMethod] == bmeth
      ensures !ok ==> View() == old(View())
      ensures ok ==>
                && numMethods == old(numMethods) - 1
                && (forall k :: 0 <= k < curMethod ==> order[k] == old(order[k]))
                && (forall k :: curMethod <= k < numMethods ==> order[k] == old(order[k + 1]))
                && (forall k :: numMethods <= k < order.Length ==> order[k] == old(order[k]))
      ensures View() == if ok then Drop(old(View()), bmeth).value else old(View())
    {
      hide Drop;
      if bmeth != meth || curMethod >= numMethods || order[curMethod] != bmeth {
        return false;
      }
      MoveUp(order, curMethod, numMethods - 1);
      numMethods := numMethods - 1;
      DropIs(old(View()), bmeth, order[..]);
      return true;
    }

    /** Asks the current bootmeth for a bootflow at the current position. */
    method Check(ghost w: World, env: Env) returns (code: Code)
      requires Valid(w, flags, View())
      modifies `dev, `maxPart, `checks, `trace
      ensures var o := env(old(checks), Where(old(View())));
              && code == o.code
              && View() == AfterCheck(old(View()), o, false)
      ensures checks == old(checks) + 1
      ensures trace == old(trace) + [OfferOf(flags, old(View()))]
    {
      trace := trace + [OfferOf(flags, View())];
      if doingGlobal {
        dev := None;
      }
      var o := env(checks, if doingGlobal then None else Some(part));
      checks := checks + 1;
      if o.table && !doingGlobal {
        maxPart := MAX_PART_PER_BOOTDEV;
      }
      return o.code;
    }

    /** One turn of the scan: a step, a check, and the error recorded. */
    method TryNext(w: World, env: Env) returns (more: bool, code: Code)
      requires Valid(w, flags, View()) && CanStep(View()) && Tame(env)
      modifies `dev, `part, `maxPart, `err, `labels, `curLabel, `curPrio, `numMethods, `curMethod,
               `doingGlobal, `meth, `checks, `trace
      ensures !more ==> Rest(w, flags, env, old(View()), old(checks)) == []
                         && trace == old(trace) && checks == old(checks)
      ensures more ==>
                && Valid(w, flags, View()) && CanStep(View())
                && |trace| == |old(trace)| + 1 && trace[..|old(trace)|] == old(trace) && checks == old(checks) + 1
                && Rest(w, flags, env, old(View()), old(checks))
                   == [trace[|old(trace)|]] + Rest(w, flags, env, View(), checks)
                && code == AnswerTo(env, old(checks), trace[|old(trace)|])
                && (code == NoMoreDevices ==> Rest(w, flags, env, View(), checks) == [])
    {
      hide Incr, Valid, CanStep, Rest, AfterCheck, OfferOf, AnswerTo, Tame, Where;
      code := Done;
      OneTurn(w, flags, env, View(), checks);
      more := Increment(w);
      if more {
        ghost var here := View();
        code := Check(w, env);
        RecordsError(here, env(old(checks), Where(here)));
        if code != Done {
          err := code;
        }
      }
    }

    /** Steps and checks until something is found; the loop ends because positions only rise.
      * What has been offered and what is still to be offered always make up the same list. */
    method ScanNext(w: World, env: Env) returns (code: Code)
      requires Valid(w, flags, View()) && CanStep(View()) && Tame(env)
      modifies `dev, `part, `maxPart, `err, `labels, `curLabel, `curPrio, `numMethods, `curMethod,
               `doingGlobal, `meth, `checks, `trace
      ensures checks - old(checks) == |trace| - |old(trace)| >= 0 && old(trace) <= trace
      ensures code == NoMoreDevices ==>
                trace == old(trace) + Rest(w, flags, env, old(View()), old(checks))
      ensures code != NoMoreDevices ==>
                && Valid(w, flags, View()) && CanStep(View())
                && trace + Rest(w, flags, env, View(), checks)
                   == old(trace) + Rest(w, flags, env, old(View()), old(checks))
                && |trace| > |old(trace)|
                && AnswerTo(env, checks - 1, trace[|trace| - 1]) == code
      ensures forall i :: |old(trace)| <= i < |trace| - 1 ==>
                PassedOver(flags, AnswerTo(env, old(checks) + i - |old(trace)|, trace[i]))
      ensures code == NoMoreDevices ==>
                forall i :: |old(trace)| <= i < |trace| ==>
                  !Reported(flags, AnswerTo(env, old(checks) + i - |old(trace)|, trace[i]))
      ensures code != NoMoreDevices ==> Reported(flags, code)
    {
      hide Valid, CanStep, Rest, AnswerTo;
      ghost var whole := trace + Rest(w, flags, env, View(), checks);
      while true
        invariant Valid(w, flags, View()) && CanStep(View())
        invariant whole == trace + Rest(w, flags, env, View(), checks)
        invariant checks - old(checks) == |trace| - |old(trace)| >= 0 && old(trace) <= trace
        invariant forall i :: |old(trace)| <= i < |trace| ==>
                    PassedOver(flags, AnswerTo(env, old(checks) + i - |old(trace)|, trace[i]))
        decreases |Rest(w, flags, env, View(), checks)|
      {
        ghost var before := trace;
        var more;
        more, code := TryNext(w, env);
        if !more {
          return NoMoreDevices;
        }
        assert trace == before + [trace[|before|]];
        if code == Done {
          return code;
        }
        if code != NoMoreParts && code != NotSupported && flags.all {
          return code;
        }
      }
    }

    /** Orders the bootmeths and picks the first bootdev, unless global bootmeths come first. */
    method Prepare(w: World, slots: seq<Option<Bootmeth>>, count: nat, sel: Selection) returns (ok: bool)
      requires ValidWorld(w) && ValidSelection(w, sel) && View() == FRESH
      modifies `order, `numMethods, `firstGlob, `doingGlobal, `curMethod, `meth, `labels, `curLabel,
               `curPrio, `dev, `flags
      ensures ok == Start(w, old(flags), slots, count, sel).Some?
      ensures ok ==> Start(w, old(flags), slots, count, sel).value == (flags, View())
    {
      hide Pick, Setup, Plains, GlobalOnes;
      PlainsFit(slots, count);
      ok := SetupOrder(slots, count, WithGlobals(sel));
      if !ok {
        return false;
      }
      meth := order[curMethod];
      if !doingGlobal {
        match sel {
          case Anything(_) => ok := SetupDevices(w);
          case Unknown => return false;
          case Chosen(d, scope) =>
            dev := Some(d);
            flags := Narrow(flags, scope);
        }
      }
    }

    /** Makes the first check of a scan, and goes on if it finds nothing. */
    method CheckFirst(w: World, env: Env) returns (code: Code, ghost open: bool)
      requires Valid(w, flags, View()) && CanStep(View()) && Tame(env) && !Ending(err)
      requires checks == 0 && trace == []
      modifies `dev, `part, `maxPart, `err, `labels, `curLabel, `curPrio, `numMethods, `curMethod,
               `doingGlobal, `meth, `checks, `trace
      ensures open ==>
                && Valid(w, flags, View()) && CanStep(View())
                && Whole(w, flags, env, old(View())) == trace + Rest(w, flags, env, View(), checks)
                && checks == |trace| > 0 && AnswerTo(env, checks - 1, trace[|trace| - 1]) == code
                && Reported(flags, code)
      ensures !open ==> code == NoMoreDevices && Whole(w, flags, env, old(View())) == trace
      ensures forall i :: 0 <= i < |trace| - 1 ==> PassedOver(flags, AnswerTo(env, i, trace[i]))
      ensures !open ==> forall i :: 0 <= i < |trace| ==> !Reported(flags, AnswerTo(env, i, trace[i]))
    {
      hide Rest, Valid, CanStep, AnswerTo, Whole, AfterCheck, OfferOf, Where, Tame;
      ghost var it := View();
      FirstTurn(w, flags, env, it);
      RecordsError(it, env(0, Where(it)));
      code := Check(w, env);
      if code != Done && FirstRecorded(flags, code) {
        err := code;
        ghost var first := trace;
        code := ScanNext(w, env);
        assert first <= trace && trace[0] == first[0];
        return code, code != NoMoreDevices;
      }
      return code, code != NoMoreDevices;
    }

    /** Starts a scan and makes the first check.  `open` tells whether the scan can go on. */
    method ScanFirst(w: World, env: Env, slots: seq<Option<Bootmeth>>, count: nat, sel: Selection)
      returns (code: Code, ghost open: bool)
      requires ValidWorld(w) && Tame(env) && ValidSelection(w, sel)
      requires View() == FRESH && checks == 0 && trace == []
      modifies this
      ensures Start(w, old(flags), slots, count, sel).None? ==>
                code == NoMoreDevices && !open && trace == []
      ensures Start(w, old(flags), slots, count, sel).Some? ==>
                var (f, it) := Start(w, old(flags), slots, count, sel).value;
                && flags == f && Valid(w, f, it) && CanStep(it)
                && (open ==> Valid(w, f, View()) && CanStep(View())
                             && Whole(w, f, env, it) == trace + Rest(w, f, env, View(), checks))
                && (!open ==> code == NoMoreDevices && Whole(w, f, env, it) == trace)
      ensures open ==>
                && checks == |trace| > 0 && AnswerTo(env, checks - 1, trace[|trace| - 1]) == code
                && Reported(flags, code)
      ensures forall i :: 0 <= i < |trace| - 1 ==> PassedOver(flags, AnswerTo(env, i, trace[i]))
      ensures !open ==> forall i :: 0 <= i < |trace| ==> !Reported(flags, AnswerTo(env, i, trace[i]))
    {
      hide Start, Rest, Valid, CanStep, AnswerTo, Whole, Tame;
      StartValid(w, flags, slots, count, sel);
      var ok := Prepare(w, slots, count, sel);
      if !ok {
        return NoMoreDevices, false;
      }
      code, open := CheckFirst(w, env);
    }
  }

  // ---------------------------------------------------------------- the start of a scan

  /** What to scan: everything, or what a label names, if anything.  A bootdev without a label does
    * not narrow the scan. */
  datatype Scope = OneDev | OneUclass | OneMedia
  datatype Selection = Anything(skipGlobal: bool) | Unknown | Chosen(dev: nat, scope: Scope)

  /** Global bootmeths come first, unless they are to be skipped: by flag, or because the caller
    * gives a bootdev or a label. */
  predicate WithGlobals(sel: Selection) {
    sel == Anything(false)
  }

  const FRESH := Iter(None, 0, 0, Done, None, 0, 0, [], 0, 0, -1, false, Bootmeth(0, false))

  predicate ValidSelection(w: World, sel: Selection) {
    sel.Chosen? ==> sel.dev < |w.devs|
  }

  function Narrow(f: Flags, scope: Scope): Flags {
    match scope
    case OneUclass => f.(singleUclass := true)
    case OneDev => f.(singleDev := true)
    case OneMedia => f.(singleMedia := true)
  }

  /** The iterator before the first check, if there is anything to scan. */
  function Start(w: World, f: Flags, slots: seq<Option<Bootmeth>>, count: nat, sel: Selection): Option<(Flags, Iter)>
    requires ValidWorld(w)
  {
    PlainsFit(slots, count);
    var plain := Plains(slots, count);
    var globals := if WithGlobals(sel) then GlobalOnes(slots, count) else [];
    var order := plain + globals;
    if order == [] then None
    else
      var cur := if globals != [] then |plain| else 0;
      var it := FRESH.(order := order, numMethods := |order|, curMethod := cur, meth := order[cur],
                       firstGlob := if WithGlobals(sel) then |plain| else -1,
                       doingGlobal := globals != []);
      if it.doingGlobal then Some((f, it))
      else
        match sel
        case Anything(_) => if Setup(w, it).1 then Some((f, Setup(w, it).0)) else None
        case Unknown => None
        case Chosen(d, scope) => Some((Narrow(f, scope), it.(dev := Some(d))))
  }

  lemma {:induction false} StartValid(w: World, f: Flags, slots: seq<Option<Bootmeth>>, count: nat, sel: Selection)
    requires ValidWorld(w) && ValidSelection(w, sel)
    ensures match Start(w, f, slots, count, sel)
            case None => true
            case Some(s) => Valid(w, s.0, s.1) && CanStep(s.1) && !Ending(s.1.err)
  {
    var s := Start(w, f, slots, count, sel);
    if s.Some? && !s.value.1.doingGlobal && sel.Anything? {
      var plain := Plains(slots, count);
      var it := FRESH.(order := plain, numMethods := |plain|, meth := plain[0],
                       firstGlob := if WithGlobals(sel) then |plain| else -1);
      assert plain + [] == plain;
      SetupAdvances(w, f, it);
    }
  }

  /** The very first error is not recorded when all bootflows are wanted. */
  predicate FirstRecorded(f: Flags, code: Code) {
    code == NoMoreParts || code == NotSupported || !f.all
  }

  /** Every position a scan started at `it` will offer. */
  ghost function Whole(w: World, f: Flags, env: Env, it: Iter): seq<Offer>
    requires Valid(w, f, it) && CanStep(it) && Tame(env)
  {
    StartStays(w, f, env, it);
    [OfferOf(f, it)] + Rest(w, f, env, AfterCheck(it, env(0, Where(it)), true), 1)
  }

  lemma {:induction false} StartStays(w: World, f: Flags, env: Env, it: Iter)
    requires Valid(w, f, it) && CanStep(it) && Tame(env)
    ensures var o := env(0, Where(it));
            forall record :: Valid(w, f, AfterCheck(it, o, record)) && CanStep(AfterCheck(it, o, record))
  {
    var o := env(0, Where(it));
    CheckStays(w, f, it, o, true);
    CheckStays(w, f, it, o, false);
  }

  // ---------------------------------------------------------------- the whole scan

  predicate Ending(code: Code) {
    code == NoMoreParts || code == NoMoreDevices
  }

  lemma {:induction false} IncrAlike(w: World, f: Flags, it: Iter, err: Code)
    requires Valid(w, f, it) && CanStep(it) && !Ending(it.err) && !Ending(err)
    ensures Valid(w, f, it.(err := err)) && CanStep(it.(err := err))
    ensures Incr(w, f, it.(err := err)) == (Incr(w, f, it).0.(err := err), Incr(w, f, it).1)
    ensures Incr(w, f, it).0.err == it.err
  {
    hide MoveOn, ValidWorld;
    if it.doingGlobal {
      var gone := it.(numMethods := it.firstGlob, doingGlobal := false);
      MoveOnAlike(w, f, gone, gone.(err := err), true);
      MoveOnAlike(w, f, gone, gone, true);
    } else {
      MoveOnAlike(w, f, it, it.(err := err), false);
      MoveOnAlike(w, f, it, it, false);
    }
  }

  /** An error other than the end of partitions or devices leaves no mark on what follows. */
  lemma {:induction false} RestAlike(w: World, f: Flags, env: Env, it: Iter, err: Code, t: nat)
    requires Valid(w, f, it) && CanStep(it) && Tame(env) && !Ending(it.err) && !Ending(err)
    ensures Valid(w, f, it.(err := err)) && CanStep(it.(err := err))
    ensures Rest(w, f, env, it, t) == Rest(w, f, env, it.(err := err), t)
    decreases |Rest(w, f, env, it, t)|
  {
    hide Incr, Valid, KeyLess;
    IncrAlike(w, f, it, err);
    var (it', more) := Incr(w, f, it);
    if more {
      IncrAdvances(w, f, it);
      IncrAdvances(w, f, it.(err := err));
      var o := env(t, Where(it'));
      CheckStays(w, f, it', o, true);
      CheckStays(w, f, it'.(err := err), o, true);
      if o.code == Done {
        RestAlike(w, f, env, AfterCheck(it', o, true), err, t + 1);
      }
    }
  }

  /** It makes no difference that the first error goes unrecorded when all results are wanted. */
  lemma {:induction false} RecordingAlike(w: World, f: Flags, env: Env, it: Iter, t: nat)
    requires Valid(w, f, it) && CanStep(it) && Tame(env) && !Ending(it.err)
    requires !Ending(env(0, Where(it)).code)
    ensures var o := env(0, Where(it));
            && Valid(w, f, AfterCheck(it, o, true)) && CanStep(AfterCheck(it, o, true))
            && Valid(w, f, AfterCheck(it, o, false)) && CanStep(AfterCheck(it, o, false))
            && Rest(w, f, env, AfterCheck(it, o, false), t) == Rest(w, f, env, AfterCheck(it, o, true), t)
  {
    hide Valid, Rest, CanStep;
    var o := env(0, Where(it));
    StartStays(w, f, env, it);
    RestAlike(w, f, env, AfterCheck(it, o, false), AfterCheck(it, o, true).err, t);
  }

  /** What the first check does to the list of positions to be offered. */
  lemma {:induction false} FirstTurn(w: World, f: Flags, env: Env, it: Iter)
    requires Valid(w, f, it) && CanStep(it) && Tame(env) && !Ending(it.err)
    ensures var o := env(0, Where(it));
            var it', seen := AfterCheck(it, o, true), AfterCheck(it, o, false);
            && Valid(w, f, it') && CanStep(it') && Valid(w, f, seen) && CanStep(seen)
            && Whole(w, f, env, it) == [OfferOf(f, it)] + Rest(w, f, env, it', 1)
            && (o.code == NoMoreDevices ==> Rest(w, f, env, it', 1) == [])
            && (!Ending(o.code) ==> Rest(w, f, env, seen, 1) == Rest(w, f, env, it', 1))
            && AnswerTo(env, 0, OfferOf(f, it)) == o.code
  {
    hide Valid, CanStep, Rest;
    var o := env(0, Where(it));
    StartStays(w, f, env, it);
    OutOfDevices(w, f, env, AfterCheck(it, o, true), 1);
    AnswerHere(env, 0, f, it);
    if !Ending(o.code) {
      RecordingAlike(w, f, env, it, 1);
    }
  }

  lemma {:induction false} WholeIsRun(w: World, f: Flags, env: Env, it: Iter)
    requires Valid(w, f, it) && CanStep(it) && Tame(env)
    ensures Spots(Whole(w, f, env, it)) == RunFrom(w, f, env, it, 0)
  {
    hide Valid, Rest, KeyOf;
    StartStays(w, f, env, it);
  }

  /** With bootdevs chosen by label or priority, the default order and at least one plain bootmeth: a
    * whole scan offers exactly what the nested loops offer, in their order. */
  lemma {:induction false} ScanIsNestedLoops(w: World, f: Flags, env: Env, slots: seq<Option<Bootmeth>>, count: nat,
      skipGlobal: bool)
    requires ValidWorld(w) && Tame(env)
    requires !Narrowed(f)
    requires Plains(slots, count) != []
    ensures |Plains(slots, count)| <= count
    ensures var globals := if skipGlobal then [] else GlobalOnes(slots, count);
            var loops := Globals(env, globals, Plains(slots, count), Itinerary(w), Done, 0);
            match Start(w, f, slots, count, Anything(skipGlobal))
            case None => loops == []
            case Some(s) => Valid(w, s.0, s.1) && CanStep(s.1) && Spots(Whole(w, f, env, s.1)) == loops
  {
    hide Pick, Valid, CanStep, Whole, RunFrom, Devices, Itinerary, RunDevices, RunAt;
    PlainsFit(slots, count);
    StartValid(w, f, slots, count, Anything(skipGlobal));
    var plain, globals := Plains(slots, count), if skipGlobal then [] else GlobalOnes(slots, count);
    var order := plain + globals;
    var b := FRESH.(order := order, numMethods := |order|, curMethod := |plain|,
                    meth := if globals != [] then globals[0] else plain[0],
                    firstGlob := |plain|, doingGlobal := true);
    SplitsBack(plain, globals);
    if globals != [] {
      assert AtGlobal(b, |plain|, Done) == Start(w, f, slots, count, Anything(false)).value.1;
      WholeIsRun(w, f, env, Start(w, f, slots, count, Anything(false)).value.1);
      GlobalsRefine(w, f, env, b, |plain|, Done, 0);
    } else {
      StartPlain(w, f, env, slots, count, skipGlobal);
    }
  }

  lemma {:induction false} SplitsBack<T>(a: seq<T>, b: seq<T>)
    ensures (a + b)[..|a|] == a && (a + b)[|a|..|a + b|] == b
  {
  }

  lemma {:induction false} StartPlain(w: World, f: Flags, env: Env, slots: seq<Option<Bootmeth>>, count: nat,
      skipGlobal: bool)
    requires ValidWorld(w) && Tame(env)
    requires !Narrowed(f)
    requires Plains(slots, count) != [] && |Plains(slots, count)| <= count
    requires skipGlobal || GlobalOnes(slots, count) == []
    ensures var loops := Devices(env, Plains(slots, count), Itinerary(w), Done, 0);
            match Start(w, f, slots, count, Anything(skipGlobal))
            case None => loops == []
            case Some(s) => Valid(w, s.0, s.1) && CanStep(s.1) && Spots(Whole(w, f, env, s.1)) == loops
  {
    hide Pick, Valid, CanStep, Whole, RunFrom, Partitions, Itinerary, After, NextPrio, NextLabel;
    StartValid(w, f, slots, count, Anything(skipGlobal));
    var plain := Plains(slots, count);
    assert plain + [] == plain;
    var b := FRESH.(labels := w.labels, order := plain, numMethods := |plain|, meth := plain[0],
                    firstGlob := if skipGlobal then -1 else |plain|);
    FirstSeatWalks(w, f, 0);
    var first := FirstSeat(w, 0);
    if first.Some? {
      var it := At(b, first.value, 0, 0, 0, Done);
      assert Start(w, f, slots, count, Anything(skipGlobal)) == Some((f, it));
      WholeIsRun(w, f, env, it);
      DevicesRefine(w, f, env, b, first.value, Done, 0);
      assert Plain(b) == plain;
    }
  }

  /** The bootdevs of a scan for a label that names `d`: that one alone, all from there on, or all
    * from there on under the same media device. */
  function ChosenDevs(w: World, d: nat, scope: Scope): seq<nat>
    requires d < |w.devs|
  {
    match scope
    case OneDev => [d]
    case OneUclass => AllFrom(w, d)
    case OneMedia => Siblings(w, w.devs[d].media, d)
  }

  /** Such a scan has no global phase and offers what the loops over those bootdevs offer. */
  lemma {:induction false} ChosenScan(w: World, f: Flags, env: Env, slots: seq<Option<Bootmeth>>, count: nat,
      d: nat, scope: Scope)
    requires ValidWorld(w) && Tame(env) && d < |w.devs| && !Narrowed(f)
    ensures |Plains(slots, count)| <= count
    ensures match Start(w, f, slots, count, Chosen(d, scope))
            case None => Plains(slots, count) == []
            case Some(s) =>
              && Plains(slots, count) != [] && Valid(w, s.0, s.1) && CanStep(s.1)
              && Spots(Whole(w, s.0, env, s.1))
                 == Devices(env, Plains(slots, count), ChosenDevs(w, d, scope), Done, 0)
  {
    hide Pick, Valid, CanStep, Whole, RunFrom, Partitions, Siblings, NextPrio, NextLabel, Devices;
    PlainsFit(slots, count);
    StartValid(w, f, slots, count, Chosen(d, scope));
    var plain := Plains(slots, count);
    assert plain + [] == plain;
    if plain != [] {
      var f', seat := Narrow(f, scope), Seat(d, 0, 0);
      var b := FRESH.(order := plain, numMethods := |plain|, meth := plain[0]);
      var it := At(b, seat, 0, 0, 0, Done);
      assert Start(w, f, slots, count, Chosen(d, scope)) == Some((f', it));
      WholeIsRun(w, f', env, it);
      DevicesRefine(w, f', env, b, seat, Done, 0);
      assert Plain(b) == plain;
      ChosenFirst(w, f, d, scope);
    }
  }

  lemma {:induction false} ChosenFirst(w: World, f: Flags, d: nat, scope: Scope)
    requires d < |w.devs| && !Narrowed(f)
    ensures ChosenDevs(w, d, scope) == [d] + After(w, Narrow(f, scope), Seat(d, 0, 0))
  {
  }

  lemma {:induction false} OutOfDevices(w: World, f: Flags, env: Env, it: Iter, t: nat)
    requires Valid(w, f, it) && CanStep(it) && Tame(env)
    ensures it.err == NoMoreDevices ==> Rest(w, f, env, it, t) == []
  {
  }
}
