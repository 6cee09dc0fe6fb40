/** The resumable scan equals plain nested loops over global bootmeths, then bootdevs by priority,
  * partitions and bootmeths. */
module BootflowLoops {
  import opened Results
  import opened BootflowModel
  import opened BootflowOrder

  /** An offered position without its sort key. */
  datatype Spot = Spot(dev: Option<nat>, part: nat, meth: Bootmeth)

  function Spots(offers: seq<Offer>): seq<Spot> {
    if offers == [] then []
    else [Spot(offers[0].dev, offers[0].part, offers[0].meth)] + Spots(offers[1..])
  }

  // ---------------------------------------------------------------- the loops

  datatype Exit = Through | LeaveDevice | Stop

  /** What a loop offered, how many checks were made, the recorded error and how it was left. */
  datatype Loop = Loop(spots: seq<Spot>, t: nat, rec: Code, maxPart: nat, exit: Exit)

  function Record(rec: Code, o: Outcome): Code {
    if o.code == Done then rec else o.code
  }

  function Reveal(maxPart: nat, o: Outcome): nat {
    if o.table then MAX_PART_PER_BOOTDEV else maxPart
  }

  /** for each bootmeth from number `i` on */
  ghost function Methods(env: Env, plain: seq<Bootmeth>, d: nat, part: nat, i: nat,
      maxPart: nat, rec: Code, t: nat): (r: Loop)
    requires i <= |plain|
    ensures maxPart <= MAX_PART_PER_BOOTDEV ==> maxPart <= r.maxPart <= MAX_PART_PER_BOOTDEV
    decreases |plain| - i
  {
    if i == |plain| then Loop([], t, rec, maxPart, Through)
    else
      var o := env(t, Some(part));
      var here, rec', max' := Spot(Some(d), part, plain[i]), Record(rec, o), Reveal(maxPart, o);
      if rec' == NoMoreDevices then Loop([here], t + 1, rec', max', Stop)
      else if rec' == NoMoreParts then Loop([here], t + 1, rec', max', LeaveDevice)
      else
        var l := Methods(env, plain, d, part, i + 1, max', rec', t + 1);
        l.(spots := [here] + l.spots)
  }

  /** for each partition up to the highest one known so far */
  ghost function Partitions(env: Env, plain: seq<Bootmeth>, d: nat, part: nat, maxPart: nat, rec: Code, t: nat): Loop
    requires part <= maxPart <= MAX_PART_PER_BOOTDEV
    decreases MAX_PART_PER_BOOTDEV - part
  {
    var l := Methods(env, plain, d, part, 0, maxPart, rec, t);
    if l.exit != Through then l
    else if part + 1 <= l.maxPart then
      var m := Partitions(env, plain, d, part + 1, l.maxPart, l.rec, l.t);
      m.(spots := l.spots + m.spots)
    else l.(exit := LeaveDevice)
  }

  /** for each bootdev */
  ghost function Devices(env: Env, plain: seq<Bootmeth>, ds: seq<nat>, rec: Code, t: nat): seq<Spot> {
    if ds == [] then []
    else
      var l := Partitions(env, plain, ds[0], 0, 0, rec, t);
      l.spots + if l.exit == Stop then [] else Devices(env, plain, ds[1..], l.rec, l.t)
  }

  /** for each global bootmeth, and then the bootdevs */
  ghost function Globals(env: Env, globals: seq<Bootmeth>, plain: seq<Bootmeth>, ds: seq<nat>,
      rec: Code, t: nat): seq<Spot> {
    if globals == [] then Devices(env, plain, ds, rec, t)
    else
      var rec' := Record(rec, env(t, None));
      [Spot(None, 0, globals[0])]
      + if rec' == NoMoreDevices then [] else Globals(env, globals[1..], plain, ds, rec', t + 1)
  }

  // ---------------------------------------------------------------- bootdevs by priority

  function AtPrio(w: World, prio: nat, from: nat): seq<nat>
    requires from <= |w.devs|
    decreases |w.devs| - from
  {
    if from == |w.devs| then []
    else (if w.devs[from].prio == prio then [from] else []) + AtPrio(w, prio, from + 1)
  }

  /** The bootdevs of this priority from `from` on, then all those of the later priorities. */
  function Onward(w: World, prio: nat, from: nat): seq<nat>
    requires prio < BOOTDEVP_COUNT && from <= |w.devs|
    decreases BOOTDEVP_COUNT - prio
  {
    AtPrio(w, prio, from) + if prio + 1 == BOOTDEVP_COUNT then [] else Onward(w, prio + 1, 0)
  }

  lemma {:induction false} AtPrioHead(w: World, prio: nat, from: nat)
    requires from <= |w.devs|
    ensures match NextAt(w, prio, from)
            case None => AtPrio(w, prio, from) == []
            case Some(d) => AtPrio(w, prio, from) == [d] + AtPrio(w, prio, d + 1)
    decreases |w.devs| - from
  {
    if from < |w.devs| && w.devs[from].prio != prio {
      AtPrioHead(w, prio, from + 1);
    }
  }

  lemma {:induction false} OnwardHead(w: World, prio: nat, from: nat)
    requires prio < BOOTDEVP_COUNT && from <= |w.devs|
    ensures match NextAt(w, prio, from)
            case Some(d) => Onward(w, prio, from) == [d] + Onward(w, prio, d + 1)
            case None => Onward(w, prio, from) == if prio + 1 == BOOTDEVP_COUNT then [] else Onward(w, prio + 1, 0)
  {
    hide AtPrio, NextAt, Onward;
    AtPrioHead(w, prio, from);
    OnwardIs(w, prio, from);
    if NextAt(w, prio, from).Some? {
      OnwardIs(w, prio, NextAt(w, prio, from).value + 1);
    }
  }

  lemma {:induction false} OnwardIs(w: World, prio: nat, from: nat)
    requires prio < BOOTDEVP_COUNT && from <= |w.devs|
    ensures Onward(w, prio, from)
            == AtPrio(w, prio, from) + if prio + 1 == BOOTDEVP_COUNT then [] else Onward(w, prio + 1, 0)
  {
    hide AtPrio;
  }

  /** Asking for the next bootdev walks down the list sorted by priority. */
  lemma {:induction false} NextPrioWalks(w: World, prio: nat, dev: Option<nat>)
    requires prio < BOOTDEVP_COUNT && (dev.Some? ==> dev.value < |w.devs|)
    ensures var next := NextPrio(w, prio, dev);
            Onward(w, prio, if dev.Some? then dev.value + 1 else 0)
            == if next.1.None? then [] else [next.1.value] + Onward(w, next.0, next.1.value + 1)
    decreases BOOTDEVP_COUNT - prio
  {
    hide Onward, NextAt;
    OnwardHead(w, prio, if dev.Some? then dev.value + 1 else 0);
    if NextAt(w, prio, if dev.Some? then dev.value + 1 else 0).None? && prio + 1 < BOOTDEVP_COUNT {
      NextPrioWalks(w, prio + 1, None);
    }
  }

  /** `a` is scanned before `b`. */
  predicate Before(w: World, a: nat, b: nat)
    requires a < |w.devs| && b < |w.devs|
  {
    w.devs[a].prio < w.devs[b].prio || (w.devs[a].prio == w.devs[b].prio && a < b)
  }

  predicate Known(w: World, s: seq<nat>) {
    forall i :: 0 <= i < |s| ==> s[i] < |w.devs|
  }

  predicate InOrder(w: World, s: seq<nat>)
    requires Known(w, s)
  {
    forall i, j :: 0 <= i < j < |s| ==> Before(w, s[i], s[j])
  }

  /** A list in order holds nothing twice. */
  lemma {:induction false} InOrderOnce(w: World, s: seq<nat>)
    requires Known(w, s) && InOrder(w, s)
    ensures forall i, j :: 0 <= i < j < |s| ==>
              s[i] != s[j] && w.devs[s[i]].prio <= w.devs[s[j]].prio
              && (w.devs[s[i]].prio == w.devs[s[j]].prio ==> s[i] < s[j])
  {
    forall i, j | 0 <= i < j < |s|
      ensures s[i] != s[j] && w.devs[s[i]].prio <= w.devs[s[j]].prio
              && (w.devs[s[i]].prio == w.devs[s[j]].prio ==> s[i] < s[j])
    {
      assert Before(w, s[i], s[j]);
    }
  }

  lemma {:induction false} AtPrioSorted(w: World, prio: nat, from: nat)
    requires from <= |w.devs|
    ensures Known(w, AtPrio(w, prio, from)) && InOrder(w, AtPrio(w, prio, from))
    ensures forall d: nat :: d in AtPrio(w, prio, from) <==> from <= d < |w.devs| && w.devs[d].prio == prio
    decreases |w.devs| - from
  {
    if from < |w.devs| {
      AtPrioSorted(w, prio, from + 1);
      var tail := AtPrio(w, prio, from + 1);
      assert forall i :: 0 <= i < |tail| ==> tail[i] in tail;
    }
  }

  /** The list holds every bootdev with a proper priority once, by priority and list position. */
  lemma {:induction false} OnwardSorted(w: World, prio: nat)
    requires prio < BOOTDEVP_COUNT
    ensures Known(w, Onward(w, prio, 0)) && InOrder(w, Onward(w, prio, 0))
    ensures forall d: nat :: d in Onward(w, prio, 0) <==> d < |w.devs| && prio <= w.devs[d].prio < 8
    decreases BOOTDEVP_COUNT - prio
  {
    hide AtPrio, Onward, Known, InOrder;
    AtPrioSorted(w, prio, 0);
    OnwardIs(w, prio, 0);
    var head := AtPrio(w, prio, 0);
    if prio + 1 < BOOTDEVP_COUNT {
      OnwardSorted(w, prio + 1);
      InOrderConcat(w, head, Onward(w, prio + 1, 0), prio);
    } else {
      assert head + [] == head;
    }
  }

  lemma {:induction false} InOrderConcat(w: World, a: seq<nat>, b: seq<nat>, prio: nat)
    requires Known(w, a) && Known(w, b) && InOrder(w, a) && InOrder(w, b)
    requires forall d :: d in a ==> d < |w.devs| && w.devs[d].prio == prio
    requires forall d :: d in b ==> d < |w.devs| && w.devs[d].prio > prio
    ensures Known(w, a + b) && InOrder(w, a + b)
    ensures forall d :: d in a + b <==> d in a || d in b
  {
    var s := a + b;
    forall i, j | 0 <= i < j < |s| ensures Before(w, s[i], s[j]) {
      if i < |a| <= j {
        assert s[i] in a && s[j] in b;
      }
    }
  }

  // ---------------------------------------------------------------- bootdevs by label

  /** The bootdevs that the labels from number `i` on name. */
  function Named(labels: seq<Option<nat>>, i: nat): seq<nat>
    requires i <= |labels|
    decreases |labels| - i
  {
    if i == |labels| then []
    else (if labels[i].Some? then [labels[i].value] else []) + Named(labels, i + 1)
  }

  /** Asking for the next bootdev walks down the list of labels. */
  lemma {:induction false} NextLabelWalks(labels: seq<Option<nat>>, cur: int)
    requires -1 <= cur < |labels|
    ensures var next := NextLabel(labels, cur);
            Named(labels, cur + 1) == if next.1.None? then [] else [next.1.value] + Named(labels, next.0 + 1)
    decreases |labels| - cur
  {
    if cur + 1 < |labels| && labels[cur + 1].None? {
      NextLabelWalks(labels, cur + 1);
    }
  }

  /** All bootdevs a scan visits: those the labels name, or else all by priority. */
  function Itinerary(w: World): seq<nat> {
    if w.labels.Some? then Named(w.labels.value, 0) else Onward(w, 0, 0)
  }

  // ---------------------------------------------------------------- one device, class or medium

  /** The bootdevs from list position `from` on. */
  function AllFrom(w: World, from: nat): seq<nat>
    requires from <= |w.devs|
  {
    seq(|w.devs| - from, i requires 0 <= i => from + i)
  }

  /** Those of them under one media device. */
  function Siblings(w: World, media: nat, from: nat): seq<nat>
    requires from <= |w.devs|
    decreases |w.devs| - from
  {
    if from == |w.devs| then []
    else (if w.devs[from].media == media then [from] else []) + Siblings(w, media, from + 1)
  }

  predicate Rising(s: seq<nat>) {
    forall i, j :: 0 <= i < j < |s| ==> s[i] < s[j]
  }

  /** They are in list order, and none is missing. */
  lemma {:induction false} SiblingsAre(w: World, media: nat, from: nat)
    requires from <= |w.devs|
    ensures Rising(Siblings(w, media, from))
    ensures forall d: nat :: d in Siblings(w, media, from) <==> from <= d < |w.devs| && w.devs[d].media == media
    decreases |w.devs| - from
  {
    if from < |w.devs| {
      SiblingsAre(w, media, from + 1);
      var tail := Siblings(w, media, from + 1);
      assert forall i :: 0 <= i < |tail| ==> tail[i] in tail;
    }
  }

  /** Asking for the next bootdev of a medium walks down that list. */
  lemma {:induction false} NextSiblingWalks(w: World, media: nat, from: nat)
    requires from <= |w.devs|
    ensures var next := NextSibling(w, media, from);
            Siblings(w, media, from)
            == if next.None? then [] else [next.value] + Siblings(w, media, next.value + 1)
    decreases |w.devs| - from
  {
    if from < |w.devs| && w.devs[from].media != media {
      NextSiblingWalks(w, media, from + 1);
    }
  }

  // ---------------------------------------------------------------- the scan follows the loops

  /** The scan stays with one bootdev, its class or its medium. */
  predicate Narrowed(f: Flags) {
    f.singleDev || f.singleUclass || f.singleMedia
  }

  /** A scan over bootdevs with fixed bootmeths. */
  predicate Base(w: World, f: Flags, b: Iter) {
    && ValidWorld(w) && b.labels == (if Narrowed(f) then None else w.labels)
    && !b.doingGlobal && 0 < b.numMethods <= |b.order|
  }

  function Plain(b: Iter): seq<Bootmeth>
    requires b.numMethods <= |b.order|
  {
    b.order[..b.numMethods]
  }

  /** A bootdev, and where the search for the next one goes on. */
  datatype Seat = Seat(dev: nat, prio: nat, lab: int)

  predicate ValidSeat(w: World, f: Flags, seat: Seat) {
    && seat.dev < |w.devs| && seat.prio < BOOTDEVP_COUNT
    && (w.labels.Some? && !Narrowed(f) ==> -1 <= seat.lab < |w.labels.value|)
  }

  function NextSeat(w: World, f: Flags, seat: Seat): (r: Option<Seat>)
    requires ValidWorld(w) && ValidSeat(w, f, seat)
    ensures r.Some? ==> ValidSeat(w, f, r.value)
  {
    if f.singleDev then None
    else if f.singleUclass then
      if seat.dev + 1 < |w.devs| then Some(seat.(dev := seat.dev + 1)) else None
    else if f.singleMedia then
      var d := NextSibling(w, w.devs[seat.dev].media, seat.dev + 1);
      if d.None? then None else Some(seat.(dev := d.value))
    else if w.labels.Some? then
      var (lab, d) := NextLabel(w.labels.value, seat.lab);
      if d.None? then None else Some(Seat(w.labels.value[lab].value, seat.prio, lab))
    else
      var (prio, d) := NextPrio(w, seat.prio, Some(seat.dev));
      if d.None? then None else Some(Seat(d.value, prio, seat.lab))
  }

  /** The first bootdev of a scan that has not had one. */
  function FirstSeat(w: World, lab: int): (r: Option<Seat>)
    requires ValidWorld(w)
    ensures r.Some? ==> forall f :: ValidSeat(w, f, r.value)
  {
    if w.labels.Some? then
      var (lab, d) := NextLabel(w.labels.value, -1);
      if d.None? then None else Some(Seat(w.labels.value[lab].value, 0, lab))
    else
      var (prio, d) := NextPrio(w, 0, None);
      if d.None? then None else Some(Seat(d.value, prio, lab))
  }

  /** The bootdevs after a seat. */
  function After(w: World, f: Flags, seat: Seat): seq<nat>
    requires ValidSeat(w, f, seat)
  {
    if f.singleDev then []
    else if f.singleUclass then AllFrom(w, seat.dev + 1)
    else if f.singleMedia then Siblings(w, w.devs[seat.dev].media, seat.dev + 1)
    else if w.labels.Some? then Named(w.labels.value, seat.lab + 1) else Onward(w, seat.prio, seat.dev + 1)
  }

  lemma {:induction false} SeatsWalk(w: World, f: Flags, seat: Seat)
    requires ValidWorld(w) && ValidSeat(w, f, seat)
    ensures var next := NextSeat(w, f, seat);
            After(w, f, seat) == if next.None? then [] else [next.value.dev] + After(w, f, next.value)
  {
    hide Named, Onward, NextPrio, NextLabel, Siblings;
    if f.singleDev || f.singleUclass {
    } else if f.singleMedia {
      NextSiblingWalks(w, w.devs[seat.dev].media, seat.dev + 1);
    } else if w.labels.Some? {
      NextLabelWalks(w.labels.value, seat.lab);
    } else {
      NextPrioWalks(w, seat.prio, Some(seat.dev));
    }
  }

  lemma {:induction false} FirstSeatWalks(w: World, f: Flags, lab: int)
    requires ValidWorld(w) && !Narrowed(f)
    ensures var first := FirstSeat(w, lab);
            Itinerary(w) == if first.None? then [] else [first.value.dev] + After(w, f, first.value)
  {
    hide Named, Onward, NextPrio, NextLabel;
    if w.labels.Some? {
      NextLabelWalks(w.labels.value, -1);
    } else {
      NextPrioWalks(w, 0, None);
    }
  }

  /** The state in which bootmeth `i` is about to be checked on this partition. */
  function At(b: Iter, seat: Seat, part: nat, i: nat, maxPart: nat, rec: Code): Iter
    requires i < |b.order|
  {
    b.(dev := Some(seat.dev), part := part, maxPart := maxPart, err := rec,
       curPrio := seat.prio, curLabel := seat.lab, curMethod := i, meth := b.order[i])
  }

  predicate Place(w: World, f: Flags, b: Iter, seat: Seat, part: nat, i: nat, maxPart: nat) {
    && Base(w, f, b) && ValidSeat(w, f, seat)
    && i < b.numMethods && part <= maxPart <= MAX_PART_PER_BOOTDEV
  }

  ghost function RunFrom(w: World, f: Flags, env: Env, it: Iter, t: nat): seq<Spot>
    requires Valid(w, f, it) && CanStep(it) && Tame(env)
  {
    var o := env(t, Where(it));
    CheckStays(w, f, it, o, true);
    [Spot(it.dev, it.part, it.meth)] + Spots(Rest(w, f, env, AfterCheck(it, o, true), t + 1))
  }

  ghost function RunAt(w: World, f: Flags, env: Env, b: Iter, seat: Seat, part: nat, i: nat,
      maxPart: nat, rec: Code, t: nat): seq<Spot>
    requires Place(w, f, b, seat, part, i, maxPart) && Tame(env)
  {
    RunFrom(w, f, env, At(b, seat, part, i, maxPart, rec), t)
  }

  /** What follows once the bootdev is left. */
  ghost function RunNext(w: World, f: Flags, env: Env, b: Iter, seat: Seat, rec: Code, t: nat): seq<Spot>
    requires Place(w, f, b, seat, 0, 0, 0) && Tame(env)
  {
    var next := NextSeat(w, f, seat);
    if next.None? then [] else RunAt(w, f, env, b, next.value, 0, 0, 0, rec, t)
  }

  lemma {:induction false} RestUnfolds(w: World, f: Flags, env: Env, it: Iter, t: nat)
    requires Valid(w, f, it) && CanStep(it) && Tame(env)
    ensures Incr(w, f, it).1 ==> Valid(w, f, Incr(w, f, it).0) && CanStep(Incr(w, f, it).0)
    ensures Spots(Rest(w, f, env, it, t))
            == if Incr(w, f, it).1 then RunFrom(w, f, env, Incr(w, f, it).0, t) else []
  {
    hide Incr, Valid, KeyOf;
    if Incr(w, f, it).1 {
      IncrAdvances(w, f, it);
    }
  }

  lemma {:induction false} RunFromUnfolds(w: World, f: Flags, env: Env, it: Iter, t: nat)
    requires Valid(w, f, it) && CanStep(it) && Tame(env)
    ensures var it' := AfterCheck(it, env(t, Where(it)), true);
            && Valid(w, f, it') && CanStep(it')
            && RunFrom(w, f, env, it, t) == [Spot(it.dev, it.part, it.meth)] + Spots(Rest(w, f, env, it', t + 1))
  {
    hide Rest;
    CheckStays(w, f, it, env(t, Where(it)), true);
  }

  /** Where the step from a place on a bootdev leads. */
  lemma {:induction false} StepFrom(w: World, f: Flags, b: Iter, seat: Seat, part: nat, i: nat, maxPart: nat,
      rec: Code)
    requires Place(w, f, b, seat, part, i, maxPart)
    ensures Valid(w, f, At(b, seat, part, i, maxPart, rec)) && CanStep(At(b, seat, part, i, maxPart, rec))
    ensures var (it', more) := Incr(w, f, At(b, seat, part, i, maxPart, rec));
            var next := NextSeat(w, f, seat);
            if rec == NoMoreDevices then !more
            else if rec != NoMoreParts && i + 1 < b.numMethods then
              more && it' == At(b, seat, part, i + 1, maxPart, rec)
            else if rec != NoMoreParts && part + 1 <= maxPart then
              more && it' == At(b, seat, part + 1, 0, maxPart, rec)
            else if next.None? then !more
            else more && it' == At(b, next.value, 0, 0, 0, rec)
  {
    hide NextPrio, NextLabel;
  }

  /** What follows a check, given the error then recorded. */
  ghost function RunOn(w: World, f: Flags, env: Env, b: Iter, seat: Seat, part: nat, i: nat,
      maxPart: nat, rec: Code, t: nat): seq<Spot>
    requires Place(w, f, b, seat, part, i, maxPart) && Tame(env)
  {
    if rec == NoMoreDevices then []
    else if rec == NoMoreParts then RunNext(w, f, env, b, seat, rec, t)
    else if i + 1 < b.numMethods then RunAt(w, f, env, b, seat, part, i + 1, maxPart, rec, t)
    else if part + 1 <= maxPart then RunAt(w, f, env, b, seat, part + 1, 0, maxPart, rec, t)
    else RunNext(w, f, env, b, seat, rec, t)
  }

  lemma {:induction false} RestIsRunOn(w: World, f: Flags, env: Env, b: Iter, seat: Seat, part: nat, i: nat,
      maxPart: nat, rec: Code, t: nat)
    requires Place(w, f, b, seat, part, i, maxPart) && Tame(env)
    ensures Valid(w, f, At(b, seat, part, i, maxPart, rec)) && CanStep(At(b, seat, part, i, maxPart, rec))
    ensures Spots(Rest(w, f, env, At(b, seat, part, i, maxPart, rec), t))
            == RunOn(w, f, env, b, seat, part, i, maxPart, rec, t)
  {
    hide Rest, RunFrom, Spots, Incr, Valid, CanStep, NextSeat;
    StepFrom(w, f, b, seat, part, i, maxPart, rec);
    RestUnfolds(w, f, env, At(b, seat, part, i, maxPart, rec), t);
  }

  /** One check on a bootdev and the step after it. */
  lemma {:induction false} RunAtUnfolds(w: World, f: Flags, env: Env, b: Iter, seat: Seat,
      part: nat, i: nat, maxPart: nat, rec: Code, t: nat)
    requires Place(w, f, b, seat, part, i, maxPart) && Tame(env)
    ensures var o := env(t, Some(part));
            RunAt(w, f, env, b, seat, part, i, maxPart, rec, t)
            == [Spot(Some(seat.dev), part, Plain(b)[i])]
               + RunOn(w, f, env, b, seat, part, i, Reveal(maxPart, o), Record(rec, o), t + 1)
  {
    hide Rest, RunFrom, Spots, Valid, CanStep, RunOn;
    var o := env(t, Some(part));
    StepFrom(w, f, b, seat, part, i, maxPart, rec);
    RunFromUnfolds(w, f, env, At(b, seat, part, i, maxPart, rec), t);
    RestIsRunOn(w, f, env, b, seat, part, i, Reveal(maxPart, o), Record(rec, o), t + 1);
  }

  /** What follows the loop over bootmeths. */
  ghost function RunAfter(w: World, f: Flags, env: Env, b: Iter, seat: Seat, part: nat, exit: Exit,
      maxPart: nat, rec: Code, t: nat): seq<Spot>
    requires Place(w, f, b, seat, part, 0, part) && maxPart <= MAX_PART_PER_BOOTDEV && Tame(env)
  {
    if exit == Stop then []
    else if exit == Through && part + 1 <= maxPart then RunAt(w, f, env, b, seat, part + 1, 0, maxPart, rec, t)
    else RunNext(w, f, env, b, seat, rec, t)
  }

  lemma {:induction false} LastMethod(w: World, f: Flags, env: Env, b: Iter, seat: Seat, part: nat, i: nat,
      maxPart: nat, rec: Code, t: nat)
    requires Place(w, f, b, seat, part, i, maxPart) && Tame(env)
    requires i + 1 == b.numMethods || rec == NoMoreDevices || rec == NoMoreParts
    ensures RunOn(w, f, env, b, seat, part, i, maxPart, rec, t)
            == RunAfter(w, f, env, b, seat, part,
                        if rec == NoMoreDevices then Stop else if rec == NoMoreParts then LeaveDevice else Through,
                        maxPart, rec, t)
  {
    hide RunAt, RunNext;
  }

  lemma {:induction false} MethodsRefine(w: World, f: Flags, env: Env, b: Iter, seat: Seat,
      part: nat, i: nat, maxPart: nat, rec: Code, t: nat)
    requires Place(w, f, b, seat, part, i, maxPart) && Tame(env)
    ensures var l := Methods(env, Plain(b), seat.dev, part, i, maxPart, rec, t);
            RunAt(w, f, env, b, seat, part, i, maxPart, rec, t)
            == l.spots + RunAfter(w, f, env, b, seat, part, l.exit, l.maxPart, l.rec, l.t)
    decreases b.numMethods - i
  {
    hide RunAt, RunNext, RunAfter, ValidSeat, NextSeat, Tame;
    var o := env(t, Some(part));
    RunAtUnfolds(w, f, env, b, seat, part, i, maxPart, rec, t);
    var rec', max' := Record(rec, o), Reveal(maxPart, o);
    if rec' != NoMoreDevices && rec' != NoMoreParts && i + 1 < b.numMethods {
      MethodsRefine(w, f, env, b, seat, part, i + 1, max', rec', t + 1);
      var here := Spot(Some(seat.dev), part, Plain(b)[i]);
      var l := Methods(env, Plain(b), seat.dev, part, i + 1, max', rec', t + 1);
      var more := RunAfter(w, f, env, b, seat, part, l.exit, l.maxPart, l.rec, l.t);
      assert [here] + (l.spots + more) == [here] + l.spots + more;
    } else {
      LastMethod(w, f, env, b, seat, part, i, max', rec', t + 1);
    }
  }

  lemma {:induction false} PartitionsRefine(w: World, f: Flags, env: Env, b: Iter, seat: Seat,
      part: nat, maxPart: nat, rec: Code, t: nat)
    requires Place(w, f, b, seat, part, 0, maxPart) && Tame(env)
    ensures var l := Partitions(env, Plain(b), seat.dev, part, maxPart, rec, t);
            RunAt(w, f, env, b, seat, part, 0, maxPart, rec, t)
            == l.spots + if l.exit == Stop then [] else RunNext(w, f, env, b, seat, l.rec, l.t)
    decreases MAX_PART_PER_BOOTDEV - part
  {
    hide RunAt, RunNext, ValidSeat, Methods;
    var l := Methods(env, Plain(b), seat.dev, part, 0, maxPart, rec, t);
    MethodsRefine(w, f, env, b, seat, part, 0, maxPart, rec, t);
    if l.exit == Through && part + 1 <= l.maxPart {
      PartitionsRefine(w, f, env, b, seat, part + 1, l.maxPart, l.rec, l.t);
    }
  }

  lemma {:induction false} DevicesRefine(w: World, f: Flags, env: Env, b: Iter, seat: Seat, rec: Code, t: nat)
    requires Place(w, f, b, seat, 0, 0, 0) && Tame(env)
    ensures RunAt(w, f, env, b, seat, 0, 0, 0, rec, t)
            == Devices(env, Plain(b), [seat.dev] + After(w, f, seat), rec, t)
    decreases |After(w, f, seat)|
  {
    hide RunAt, After, Partitions, NextSeat;
    var l := Partitions(env, Plain(b), seat.dev, 0, 0, rec, t);
    var ds := [seat.dev] + After(w, f, seat);
    assert ds[1..] == After(w, f, seat);
    PartitionsRefine(w, f, env, b, seat, 0, 0, rec, t);
    SeatsWalk(w, f, seat);
    var next := NextSeat(w, f, seat);
    if l.exit != Stop && next.Some? {
      DevicesRefine(w, f, env, b, next.value, l.rec, l.t);
    }
  }

  /** A scan that starts with the global bootmeths, which follow the plain ones in the order. */
  predicate GlobalBase(w: World, f: Flags, b: Iter) {
    && ValidWorld(w) && b.labels.None?
    && !Narrowed(f)
    && b.doingGlobal && 0 < b.firstGlob <= b.numMethods <= |b.order|
    && b.dev.None? && b.part == 0 && b.maxPart == 0 && b.curPrio == 0
  }

  function AtGlobal(b: Iter, i: nat, rec: Code): Iter
    requires i < |b.order|
  {
    b.(err := rec, curMethod := i, meth := b.order[i])
  }

  /** The same scan once its global bootmeths are through. */
  function PlainBase(w: World, b: Iter): Iter
    requires b.firstGlob >= 0
  {
    b.(labels := w.labels, numMethods := b.firstGlob, doingGlobal := false)
  }

  lemma {:induction false} StepFromGlobal(w: World, f: Flags, b: Iter, i: nat, rec: Code)
    requires GlobalBase(w, f, b) && b.firstGlob <= i < b.numMethods && rec != NoMoreParts
    ensures Valid(w, f, AtGlobal(b, i, rec)) && CanStep(AtGlobal(b, i, rec))
    ensures var (it', more) := Incr(w, f, AtGlobal(b, i, rec));
            var first := FirstSeat(w, b.curLabel);
            if rec == NoMoreDevices then !more
            else if i + 1 < b.numMethods then more && it' == AtGlobal(b, i + 1, rec)
            else if first.None? then !more
            else more && it' == At(PlainBase(w, b), first.value, 0, 0, 0, rec)
  {
    hide NextPrio, NextLabel;
  }

  /** What follows the last global bootmeth. */
  ghost function RunDevices(w: World, f: Flags, env: Env, b: Iter, rec: Code, t: nat): seq<Spot>
    requires GlobalBase(w, f, b) && Tame(env)
  {
    var first := FirstSeat(w, b.curLabel);
    if first.None? then [] else RunAt(w, f, env, PlainBase(w, b), first.value, 0, 0, 0, rec, t)
  }

  lemma {:induction false} GlobalUnfolds(w: World, f: Flags, env: Env, b: Iter, i: nat, rec: Code, t: nat)
    requires GlobalBase(w, f, b) && Tame(env) && b.firstGlob <= i < b.numMethods && rec != NoMoreParts
    ensures Valid(w, f, AtGlobal(b, i, rec)) && CanStep(AtGlobal(b, i, rec))
    ensures var rec' := Record(rec, env(t, None));
            && (i + 1 < b.numMethods ==> Valid(w, f, AtGlobal(b, i + 1, rec')) && CanStep(AtGlobal(b, i + 1, rec')))
            && RunFrom(w, f, env, AtGlobal(b, i, rec), t)
               == [Spot(None, 0, b.order[i])]
                  + if rec' == NoMoreDevices then []
                    else if i + 1 < b.numMethods then RunFrom(w, f, env, AtGlobal(b, i + 1, rec'), t + 1)
                    else RunDevices(w, f, env, b, rec', t + 1)
  {
    hide Rest, RunFrom, Spots, Incr, Valid, FirstSeat;
    var o := env(t, None);
    var it, rec' := AtGlobal(b, i, rec), Record(rec, o);
    StepFromGlobal(w, f, b, i, rec);
    StepFromGlobal(w, f, b, i, rec');
    if i + 1 < b.numMethods { StepFromGlobal(w, f, b, i + 1, rec'); }
    RunFromUnfolds(w, f, env, it, t);
    assert AfterCheck(it, o, true) == AtGlobal(b, i, rec');
    RestUnfolds(w, f, env, AtGlobal(b, i, rec'), t + 1);
  }

  /** The whole scan offers, in this order and no other, what the nested loops offer. */
  lemma {:induction false} GlobalsRefine(w: World, f: Flags, env: Env, b: Iter, i: nat, rec: Code, t: nat)
    requires GlobalBase(w, f, b) && Tame(env) && b.firstGlob <= i < b.numMethods && rec != NoMoreParts
    ensures Valid(w, f, AtGlobal(b, i, rec)) && CanStep(AtGlobal(b, i, rec))
    ensures RunFrom(w, f, env, AtGlobal(b, i, rec), t)
            == Globals(env, b.order[i..b.numMethods], b.order[..b.firstGlob], Itinerary(w), rec, t)
    decreases b.numMethods - i
  {
    hide RunFrom, RunDevices, Valid, CanStep, Itinerary, Devices;
    var rec' := Record(rec, env(t, None));
    GlobalUnfolds(w, f, env, b, i, rec, t);
    var gs := b.order[i..b.numMethods];
    assert gs[1..] == b.order[i + 1..b.numMethods];
    if i + 1 < b.numMethods {
      GlobalsRefine(w, f, env, b, i + 1, rec', t + 1);
    } else {
      GlobalsDone(w, f, env, b, rec', t + 1);
    }
  }

  lemma {:induction false} GlobalsDone(w: World, f: Flags, env: Env, b: Iter, rec: Code, t: nat)
    requires GlobalBase(w, f, b) && Tame(env)
    ensures Globals(env, [], b.order[..b.firstGlob], Itinerary(w), rec, t)
            == RunDevices(w, f, env, b, rec, t)
  {
    hide RunAt, Itinerary, Partitions, FirstSeat, After;
    FirstSeatWalks(w, f, b.curLabel);
    var first := FirstSeat(w, b.curLabel);
    if first.Some? {
      DevicesRefine(w, f, env, PlainBase(w, b), first.value, rec, t);
    }
  }
}
