/** The bootflow iterator as values: its state, one step, and the run of a whole scan.
  *
  * Devices, labels and the outcome of each check come from outside; probes succeed and no device
  * appears during a scan.
  */
module BootflowModel {
  import opened Results

  const MAX_PART_PER_BOOTDEV := 30
  const BOOTDEVP_COUNT := 8

  /** What a check or a step reports. */
  datatype Code = Done | NoMoreParts | NoMoreDevices | NotSupported | Failed

  /** A bootdev in uclass order; siblings share their media device. */
  datatype Bootdev = Bootdev(prio: nat, media: nat)

  datatype Bootmeth = Bootmeth(id: nat, global: bool)

  /** The bootdevs in list order, and, when an order of labels is set, what each label finds. */
  datatype World = World(devs: seq<Bootdev>, labels: Option<seq<Option<nat>>>)

  datatype Flags = Flags(all: bool, singleDev: bool, singleUclass: bool, singleMedia: bool)

  /** The code of one check, and whether it saw a partition table on the way. */
  datatype Outcome = Outcome(code: Code, table: bool)

  datatype Iter = Iter(
    dev: Option<nat>, part: nat, maxPart: nat, err: Code,
    labels: Option<seq<Option<nat>>>, curLabel: int, curPrio: nat,
    order: seq<Bootmeth>, numMethods: nat, curMethod: nat, firstGlob: int, doingGlobal: bool,
    meth: Bootmeth)

  // ---------------------------------------------------------------- choosing the next bootdev

  predicate ValidWorld(w: World) {
    w.labels.Some? ==>
      forall i :: 0 <= i < |w.labels.value| ==> w.labels.value[i].Some? ==> w.labels.value[i].value < |w.devs|
  }

  /** The first bootdev of this priority at list position `from` or later. */
  function NextAt(w: World, prio: nat, from: nat): (r: Option<nat>)
    requires from <= |w.devs|
    ensures r.Some? ==> from <= r.value < |w.devs| && w.devs[r.value].prio == prio
    ensures r.Some? ==> forall i :: from <= i < r.value ==> w.devs[i].prio != prio
    ensures r.None? ==> forall i :: from <= i < |w.devs| ==> w.devs[i].prio != prio
    decreases |w.devs| - from
  {
    if from == |w.devs| then None
    else if w.devs[from].prio == prio then Some(from)
    else NextAt(w, prio, from + 1)
  }

  /** The search for a priority looks at one bootdev at a time. */
  lemma {:induction false} AtUnfolds(w: World, prio: nat, at: nat)
    requires at <= |w.devs|
    ensures NextAt(w, prio, at)
            == if at == |w.devs| then None
               else if w.devs[at].prio == prio then Some(at) else NextAt(w, prio, at + 1)
  {
  }

  /** The next bootdev after `dev`, and the priority at which it was found. */
  function NextPrio(w: World, prio: nat, dev: Option<nat>): (r: (nat, Option<nat>))
    requires prio < BOOTDEVP_COUNT
    requires dev.Some? ==> dev.value < |w.devs|
    ensures prio <= r.0 <= BOOTDEVP_COUNT
    ensures r.1.Some? <==> r.0 < BOOTDEVP_COUNT
    ensures r.1.Some? ==> r.1.value < |w.devs| && w.devs[r.1.value].prio == r.0
    ensures r.1.Some? && r.0 == prio && dev.Some? ==> dev.value < r.1.value
    decreases BOOTDEVP_COUNT - prio
  {
    var found := NextAt(w, prio, if dev.Some? then dev.value + 1 else 0);
    if found.Some? then (prio, found)
    else if prio + 1 == BOOTDEVP_COUNT then (BOOTDEVP_COUNT, None)
    else NextPrio(w, prio + 1, None)
  }

  function NextLabel(labels: seq<Option<nat>>, cur: int): (r: (int, Option<nat>))
    requires -1 <= cur < |labels|
    ensures cur < r.0 <= |labels|
    ensures r.1.Some? <==> r.0 < |labels|
    ensures r.1.Some? ==> r.1 == labels[r.0]
    ensures forall i :: cur < i < r.0 ==> labels[i].None?
    decreases |labels| - cur
  {
    var next := cur + 1;
    if next == |labels| then (next, None)
    else if labels[next].Some? then (next, labels[next])
    else NextLabel(labels, next)
  }

  /** The next bootdev under the same media device. */
  function NextSibling(w: World, media: nat, from: nat): (r: Option<nat>)
    requires from <= |w.devs|
    ensures r.Some? ==> from <= r.value < |w.devs| && w.devs[r.value].media == media
    ensures forall i :: from <= i < (if r.Some? then r.value else |w.devs|) ==> w.devs[i].media != media
    decreases |w.devs| - from
  {
    if from == |w.devs| then None
    else if w.devs[from].media == media then Some(from)
    else NextSibling(w, media, from + 1)
  }

  predicate LabelsOk(w: World, it: Iter) {
    it.labels.Some? ==> it.labels == w.labels && -1 <= it.curLabel < |it.labels.value|
  }

  /** The iterator is in the middle of a scan. */
  predicate Valid(w: World, f: Flags, it: Iter) {
    && ValidWorld(w)
    && it.order != [] && it.curMethod <= it.numMethods <= |it.order|
    && it.part <= it.maxPart <= MAX_PART_PER_BOOTDEV
    && LabelsOk(w, it)
    && it.curPrio < BOOTDEVP_COUNT
    && (it.doingGlobal ==> 0 <= it.firstGlob <= it.curMethod && it.maxPart == 0 && it.dev.None?)
    && (!it.doingGlobal ==> it.dev.Some? && it.dev.value < |w.devs|)
  }

  /** Starts on the first bootdev, by label when there is an order of labels. */
  function Setup(w: World, it: Iter): (Iter, bool)
    requires ValidWorld(w) && it.curPrio < BOOTDEVP_COUNT
  {
    if w.labels.Some? then
      var (cur, dev) := NextLabel(w.labels.value, -1);
      (it.(labels := w.labels, curLabel := cur, dev := dev), dev.Some?)
    else
      var (prio, dev) := NextPrio(w, it.curPrio, None);
      (it.(labels := None, curPrio := prio, dev := dev), dev.Some?)
  }

  function NextDev(w: World, f: Flags, it: Iter, restart: bool): (Iter, bool)
    requires ValidWorld(w) && LabelsOk(w, it) && it.curPrio < BOOTDEVP_COUNT
    requires !restart ==> it.dev.Some? && it.dev.value < |w.devs|
  {
    if f.singleDev then (it, false)
    else if restart then Setup(w, it)
    else if f.singleUclass then
      var next := if it.dev.value + 1 < |w.devs| then Some(it.dev.value + 1) else None;
      (it.(dev := next), next.Some?)
    else if f.singleMedia then
      var next := NextSibling(w, w.devs[it.dev.value].media, it.dev.value + 1);
      (it.(dev := next), next.Some?)
    else if it.labels.Some? then
      var (cur, dev) := NextLabel(it.labels.value, it.curLabel);
      (it.(curLabel := cur, dev := dev), dev.Some?)
    else
      var (prio, dev) := NextPrio(w, it.curPrio, it.dev);
      (it.(curPrio := prio, dev := dev), dev.Some?)
  }

  // ---------------------------------------------------------------- one step

  /** A global bootmeth does not report the end of partitions. */
  predicate CanStep(it: Iter) {
    it.doingGlobal ==> it.err != NoMoreParts
  }

  /** The bootmeths are through: back to the first one on the next partition or bootdev. */
  function MoveOn(w: World, f: Flags, it: Iter, restart: bool): (Iter, bool)
    requires ValidWorld(w) && LabelsOk(w, it) && it.curPrio < BOOTDEVP_COUNT && it.order != []
    requires !restart ==> it.dev.Some? && it.dev.value < |w.devs|
  {
    var it' := it.(curMethod := 0, meth := it.order[0]);
    if it.err != NoMoreParts && it.part + 1 <= it.maxPart then (it'.(part := it.part + 1), true)
    else NextDev(w, f, it'.(part := 0, maxPart := 0), restart)
  }

  /** Moves to the next bootmeth, partition or bootdev; false when there is nothing more. */
  function Incr(w: World, f: Flags, it: Iter): (Iter, bool)
    requires Valid(w, f, it) && CanStep(it)
  {
    if it.err == NoMoreDevices then (it, false)
    else if it.err != NoMoreParts && it.curMethod + 1 < it.numMethods then
      (it.(curMethod := it.curMethod + 1, meth := it.order[it.curMethod + 1]), true)
    else
      var leave := it.err != NoMoreParts && it.doingGlobal;
      MoveOn(w, f, if leave then it.(numMethods := it.firstGlob, doingGlobal := false) else it, leave)
  }

  /** A check records an error, keeps an earlier one on success, and may reveal partitions. */
  function AfterCheck(it: Iter, o: Outcome, record: bool): Iter {
    it.(err := if o.code == Done || !record then it.err else o.code,
        maxPart := if o.table && !it.doingGlobal then MAX_PART_PER_BOOTDEV else it.maxPart)
  }

  /** Forgets the current bootmeth for the rest of the scan; later ones move up. */
  function Drop(it: Iter, bmeth: Bootmeth): Option<Iter>
    requires it.numMethods <= |it.order|
  {
    if bmeth != it.meth || it.curMethod >= it.numMethods || it.order[it.curMethod] != bmeth then None
    else
      Some(it.(order := it.order[..it.curMethod] + it.order[it.curMethod + 1..it.numMethods]
                        + it.order[it.numMethods - 1..],
               numMethods := it.numMethods - 1))
  }

  // ---------------------------------------------------------------- positions

  /** Where a scan stands: phase, bootdev or label position, partition, bootmeth index. */
  datatype Key = Key(phase: nat, major: int, minor: int, part: nat, meth: nat)

  function DevIndex(it: Iter): int {
    if it.dev.Some? then it.dev.value else -1
  }

  function KeyOf(f: Flags, it: Iter): Key {
    if it.doingGlobal then Key(0, 0, 0, it.part, it.curMethod)
    else if f.singleUclass || f.singleMedia then Key(1, 0, DevIndex(it), it.part, it.curMethod)
    else if it.labels.Some? then Key(1, it.curLabel, 0, it.part, it.curMethod)
    else Key(1, it.curPrio, DevIndex(it), it.part, it.curMethod)
  }

  predicate KeyLess(a: Key, b: Key) {
    || a.phase < b.phase
    || (a.phase == b.phase
        && (|| a.major < b.major
            || (a.major == b.major
                && (|| a.minor < b.minor
                    || (a.minor == b.minor
                        && (a.part < b.part || (a.part == b.part && a.meth < b.meth)))))))
  }

  function MajorLeft(w: World, f: Flags, it: Iter): int {
    if it.doingGlobal || f.singleUclass || f.singleMedia then 0
    else if it.labels.Some? then |it.labels.value| - it.curLabel
    else BOOTDEVP_COUNT - it.curPrio
  }

  /** One position offered to a check. */
  datatype Offer = Offer(key: Key, dev: Option<nat>, part: nat, meth: Bootmeth)

  function OfferOf(f: Flags, it: Iter): Offer {
    Offer(KeyOf(f, it), it.dev, it.part, it.meth)
  }
}
