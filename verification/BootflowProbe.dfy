/** The search by priority when bootdevs may fail to probe: what it comes to, from any start. */
module BootflowProbe {
  import opened Results
  import opened BootflowModel
  import opened BootflowLoops

  /** How the search stands: a bootdev, still searching at a priority, or none left. */
  datatype Turn = Found(dev: nat) | Again(prio: nat) | Exhausted

  predicate ValidStart(w: World, prio: nat, dev: Option<nat>) {
    prio < BOOTDEVP_COUNT && (dev.Some? ==> dev.value < |w.devs|)
  }

  function From(dev: Option<nat>): nat {
    if dev.Some? then dev.value + 1 else 0
  }

  /** One turn.  A bootdev that fails to probe sends the search back to the start of the list. */
  function Attempt(w: World, fails: set<nat>, prio: nat, dev: Option<nat>): Turn
    requires ValidStart(w, prio, dev)
  {
    var found := NextAt(w, prio, From(dev));
    if found.Some? then
      if found.value in fails then Again(prio) else Found(found.value)
    else if prio + 1 == BOOTDEVP_COUNT then Exhausted
    else Again(prio + 1)
  }

  /** The search after `n` turns. */
  function Turns(w: World, fails: set<nat>, prio: nat, dev: Option<nat>, n: nat): (r: Turn)
    requires ValidStart(w, prio, dev)
    ensures r.Again? ==> r.prio < BOOTDEVP_COUNT
    decreases n
  {
    if n == 0 then Again(prio)
    else
      var turn := Attempt(w, fails, prio, dev);
      if turn.Again? then Turns(w, fails, turn.prio, None, n - 1) else turn
  }

  /** The search loop itself, given up after `limit` turns. */
  method Search(w: World, fails: set<nat>, prio: nat, start: Option<nat>, limit: nat) returns (r: Turn)
    requires ValidStart(w, prio, start)
    ensures r == Turns(w, fails, prio, start, limit)
  {
    hide NextAt;
    var cur, n, dev := prio, limit, start;
    while n > 0
      invariant ValidStart(w, cur, dev)
      invariant Turns(w, fails, cur, dev, n) == Turns(w, fails, prio, start, limit)
      decreases n
    {
      var at := From(dev);
      while at < |w.devs| && w.devs[at].prio != cur
        invariant at <= |w.devs|
        invariant NextAt(w, cur, at) == NextAt(w, cur, From(dev))
        decreases |w.devs| - at
      {
        AtUnfolds(w, cur, at);
        at := at + 1;
      }
      AtUnfolds(w, cur, at);
      n := n - 1;
      if at == |w.devs| {
        cur := cur + 1;
        if cur == BOOTDEVP_COUNT {
          return Exhausted;
        }
      } else if at !in fails {
        return Found(at);
      }
      dev := None;
    }
    return Again(cur);
  }

  // ---------------------------------------------------------------- what the search comes to

  /** The bootdevs still to come, in scan order. */
  function Ahead(w: World, prio: nat, dev: Option<nat>): seq<nat>
    requires ValidStart(w, prio, dev)
  {
    Onward(w, prio, From(dev))
  }

  /** Climbing to the priority of the next bootdev takes one turn for each priority. */
  lemma {:induction false} Climb(w: World, fails: set<nat>, prio: nat, dev: Option<nat>, m: nat)
    requires ValidStart(w, prio, dev)
    ensures var ds := Ahead(w, prio, dev);
            if ds == [] then Turns(w, fails, prio, dev, BOOTDEVP_COUNT - prio) == Exhausted
            else
              && ds[0] < |w.devs| && prio <= w.devs[ds[0]].prio < BOOTDEVP_COUNT
              && Turns(w, fails, prio, dev, w.devs[ds[0]].prio - prio + 1 + m)
                 == if ds[0] !in fails then Found(ds[0]) else Turns(w, fails, w.devs[ds[0]].prio, None, m)
    decreases BOOTDEVP_COUNT - prio
  {
    hide NextAt, Onward;
    OnwardHead(w, prio, From(dev));
    if NextAt(w, prio, From(dev)).None? && prio + 1 < BOOTDEVP_COUNT {
      Climb(w, fails, prio + 1, None, m);
    }
  }

  /** A search that has ended stays ended. */
  lemma {:induction false} Sticky(w: World, fails: set<nat>, prio: nat, dev: Option<nat>, n: nat, m: nat)
    requires ValidStart(w, prio, dev) && !Turns(w, fails, prio, dev, n).Again?
    ensures Turns(w, fails, prio, dev, n + m) == Turns(w, fails, prio, dev, n)
    decreases n
  {
    hide NextAt;
    var turn := Attempt(w, fails, prio, dev);
    if turn.Again? { Sticky(w, fails, turn.prio, None, n - 1, m); }
  }

  lemma {:induction false} Spins(w: World, fails: set<nat>, prio: nat, n: nat)
    requires ValidStart(w, prio, None)
    requires NextAt(w, prio, 0).Some? && NextAt(w, prio, 0).value in fails
    ensures Turns(w, fails, prio, None, n) == Again(prio)
    decreases n
  {
    hide NextAt;
    if n > 0 { Spins(w, fails, prio, n - 1); }
  }

  /** Where a search ends, if it does: at the next bootdev in scan order if that one probes, and
    * otherwise at the very first bootdev of the same priority if that one does. */
  function Outcome(w: World, fails: set<nat>, prio: nat, dev: Option<nat>): (r: Turn)
    requires ValidStart(w, prio, dev)
  {
    var ds := Ahead(w, prio, dev);
    if ds == [] then Exhausted
    else if ds[0] !in fails then Found(ds[0])
    else
      Climb(w, fails, prio, dev, 0);
      var first := NextAt(w, w.devs[ds[0]].prio, 0);
      if first.Some? && first.value !in fails then Found(first.value) else Again(w.devs[ds[0]].prio)
  }

  ghost predicate ComesTo(w: World, fails: set<nat>, prio: nat, dev: Option<nat>, r: Turn)
    requires ValidStart(w, prio, dev)
  {
    exists n: nat :: Turns(w, fails, prio, dev, n) == r
  }

  /** For every start: the search comes to that outcome and no other, or goes on for ever. */
  lemma {:induction false} SearchOutcome(w: World, fails: set<nat>, prio: nat, dev: Option<nat>)
    requires ValidStart(w, prio, dev)
    ensures var r := Outcome(w, fails, prio, dev);
            && (!r.Again? ==> ComesTo(w, fails, prio, dev, r))
            && (r.Again? ==> forall n: nat :: Turns(w, fails, prio, dev, n).Again?)
  {
    hide NextAt, Onward;
    Climb(w, fails, prio, dev, 1);
    var ds := Ahead(w, prio, dev);
    if ds != [] && ds[0] in fails {
      var p := w.devs[ds[0]].prio;
      SomeAt(w, p, ds[0]);
      if NextAt(w, p, 0).value in fails {
        forall n: nat ensures Turns(w, fails, prio, dev, n).Again? {
          Climb(w, fails, prio, dev, n);
          Spins(w, fails, p, n);
          if !Turns(w, fails, prio, dev, n).Again? { Sticky(w, fails, prio, dev, n, p - prio + 1); }
        }
      } else {
        OneTurn(w, fails, p);
      }
    }
  }

  lemma {:induction false} OneTurn(w: World, fails: set<nat>, prio: nat)
    requires ValidStart(w, prio, None) && NextAt(w, prio, 0).Some? && NextAt(w, prio, 0).value !in fails
    ensures Turns(w, fails, prio, None, 1) == Found(NextAt(w, prio, 0).value)
  {
    hide NextAt;
  }

  lemma {:induction false} SomeAt(w: World, prio: nat, d: nat)
    requires d < |w.devs| && w.devs[d].prio == prio
    ensures NextAt(w, prio, 0).Some? && NextAt(w, prio, 0).value <= d
  {
  }

  lemma {:induction false} OneResult(w: World, fails: set<nat>, prio: nat, dev: Option<nat>, n: nat, m: nat)
    requires ValidStart(w, prio, dev)
    requires !Turns(w, fails, prio, dev, n).Again? && !Turns(w, fails, prio, dev, m).Again?
    ensures Turns(w, fails, prio, dev, n) == Turns(w, fails, prio, dev, m)
  {
    hide NextAt;
    Sticky(w, fails, prio, dev, n, m);
    Sticky(w, fails, prio, dev, m, n);
  }

  /** The next bootdev in scan order, or the end when there is none. */
  function Proper(w: World, prio: nat, dev: Option<nat>): Turn
    requires ValidStart(w, prio, dev)
  {
    var ds := Ahead(w, prio, dev);
    if ds == [] then Exhausted else Found(ds[0])
  }

  /** The search comes to the next bootdev in scan order if and only if that one, if any, probes. */
  lemma {:induction false} SearchProperIff(w: World, fails: set<nat>, prio: nat, dev: Option<nat>)
    requires ValidStart(w, prio, dev)
    ensures var ds := Ahead(w, prio, dev);
            ComesTo(w, fails, prio, dev, Proper(w, prio, dev)) <==> ds == [] || ds[0] !in fails
  {
    hide NextAt, Onward, Turns;
    SearchOutcome(w, fails, prio, dev);
    var ds := Ahead(w, prio, dev);
    if ds != [] && ds[0] in fails && ComesTo(w, fails, prio, dev, Found(ds[0])) {
      var r := Outcome(w, fails, prio, dev);
      var n: nat :| Turns(w, fails, prio, dev, n) == Found(ds[0]);
      Climb(w, fails, prio, dev, 0);
      assert ComesTo(w, fails, prio, dev, r);
      var m: nat :| Turns(w, fails, prio, dev, m) == r;
      OneResult(w, fails, prio, dev, n, m);
      assert false;
    }
  }

  // ---------------------------------------------------------------- a scan that is sent back

  /** The scan stands at `e`, and a later bootdev of its priority fails while the first one does not. */
  predicate Stuck(w: World, fails: set<nat>, bad: nat, e: nat) {
    && e < bad < |w.devs| && bad in fails
    && w.devs[e].prio == w.devs[bad].prio < BOOTDEVP_COUNT
    && NextAt(w, w.devs[bad].prio, 0).Some? && NextAt(w, w.devs[bad].prio, 0).value !in fails
  }

  lemma {:induction false} StuckStays(w: World, fails: set<nat>, bad: nat, e: nat)
    requires Stuck(w, fails, bad, e)
    ensures var r := Outcome(w, fails, w.devs[e].prio, Some(e));
            r.Found? && Stuck(w, fails, bad, r.dev)
  {
    hide Onward;
    var p := w.devs[e].prio;
    OnwardHead(w, p, e + 1);
    SomeAt(w, p, e);
    var next := NextAt(w, p, e + 1);
    assert next.Some? && next.value <= bad;
  }

  /** The bootdev reached after `k` more searches, each started after the one before. */
  function Reached(w: World, fails: set<nat>, e: nat, k: nat): nat {
    if k == 0 then e
    else
      var d := Reached(w, fails, e, k - 1);
      if d >= |w.devs| || w.devs[d].prio >= BOOTDEVP_COUNT then d
      else
        var r := Outcome(w, fails, w.devs[d].prio, Some(d));
        if r.Found? then r.dev else d
  }

  /** A scan sent back this way neither ends nor gets past the failing bootdev: every search comes
    * to a bootdev of the same priority before it. */
  lemma {:induction false} NeverPast(w: World, fails: set<nat>, bad: nat, e: nat, k: nat)
    requires Stuck(w, fails, bad, e)
    ensures var d := Reached(w, fails, e, k);
            && Stuck(w, fails, bad, d)
            && ComesTo(w, fails, w.devs[d].prio, Some(d), Found(Reached(w, fails, e, k + 1)))
    decreases k
  {
    hide Outcome, NextAt;
    if k > 0 {
      NeverPast(w, fails, bad, e, k - 1);
      StuckStays(w, fails, bad, Reached(w, fails, e, k - 1));
    }
    var d := Reached(w, fails, e, k);
    StuckStays(w, fails, bad, d);
    SearchOutcome(w, fails, w.devs[d].prio, Some(d));
  }

  /** Two bootdevs of one priority, the second failing: after the first one comes the first one. */
  lemma {:induction false} SentBack(w: World)
    requires w.devs == [Bootdev(3, 0), Bootdev(3, 1)]
    ensures Stuck(w, {1}, 1, 0) && ComesTo(w, {1}, 3, Some(0), Found(0))
  {
    NeverPast(w, {1}, 1, 0, 0);
    StuckStays(w, {1}, 1, 0);
  }
}
