/** Slot selection over any number of boots with no other writer of the control block. */
module AndroidAbRuns {
  import opened Results
  import opened AndroidAb

  /** The block after `k` selections, and the answer of selection number `k`. */
  ghost function After(crc: Crc, c: Control, k: nat): (r: Control)
    requires WellFormed(c)
    ensures WellFormed(r)
  {
    if k == 0 then c else Select(crc, After(crc, c, k - 1)).0
  }

  ghost function Answer(crc: Crc, c: Control, k: nat): Choice
    requires WellFormed(c)
  {
    Select(crc, After(crc, c, k)).1
  }

  // ---------------------------------------------------------------- every single selection

  predicate Sound(crc: Crc, c: Control) {
    WellFormed(c) && c.crc == crc(c.body) && Readable(c.body) && c.body.nbSlot <= MAX_SLOTS
  }

  /** The field that tells user space which slot was selected. */
  const SUFFIXES: seq<string> := ["a\0\0\0", "b\0\0\0", "c\0\0\0", "d\0\0\0"]

  lemma {:induction false} SuffixNames(slot: nat)
    requires slot < 4
    ensures Suffix(slot) == SUFFIXES[slot]
  {
    assert ('a' as int + 1) as char == 'b' && ('a' as int + 2) as char == 'c' && ('a' as int + 3) as char == 'd';
  }

  /** What a selection works on: the block on disk if its CRC matches, and otherwise that block with
    * two fresh slots and a fresh header. */
  lemma {:induction false} LoadedLaws(crc: Crc, c: Control)
    requires WellFormed(c)
    ensures var b := Loaded(crc, c);
            && |b.slots| == 4
            && (c.crc == crc(c.body) ==> b == c.body)
            && (c.crc != crc(c.body) ==>
                  && b.suffix == "a\0\0\0" && b.magic == 0x42414342 && b.version == 1 && b.nbSlot == 2
                  && b.slots[0] == b.slots[1] == Slot(15, 7, false, false, 0)
                  && b.slots[2..] == c.body.slots[2..] && b.recoveryTries == c.body.recoveryTries
                  && b.reserved0 == [0, 0] && b.reserved1 == [0, 0, 0, 0, 0, 0, 0, 0])
  {
  }

  /** The block after a try was taken from its slot `i`, or not if that one has booted before. */
  predicate Registers(before: Body, after: Body, i: nat)
    requires |before.slots| == |after.slots| == 4 && i < 4
  {
    && after == before.(suffix := after.suffix, slots := after.slots, nbSlot := after.nbSlot)
    && after.suffix == SUFFIXES[i]
    && (forall j :: 0 <= j < 4 && j != i ==> after.slots[j] == before.slots[j])
    && after.slots[i] == before.slots[i].(tries := after.slots[i].tries)
    && after.slots[i].tries == before.slots[i].tries - if before.slots[i].successful then 0 else 1
  }

  /** A selection refuses a block of another kind or a later version and then changes nothing.
    * Otherwise it returns the best slot, if any can boot, and leaves a block with a matching CRC on
    * disk: that slot named, one try taken from it unless it has booted before, the slot count cut
    * to four, and every other field as it was. */
  lemma {:induction false} SelectLaws(crc: Crc, c: Control)
    requires WellFormed(c)
    ensures var (c', choice) := Select(crc, c);
            var b := Loaded(crc, c);
            var n := if b.nbSlot > 4 then 4 else b.nbSlot;
            && |b.slots| == |c'.body.slots| == 4
            && (choice == NoData <==> b.magic != 0x42414342 || b.version > 1)
            && (choice == NoData ==> c' == c)
            && (choice != NoData ==> Sound(crc, c') && c'.body.nbSlot == n)
            && (choice == NoSlot ==> NoneBootable(b.slots, n) && c'.body == b.(nbSlot := n))
            && (choice.Boot? ==> IsBest(b.slots, n, choice.slot) && Registers(b, c'.body, choice.slot))
  {
    if Select(crc, c).1.Boot? { SuffixNames(Select(crc, c).1.slot); }
  }

  /** After every selection of every run the block on disk names the slot that was returned, or keeps
    * the name it had when none was. */
  lemma {:induction false} DiskNamesSlot(crc: Crc, c: Control, k: nat)
    requires Sound(crc, c)
    ensures var suffix := After(crc, c, k + 1).body.suffix;
            match Answer(crc, c, k)
            case Boot(i) => i < 4 && suffix == SUFFIXES[i]
            case _ => suffix == After(crc, c, k).body.suffix
  {
    hide Select, Readable;
    SoundStays(crc, c, k);
    SelectLaws(crc, After(crc, c, k));
    SoundLoads(crc, After(crc, c, k));
  }

  lemma {:induction false} SoundLoads(crc: Crc, c: Control)
    requires Sound(crc, c)
    ensures WellFormed(c) && Loaded(crc, c) == c.body && c.body.nbSlot <= MAX_SLOTS
  {
  }

  /** A replaced block behaves from then on like the default written out. */
  lemma {:induction false} LoadedSame(crc: Crc, c: Control)
    requires WellFormed(c) && c.crc != crc(c.body)
    ensures Select(crc, c) == Select(crc, Control(Loaded(crc, c), crc(Loaded(crc, c))))
  {
  }

  lemma {:induction false} SoundStays(crc: Crc, c: Control, k: nat)
    requires Sound(crc, c)
    ensures Sound(crc, After(crc, c, k)) && After(crc, c, k).body.nbSlot == c.body.nbSlot
    ensures Answer(crc, c, k) != NoData
  {
    if k > 0 { SoundStays(crc, c, k - 1); }
  }

  // ---------------------------------------------------------------- tries are spent, never made

  /** Tries left in slots that have not booted successfully. */
  function Budget(slots: seq<Slot>): nat {
    if slots == [] then 0
    else (if slots[0].successful then 0 else slots[0].tries) + Budget(slots[1..])
  }

  lemma {:induction false} BudgetUpdate(slots: seq<Slot>, i: nat, s: Slot)
    requires i < |slots| && s.successful == slots[i].successful
    ensures Budget(slots[i := s])
            == Budget(slots) + if s.successful then 0 else s.tries - slots[i].tries
  {
    if i == 0 {
      assert slots[0 := s][1..] == slots[1..];
    } else {
      assert slots[i := s][1..] == slots[1..][i - 1 := s];
      BudgetUpdate(slots[1..], i - 1, s);
    }
  }

  /** How many of the first `k` answers were slots that had not booted successfully. */
  ghost function Attempts(crc: Crc, c: Control, k: nat): nat
    requires WellFormed(c)
  {
    if k == 0 then 0
    else
      var answer := Answer(crc, c, k - 1);
      Attempts(crc, c, k - 1)
      + if answer.Boot? && answer.slot < MAX_SLOTS && !After(crc, c, k - 1).body.slots[answer.slot].successful
        then 1 else 0
  }

  /** Over every run, attempts made and tries left add up to the tries there were: so attempts on
    * slots that never succeed are bounded by the initial tries. */
  lemma {:induction false} TriesConserved(crc: Crc, c: Control, k: nat)
    requires Sound(crc, c)
    ensures Attempts(crc, c, k) + Budget(After(crc, c, k).body.slots) == Budget(c.body.slots)
  {
    hide Select, Budget, IsBest, NoneBootable;
    if k > 0 {
      TriesConserved(crc, c, k - 1);
      SoundStays(crc, c, k - 1);
      var d := After(crc, c, k - 1);
      SelectLaws(crc, d);
      var answer := Answer(crc, c, k - 1);
      if answer.Boot? {
        var slots := Select(crc, d).0.body.slots;
        assert slots == d.body.slots[answer.slot := slots[answer.slot]];
        BudgetUpdate(d.body.slots, answer.slot, slots[answer.slot]);
      }
    }
  }

  lemma {:induction false} SuccessStaysOnce(crc: Crc, c: Control, k: nat)
    requires Sound(crc, c)
    requires Answer(crc, c, k).Boot? && Answer(crc, c, k).slot < MAX_SLOTS
    requires After(crc, c, k).body.slots[Answer(crc, c, k).slot].successful
    ensures Answer(crc, c, k + 1) == Answer(crc, c, k)
    ensures After(crc, c, k + 1).body.slots == After(crc, c, k).body.slots
  {
    var d, i := After(crc, c, k), Answer(crc, c, k).slot;
    SoundStays(crc, c, k);
    SelectLaws(crc, d);
    var d' := After(crc, c, k + 1);
    assert d' == Select(crc, d).0;
    assert d'.body.slots == d.body.slots;
    BestIsUnique(d'.body.slots, d'.body.nbSlot, i);
  }

  /** A slot that has booted successfully, once returned, is returned for ever. */
  lemma {:induction false} SuccessSticks(crc: Crc, c: Control, k: nat, m: nat)
    requires Sound(crc, c) && k <= m
    requires Answer(crc, c, k).Boot? && Answer(crc, c, k).slot < MAX_SLOTS
    requires After(crc, c, k).body.slots[Answer(crc, c, k).slot].successful
    ensures Answer(crc, c, m) == Answer(crc, c, k)
    ensures After(crc, c, m).body.slots == After(crc, c, k).body.slots
    decreases m - k
  {
    if k < m {
      SuccessStaysOnce(crc, c, k);
      SuccessSticks(crc, c, k + 1, m);
    }
  }

  // ---------------------------------------------------------------- round robin

  /** Slots with the same priority, none successful or corrupted, after `r` full rounds and `j`
    * more turns out of `tries` rounds. */
  predicate InTurn(b: Body, n: nat, priority: nat, tries: nat, r: nat, j: nat) {
    && b.nbSlot == n <= |b.slots| && j < n && r <= tries
    && forall i :: 0 <= i < n ==>
         && b.slots[i].priority == priority && !b.slots[i].successful && !b.slots[i].corrupted
         && b.slots[i].tries == tries - r - (if i < j then 1 else 0)
  }

  lemma {:induction false} TurnStep(crc: Crc, c: Control, n: nat, priority: nat, tries: nat, r: nat, j: nat)
    requires Sound(crc, c) && InTurn(c.body, n, priority, tries, r, j) && r < tries
    ensures Select(crc, c).1 == Boot(j)
    ensures InTurn(Select(crc, c).0.body, n, priority, tries,
                   if j + 1 == n then r + 1 else r, if j + 1 == n then 0 else j + 1)
  {
    var slots := c.body.slots;
    assert IsBest(slots, n, j);
    BestIsUnique(slots, n, j);
  }

  lemma {:induction false} NextTurn(k: nat, n: nat)
    requires 0 < n <= MAX_SLOTS
    ensures (k + 1) % n == (if k % n + 1 == n then 0 else k % n + 1)
    ensures (k + 1) / n == k / n + (if k % n + 1 == n then 1 else 0)
  {
    assert n == 1 || n == 2 || n == 3 || n == 4;
  }

  lemma {:induction false} RoundsLeft(k: nat, n: nat, tries: nat)
    requires 0 < n <= MAX_SLOTS && k <= n * tries
    ensures k / n <= tries && (k < n * tries ==> k / n < tries)
    ensures k == n * tries ==> k / n == tries && k % n == 0
  {
    assert n == 1 || n == 2 || n == 3 || n == 4;
  }

  lemma {:induction false} FewSlots(crc: Crc, c: Control)
    requires Sound(crc, c)
    ensures WellFormed(c) && c.body.nbSlot <= MAX_SLOTS
  {
  }

  lemma {:induction false} TurnAfter(crc: Crc, c: Control, n: nat, priority: nat, tries: nat, k: nat)
    requires Sound(crc, c) && 0 < n && InTurn(c.body, n, priority, tries, 0, 0) && k <= n * tries
    ensures k / n <= tries
    ensures Sound(crc, After(crc, c, k))
    ensures InTurn(After(crc, c, k).body, n, priority, tries, k / n, k % n)
    ensures k < n * tries ==> k / n < tries
  {
    hide Select, Sound, InTurn;
    TurnFits(c.body, n, priority, tries, 0, 0);
    FewSlots(crc, c);
    RoundsLeft(k, n, tries);
    SoundStays(crc, c, k);
    if k > 0 {
      RoundsLeft(k - 1, n, tries);
      TurnAfter(crc, c, n, priority, tries, k - 1);
      TurnStep(crc, After(crc, c, k - 1), n, priority, tries, (k - 1) / n, (k - 1) % n);
      NextTurn(k - 1, n);
    }
  }

  /** From `n` slots of equal priority with `tries` tries each, none successful or corrupted:
    * selection `k` returns slot `k mod n` while tries last, and afterwards every selection fails
    * and changes nothing. */
  lemma {:induction false} RoundRobin(crc: Crc, c: Control, n: nat, priority: nat, tries: nat, k: nat)
    requires Sound(crc, c) && 0 < n && InTurn(c.body, n, priority, tries, 0, 0)
    ensures k < n * tries ==> Answer(crc, c, k) == Boot(k % n)
    ensures k >= n * tries ==>
              Answer(crc, c, k) == NoSlot && After(crc, c, k) == After(crc, c, n * tries)
  {
    hide Select, InTurn;
    if k < n * tries {
      TurnAfter(crc, c, n, priority, tries, k);
      TurnFits(After(crc, c, k).body, n, priority, tries, k / n, k % n);
      TurnStep(crc, After(crc, c, k), n, priority, tries, k / n, k % n);
    } else {
      EndOfTurns(crc, c, n, priority, tries);
      Spent(crc, c, n * tries, k);
    }
  }

  lemma {:induction false} EndOfTurns(crc: Crc, c: Control, n: nat, priority: nat, tries: nat)
    requires Sound(crc, c) && 0 < n && InTurn(c.body, n, priority, tries, 0, 0)
    ensures Select(crc, After(crc, c, n * tries)) == (After(crc, c, n * tries), NoSlot)
  {
    hide Select, InTurn, Sound, After;
    var end := n * tries;
    TurnFits(c.body, n, priority, tries, 0, 0);
    FewSlots(crc, c);
    TurnAfter(crc, c, n, priority, tries, end);
    AllRounds(n, tries);
    NoTurnLeft(crc, After(crc, c, end), n, priority, tries);
  }

  lemma {:induction false} AllRounds(n: nat, tries: nat)
    requires 0 < n <= MAX_SLOTS
    ensures (n * tries) / n == tries && (n * tries) % n == 0
  {
    assert n == 1 || n == 2 || n == 3 || n == 4;
  }

  /** Once a selection finds nothing and changes nothing, so do all later ones. */
  lemma {:induction false} Spent(crc: Crc, c: Control, end: nat, k: nat)
    requires WellFormed(c) && k >= end
    requires Select(crc, After(crc, c, end)) == (After(crc, c, end), NoSlot)
    ensures Answer(crc, c, k) == NoSlot && After(crc, c, k) == After(crc, c, end)
    decreases k
  {
    hide Select;
    if k > end { Spent(crc, c, end, k - 1); }
  }

  lemma {:induction false} TurnFits(b: Body, n: nat, priority: nat, tries: nat, r: nat, j: nat)
    requires InTurn(b, n, priority, tries, r, j)
    ensures b.nbSlot == n <= |b.slots| && j < n && r <= tries
  {
  }

  lemma {:induction false} NoTurnLeft(crc: Crc, c: Control, n: nat, priority: nat, tries: nat)
    requires Sound(crc, c) && InTurn(c.body, n, priority, tries, tries, 0)
    ensures Select(crc, c) == (c, NoSlot)
  {
    assert NoneBootable(c.body.slots, n);
  }

  /** A block whose CRC does not match: slots a and b alternate for fourteen boots, then none. */
  lemma {:induction false} DefaultAlternates(crc: Crc, c: Control, k: nat)
    requires WellFormed(c) && c.crc != crc(c.body)
    ensures Answer(crc, c, k) == if k < 14 then Boot(k % 2) else NoSlot
  {
    hide Answer, After, InTurn, DefaultBody, Sound;
    var d := Control(DefaultBody(c.body), crc(DefaultBody(c.body)));
    SameRun(crc, c, k);
    FreshTurn(crc, c);
    RoundRobin(crc, d, 2, 15, 7, k);
  }

  lemma {:induction false} FreshTurn(crc: Crc, c: Control)
    requires WellFormed(c)
    ensures var d := Control(DefaultBody(c.body), crc(DefaultBody(c.body)));
            Sound(crc, d) && InTurn(d.body, 2, 15, 7, 0, 0)
  {
  }

  lemma {:induction false} SameRun(crc: Crc, c: Control, k: nat)
    requires WellFormed(c) && c.crc != crc(c.body)
    ensures var d := Control(DefaultBody(c.body), crc(DefaultBody(c.body)));
            && Answer(crc, c, k) == Answer(crc, d, k)
            && (k > 0 ==> After(crc, c, k) == After(crc, d, k))
  {
    hide Select, DefaultBody;
    LoadedSame(crc, c);
    if k > 0 { SameRun(crc, c, k - 1); }
  }
}
