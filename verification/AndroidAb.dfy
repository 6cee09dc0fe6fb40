/** Android A/B slot selection: one selection, and what holds over many boots.
  *
  * The control block lives on a disk whose reads and writes succeed; its CRC is any function of
  * the other fields.
  */
module AndroidAb {
  import opened Results

  const BOOT_CTRL_MAGIC := 0x42414342
  const BOOT_CTRL_VERSION := 1
  const NUM_SLOTS := 2
  const MAX_SLOTS := 4

  datatype Slot = Slot(priority: nat, tries: nat, successful: bool, corrupted: bool, reserved: nat)

  /** Everything in the control block that its CRC covers. */
  datatype Body = Body(suffix: seq<char>, magic: nat, version: nat, nbSlot: nat, recoveryTries: nat,
                       reserved0: seq<nat>, slots: seq<Slot>, reserved1: seq<nat>)

  datatype Control = Control(body: Body, crc: nat)

  type Crc = Body -> nat

  datatype Choice = Boot(slot: nat) | NoSlot | NoData

  predicate WellFormed(c: Control) {
    |c.body.slots| == MAX_SLOTS
  }

  // ---------------------------------------------------------------- comparing slots

  function Compare(a: Slot, b: Slot): int {
    if a.priority != b.priority then b.priority - a.priority
    else if a.successful != b.successful then (if b.successful then 1 else 0) - (if a.successful then 1 else 0)
    else if a.tries != b.tries then b.tries - a.tries
    else 0
  }

  /** What makes a slot better: higher priority, then a successful boot, then more tries left. */
  predicate Better(a: Slot, b: Slot) {
    || a.priority > b.priority
    || (a.priority == b.priority && a.successful && !b.successful)
    || (a.priority == b.priority && a.successful == b.successful && a.tries > b.tries)
  }

  /** A negative result means the first slot is better, a positive one the second. */
  lemma {:induction false} CompareMeans(a: Slot, b: Slot)
    ensures Compare(a, b) < 0 <==> Better(a, b)
    ensures Compare(a, b) > 0 <==> Better(b, a)
  {
  }

  predicate Bootable(s: Slot) {
    !s.corrupted && s.tries > 0
  }

  /** `i` is bootable, no bootable slot among the first `n` beats it, and it beats earlier ones. */
  predicate IsBest(slots: seq<Slot>, n: nat, i: nat)
    requires n <= |slots|
  {
    && i < n && Bootable(slots[i])
    && forall j :: 0 <= j < n && Bootable(slots[j]) ==>
         !Better(slots[j], slots[i]) && (j < i ==> Better(slots[i], slots[j]))
  }

  predicate NoneBootable(slots: seq<Slot>, n: nat)
    requires n <= |slots|
  {
    forall j :: 0 <= j < n ==> !Bootable(slots[j])
  }

  function Best(slots: seq<Slot>, n: nat): (r: Option<nat>)
    requires n <= |slots|
    ensures r.Some? ==> IsBest(slots, n, r.value)
    ensures r.None? ==> NoneBootable(slots, n)
  {
    if n == 0 then None
    else
      var best := Best(slots, n - 1);
      if !Bootable(slots[n - 1]) then best
      else if best.None? || Compare(slots[n - 1], slots[best.value]) < 0 then Some(n - 1)
      else best
  }

  lemma {:induction false} BestIsUnique(slots: seq<Slot>, n: nat, i: nat)
    requires n <= |slots| && IsBest(slots, n, i)
    ensures Best(slots, n) == Some(i)
  {
    assert Bootable(slots[i]);
    var b := Best(slots, n).value;
    assert !Better(slots[b], slots[i]) && !Better(slots[i], slots[b]);
  }

  /** What a comment calls bootable: a slot that has booted needs no tries left. */
  predicate SaidBootable(s: Slot) {
    !s.corrupted && (s.tries > 0 || s.successful)
  }

  predicate IsSaidBest(slots: seq<Slot>, n: nat, i: nat)
    requires n <= |slots|
  {
    && i < n && SaidBootable(slots[i])
    && forall j :: 0 <= j < n && SaidBootable(slots[j]) ==>
         !Better(slots[j], slots[i]) && (j < i ==> Better(slots[i], slots[j]))
  }

  /** The best slot by the comment's rule. */
  function SaidBest(slots: seq<Slot>, n: nat): (r: Option<nat>)
    requires n <= |slots|
    ensures r.Some? ==> IsSaidBest(slots, n, r.value)
    ensures r.None? ==> forall j :: 0 <= j < n ==> !SaidBootable(slots[j])
  {
    if n == 0 then None
    else
      var best := SaidBest(slots, n - 1);
      if !SaidBootable(slots[n - 1]) then best
      else if best.None? || Better(slots[n - 1], slots[best.value]) then Some(n - 1)
      else best
  }

  /** The code follows the comment if and only if the slot the comment asks for has tries left. */
  lemma {:induction false} SaidRuleIff(slots: seq<Slot>, n: nat)
    requires n <= |slots|
    ensures Best(slots, n) == SaidBest(slots, n)
            <==> SaidBest(slots, n).None? || slots[SaidBest(slots, n).value].tries > 0
    ensures Best(slots, n) != SaidBest(slots, n) ==> slots[SaidBest(slots, n).value].successful
  {
    var said := SaidBest(slots, n);
    if said.None? {
      assert forall j :: 0 <= j < n ==> !SaidBootable(slots[j]) && !Bootable(slots[j]);
    } else if slots[said.value].tries > 0 {
      assert IsBest(slots, n, said.value);
      BestIsUnique(slots, n, said.value);
    }
  }

  /** A slot that has booted but has no tries left is not selected. */
  lemma {:induction false} BootedSlotRefused(s: Slot)
    requires s == Slot(15, 0, true, false, 0)
    ensures SaidBest([s], 1) == Some(0) && Best([s], 1) == None
  {
  }

  // ---------------------------------------------------------------- one selection

  function Suffix(slot: nat): seq<char>
    requires slot < MAX_SLOTS
  {
    [('a' as int + slot) as char, '\0', '\0', '\0']
  }

  const FRESH_SLOT := Slot(15, 7, false, false, 0)

  /** The first slots of a fresh block; the others keep what they hold. */
  function DefaultBody(b: Body): (r: Body)
    requires |b.slots| == MAX_SLOTS
    ensures |r.slots| == MAX_SLOTS
  {
    b.(suffix := ['a', '\0', '\0', '\0'], magic := BOOT_CTRL_MAGIC, version := BOOT_CTRL_VERSION,
       nbSlot := NUM_SLOTS, reserved0 := [0, 0],
       slots := b.slots[0 := FRESH_SLOT][1 := FRESH_SLOT],
       reserved1 := [0, 0, 0, 0, 0, 0, 0, 0])
  }

  /** The block after loading: replaced by the default when its CRC does not match. */
  function Loaded(crc: Crc, c: Control): (r: Body)
    requires WellFormed(c)
    ensures |r.slots| == MAX_SLOTS
  {
    if c.crc == crc(c.body) then c.body else DefaultBody(c.body)
  }

  predicate Readable(b: Body) {
    b.magic == BOOT_CTRL_MAGIC && b.version <= BOOT_CTRL_VERSION
  }

  /** The block with at most four slots. */
  function Clipped(b: Body): Body {
    if b.nbSlot > MAX_SLOTS then b.(nbSlot := MAX_SLOTS) else b
  }

  function Spend(s: Slot): Slot {
    if s.successful || s.tries == 0 then s else s.(tries := s.tries - 1)
  }

  function Chosen(b: Body, slot: nat): Body
    requires slot < |b.slots| == MAX_SLOTS
  {
    b.(slots := b.slots[slot := Spend(b.slots[slot])], suffix := Suffix(slot))
  }

  /** One selection: the block afterwards and the answer. */
  function Select(crc: Crc, c: Control): (r: (Control, Choice))
    requires WellFormed(c)
    ensures WellFormed(r.0)
  {
    var b := Loaded(crc, c);
    if !Readable(b) then (c, NoData)
    else
      var b1 := Clipped(b);
      match Best(b1.slots, b1.nbSlot)
      case None => (Control(b1, crc(b1)), NoSlot)
      case Some(i) =>
        var b2 := Chosen(b1, i);
        (Control(b2, crc(b2)), Boot(i))
  }

  class Disk {
    var block: Control
    /** How often the block was written. */
    ghost var writes: nat

    constructor (c: Control)
      ensures block == c && writes == 0
    {
      block := c;
      writes := 0;
    }

    /** Fills in a fresh block. */
    static method DefaultControl(crc: Crc, c: Control) returns (r: Control)
      requires WellFormed(c)
      ensures r == Control(DefaultBody(c.body), crc(DefaultBody(c.body)))
    {
      var body := c.body.(suffix := ['a', '\0', '\0', '\0'], magic := BOOT_CTRL_MAGIC,
                          version := BOOT_CTRL_VERSION, nbSlot := NUM_SLOTS, reserved0 := [0, 0]);
      var slots := c.body.slots;
      for i := 0 to NUM_SLOTS
        invariant |slots| == MAX_SLOTS
        invariant forall j :: 0 <= j < MAX_SLOTS ==> slots[j] == if j < i then FRESH_SLOT else c.body.slots[j]
      {
        slots := slots[i := FRESH_SLOT];
      }
      body := body.(slots := slots, reserved1 := [0, 0, 0, 0, 0, 0, 0, 0]);
      assert slots == c.body.slots[0 := FRESH_SLOT][1 := FRESH_SLOT];
      return Control(body, crc(body));
    }

    /** Selects a slot and writes the block back only when something changed. */
    method SelectSlot(crc: Crc) returns (r: Choice)
      requires WellFormed(block)
      modifies this
      ensures (block, r) == Select(crc, old(block))
      ensures writes == old(writes) + if block == old(block) then 0 else 1
    {
      var abc := block;
      var storeNeeded := false;
      if abc.crc != crc(abc.body) {
        abc := DefaultControl(crc, abc);
        storeNeeded := true;
      }
      if abc.body.magic != BOOT_CTRL_MAGIC {
        return NoData;
      }
      if abc.body.version > BOOT_CTRL_VERSION {
        return NoData;
      }
      if abc.body.nbSlot > MAX_SLOTS {
        abc := abc.(body := abc.body.(nbSlot := MAX_SLOTS));
        storeNeeded := true;
      }
      ghost var b1 := abc.body;
      assert b1 == Clipped(Loaded(crc, old(block)));
      assert !storeNeeded ==> abc == block;
      var slot := -1;
      for i := 0 to abc.body.nbSlot
        invariant slot == (match Best(abc.body.slots, i) case None => -1 case Some(b) => b)
      {
        if !abc.body.slots[i].corrupted && abc.body.slots[i].tries != 0 {
          if slot < 0 || Compare(abc.body.slots[i], abc.body.slots[slot]) < 0 {
            slot := i;
          }
        }
      }
      if slot >= 0 {
        assert abc.body.slots[slot := abc.body.slots[slot]] == abc.body.slots;
      }
      if slot >= 0 && !abc.body.slots[slot].successful {
        var s := abc.body.slots[slot];
        abc := abc.(body := abc.body.(slots := abc.body.slots[slot := s.(tries := s.tries - 1)]));
        storeNeeded := true;
      }
      if slot >= 0 {
        var suffix := Suffix(slot);
        if abc.body.suffix != suffix {
          abc := abc.(body := abc.body.(suffix := suffix));
          storeNeeded := true;
        }
        assert abc.body == Chosen(b1, slot);
      }
      if storeNeeded {
        abc := abc.(crc := crc(abc.body));
        block := abc;
        writes := writes + 1;
      }
      return if slot < 0 then NoSlot else Boot(slot);
    }
  }
}
