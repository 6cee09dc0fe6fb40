/** What one bootdev is offered: a walk along the product of its partitions and the bootmeths,
  * broken off by what the checks report.  With that, when a product is offered in full, and what
  * a report left over from an earlier bootdev does. */
module BootflowOffers {
  import opened Results
  import opened BootflowModel
  import opened BootflowOrder
  import opened BootflowLoops
  import opened BootflowIter

  // ---------------------------------------------------------------- walking a list of offers

  /** What was offered, the number of the next check, and the recorded error. */
  datatype Visit = Visit(spots: seq<Spot>, t: nat, rec: Code)

  predicate QuietCode(rec: Code) {
    rec != NoMoreParts && rec != NoMoreDevices
  }

  /** Offers in turn, up to the first one after which no more partitions or devices are expected. */
  ghost function Walk(env: Env, offers: seq<Spot>, rec: Code, t: nat): Visit {
    if offers == [] then Visit([], t, rec)
    else
      var rec' := Record(rec, env(t, Some(offers[0].part)));
      if !QuietCode(rec') then Visit([offers[0]], t + 1, rec')
      else
        var v := Walk(env, offers[1..], rec', t + 1);
        v.(spots := [offers[0]] + v.spots)
  }

  /** The error recorded after `k` of the offers. */
  ghost function RecordedAfter(env: Env, offers: seq<Spot>, rec: Code, t: nat, k: nat): Code
    requires k <= |offers|
    decreases k
  {
    if k == 0 then rec
    else RecordedAfter(env, offers[1..], Record(rec, env(t, Some(offers[0].part))), t + 1, k - 1)
  }

  /** No more partitions or devices is never the recorded error between two of the offers. */
  ghost predicate NeverCut(env: Env, offers: seq<Spot>, rec: Code, t: nat) {
    forall k :: 0 < k < |offers| ==> QuietCode(RecordedAfter(env, offers, rec, t, k))
  }

  lemma {:induction false} NeverCutCons(env: Env, offers: seq<Spot>, rec: Code, t: nat)
    requires |offers| > 1
    ensures var rec' := Record(rec, env(t, Some(offers[0].part)));
            NeverCut(env, offers, rec, t) <==> QuietCode(rec') && NeverCut(env, offers[1..], rec', t + 1)
  {
    var rec' := Record(rec, env(t, Some(offers[0].part)));
    assert RecordedAfter(env, offers, rec, t, 1) == rec';
    assert forall k :: 0 < k < |offers| ==>
        RecordedAfter(env, offers, rec, t, k) == RecordedAfter(env, offers[1..], rec', t + 1, k - 1);
    if NeverCut(env, offers, rec, t) {
      var tail, next := offers[1..], t + 1;
      forall k | 0 < k < |tail| ensures QuietCode(RecordedAfter(env, tail, rec', next, k)) {
        assert QuietCode(RecordedAfter(env, offers, rec, t, k + 1));
      }
    }
    if QuietCode(rec') && NeverCut(env, offers[1..], rec', t + 1) {
      forall k | 0 < k < |offers| ensures QuietCode(RecordedAfter(env, offers, rec, t, k)) {
        assert k > 1 ==> QuietCode(RecordedAfter(env, offers[1..], rec', t + 1, k - 1));
      }
    }
  }

  /** A walk covers its list if and only if it is never cut. */
  lemma {:induction false} WalkExact(env: Env, offers: seq<Spot>, rec: Code, t: nat)
    ensures var v := Walk(env, offers, rec, t);
            && v.spots <= offers && v.t == t + |v.spots|
            && v.rec == RecordedAfter(env, offers, rec, t, |v.spots|)
            && (v.spots == offers <==> NeverCut(env, offers, rec, t))
            && (v.spots != offers ==> !QuietCode(v.rec))
            && (offers != [] ==> v.spots != [])
  {
    if offers != [] {
      var rec' := Record(rec, env(t, Some(offers[0].part)));
      WalkExact(env, offers[1..], rec', t + 1);
      if |offers| > 1 { NeverCutCons(env, offers, rec, t); }
      assert RecordedAfter(env, offers[1..], rec', t + 1, 0) == rec';
    }
  }

  lemma {:induction false} WalkConcat(env: Env, a: seq<Spot>, b: seq<Spot>, rec: Code, t: nat)
    ensures var v := Walk(env, a, rec, t);
            Walk(env, a + b, rec, t)
            == if v.spots == a && (a == [] || QuietCode(v.rec))
               then var rest := Walk(env, b, v.rec, v.t); rest.(spots := a + rest.spots)
               else v
  {
    hide Walk;
    if a == [] {
      assert a + b == b;
      WalkNothing(env, rec, t);
      var rest := Walk(env, b, rec, t);
      assert [] + rest.spots == rest.spots;
    } else {
      var x, tail := a[0], a[1..];
      var rec' := Record(rec, env(t, Some(x.part)));
      assert a == [x] + tail && a + b == [x] + (tail + b);
      WalkCons(env, x, tail, rec, t);
      WalkCons(env, x, tail + b, rec, t);
      if QuietCode(rec') {
        WalkConcat(env, tail, b, rec', t + 1);
        var v := Walk(env, tail, rec', t + 1);
        assert ([x] + v.spots)[1..] == v.spots;
        var rest := Walk(env, b, v.rec, v.t);
        assert [x] + (tail + rest.spots) == a + rest.spots;
        if tail == [] { WalkNothing(env, rec', t + 1); }
      }
    }
  }

  lemma {:induction false} WalkCons(env: Env, x: Spot, tail: seq<Spot>, rec: Code, t: nat)
    ensures var rec' := Record(rec, env(t, Some(x.part)));
            Walk(env, [x] + tail, rec, t)
            == if !QuietCode(rec') then Visit([x], t + 1, rec')
               else var v := Walk(env, tail, rec', t + 1); v.(spots := [x] + v.spots)
  {
    assert ([x] + tail)[1..] == tail;
  }

  lemma {:induction false} WalkNothing(env: Env, rec: Code, t: nat)
    ensures Walk(env, [], rec, t) == Visit([], t, rec)
  {
  }

  // ---------------------------------------------------------------- one bootdev

  /** All bootmeths on one partition. */
  function Row(plain: seq<Bootmeth>, d: nat, part: nat, i: nat): seq<Spot>
    requires i <= |plain|
    decreases |plain| - i
  {
    if i == |plain| then [] else [Spot(Some(d), part, plain[i])] + Row(plain, d, part, i + 1)
  }

  /** Partition by partition, all bootmeths on each. */
  function Product(plain: seq<Bootmeth>, d: nat, part: nat, parts: nat): seq<Spot>
    requires part <= parts
    decreases parts - part
  {
    if part == parts then [] else Row(plain, d, part, 0) + Product(plain, d, part + 1, parts)
  }

  /** One of `n` checks on this partition sees a partition table. */
  ghost predicate Table(env: Env, part: nat, t: nat, n: nat) {
    exists k: nat :: t <= k < t + n && env(k, Some(part)).table
  }

  lemma {:induction false} TableCons(env: Env, part: nat, t: nat, n: nat)
    ensures Table(env, part, t, n) <==> n > 0 && (env(t, Some(part)).table || Table(env, part, t + 1, n - 1))
  {
  }

  lemma {:induction false} MethodsWalk(env: Env, plain: seq<Bootmeth>, d: nat, part: nat, i: nat,
      maxPart: nat, rec: Code, t: nat)
    requires i <= |plain|
    ensures var l := Methods(env, plain, d, part, i, maxPart, rec, t);
            var v := Walk(env, Row(plain, d, part, i), rec, t);
            && l.spots == v.spots && l.t == v.t && l.rec == v.rec
            && l.exit == (if i == |plain| || QuietCode(v.rec) then Through
                          else if v.rec == NoMoreDevices then Stop else LeaveDevice)
            && (l.exit == Through ==>
                  && v.spots == Row(plain, d, part, i)
                  && l.maxPart == if Table(env, part, t, |plain| - i) then MAX_PART_PER_BOOTDEV else maxPart)
    decreases |plain| - i
  {
    hide Table, Walk;
    TableCons(env, part, t, |plain| - i);
    if i == |plain| {
      WalkNothing(env, rec, t);
    } else {
      WalkCons(env, Spot(Some(d), part, plain[i]), Row(plain, d, part, i + 1), rec, t);
      var o := env(t, Some(part));
      MethodsWalk(env, plain, d, part, i + 1, Reveal(maxPart, o), Record(rec, o), t + 1);
      if i + 1 == |plain| { WalkNothing(env, Record(rec, o), t + 1); }
    }
  }

  /** The partitions a bootdev has: those assumed once a table was seen on the whole device. */
  ghost function Parts(env: Env, n: nat, t: nat): nat {
    if Table(env, 0, t, n) then MAX_PART_PER_BOOTDEV + 1 else 1
  }

  lemma {:induction false} PartitionsWalk(env: Env, plain: seq<Bootmeth>, d: nat, part: nat,
      maxPart: nat, rec: Code, t: nat)
    requires plain != [] && part <= maxPart
    requires maxPart == MAX_PART_PER_BOOTDEV || part == maxPart == 0
    ensures var l := Partitions(env, plain, d, part, maxPart, rec, t);
            var parts := if maxPart == 0 then Parts(env, |plain|, t) else MAX_PART_PER_BOOTDEV + 1;
            var v := Walk(env, Product(plain, d, part, parts), rec, t);
            && l.spots == v.spots && l.t == v.t && l.rec == v.rec
            && l.exit == if v.rec == NoMoreDevices then Stop else LeaveDevice
    decreases MAX_PART_PER_BOOTDEV - part
  {
    hide Methods, Row, Walk, Table;
    var parts := if maxPart == 0 then Parts(env, |plain|, t) else MAX_PART_PER_BOOTDEV + 1;
    var l := Methods(env, plain, d, part, 0, maxPart, rec, t);
    var row, more := Row(plain, d, part, 0), Product(plain, d, part + 1, parts);
    MethodsWalk(env, plain, d, part, 0, maxPart, rec, t);
    WalkConcat(env, row, more, rec, t);
    RowLength(plain, d, part, 0);
    if l.exit == Through {
      if part + 1 <= l.maxPart {
        PartitionsWalk(env, plain, d, part + 1, l.maxPart, l.rec, l.t);
      } else {
        WalkNothing(env, l.rec, l.t);
        assert row + [] == row;
      }
    }
  }

  lemma {:induction false} RowLength(plain: seq<Bootmeth>, d: nat, part: nat, i: nat)
    requires i <= |plain|
    ensures |Row(plain, d, part, i)| == |plain| - i
    ensures i < |plain| ==> Row(plain, d, part, i)[0] == Spot(Some(d), part, plain[i])
    decreases |plain| - i
  {
    if i < |plain| { RowLength(plain, d, part, i + 1); }
  }

  /** The full product of the bootdev whose first check has number `t`. */
  ghost function Offers(env: Env, plain: seq<Bootmeth>, d: nat, t: nat): seq<Spot> {
    Product(plain, d, 0, Parts(env, |plain|, t))
  }

  /** A bootdev is offered its full product if and only if no more partitions or devices is never
    * the recorded error between two of those offers. */
  lemma {:induction false} FullProductIff(env: Env, plain: seq<Bootmeth>, d: nat, rec: Code, t: nat)
    requires plain != []
    ensures Partitions(env, plain, d, 0, 0, rec, t).spots <= Offers(env, plain, d, t)
    ensures Partitions(env, plain, d, 0, 0, rec, t).spots == Offers(env, plain, d, t)
            <==> NeverCut(env, Offers(env, plain, d, t), rec, t)
  {
    hide Partitions, Product, Walk, NeverCut;
    PartitionsWalk(env, plain, d, 0, 0, rec, t);
    WalkExact(env, Offers(env, plain, d, t), rec, t);
  }

  // ---------------------------------------------------------------- bootdevs with partitions

  /** The check on the last partition finds that it is one too many. */
  ghost predicate Capped(env: Env) {
    forall t: nat :: env(t, Some(30)).code == NoMoreParts
  }

  lemma {:induction false} ProductSplits(plain: seq<Bootmeth>, d: nat, part: nat, mid: nat)
    requires part <= mid
    ensures Product(plain, d, part, mid + 1) == Product(plain, d, part, mid) + Row(plain, d, mid, 0)
    decreases mid - part
  {
    hide Row;
    var row := Row(plain, d, part, 0);
    if part == mid {
      assert Product(plain, d, mid + 1, mid + 1) == [];
      assert row + [] == [] + row;
    } else {
      ProductSplits(plain, d, part + 1, mid);
      var rest := Product(plain, d, part + 1, mid);
      assert row + (rest + Row(plain, d, mid, 0)) == (row + rest) + Row(plain, d, mid, 0);
    }
  }

  /** What a bootdev with a partition table can be offered at most. */
  function DiskOffers(plain: seq<Bootmeth>, d: nat): seq<Spot>
    requires plain != []
  {
    Product(plain, d, 0, 30) + [Spot(Some(d), 30, plain[0])]
  }

  lemma {:induction false} WalkOne(env: Env, offers: seq<Spot>, rec: Code, t: nat)
    requires offers != [] && env(t, Some(offers[0].part)).code == NoMoreParts
    ensures Walk(env, offers, rec, t) == Visit([offers[0]], t + 1, NoMoreParts)
  {
  }

  /** A walk along a disk's product ends at the first check on the last partition. */
  lemma {:induction false} DiskWalk(env: Env, plain: seq<Bootmeth>, d: nat, rec: Code, t: nat)
    requires plain != [] && Capped(env)
    ensures Walk(env, Product(plain, d, 0, MAX_PART_PER_BOOTDEV + 1), rec, t)
            == Walk(env, DiskOffers(plain, d), rec, t)
  {
    hide Walk, Product, Row;
    var below := Product(plain, d, 0, MAX_PART_PER_BOOTDEV);
    var last, spot := Row(plain, d, MAX_PART_PER_BOOTDEV, 0), Spot(Some(d), MAX_PART_PER_BOOTDEV, plain[0]);
    var v := Walk(env, below, rec, t);
    ProductSplits(plain, d, 0, MAX_PART_PER_BOOTDEV);
    RowLength(plain, d, MAX_PART_PER_BOOTDEV, 0);
    WalkConcat(env, below, last, rec, t);
    WalkConcat(env, below, [spot], rec, t);
    WalkOne(env, last, v.rec, v.t);
    WalkOne(env, [spot], v.rec, v.t);
  }

  /** A bootdev with a partition table is offered all partitions below the last with every bootmeth,
    * and the last with the first bootmeth only, if and only if nothing cuts it short before; no
    * more partitions then stays recorded. */
  lemma {:induction false} DiskIff(env: Env, plain: seq<Bootmeth>, d: nat, rec: Code, t: nat)
    requires plain != [] && Capped(env) && Table(env, 0, t, |plain|)
    ensures var l := Partitions(env, plain, d, 0, 0, rec, t);
            && l.spots <= DiskOffers(plain, d)
            && (l.spots == DiskOffers(plain, d) <==> NeverCut(env, DiskOffers(plain, d), rec, t))
            && (l.spots == DiskOffers(plain, d) ==>
                  l.rec == NoMoreParts && l.exit == LeaveDevice && l.t == t + |DiskOffers(plain, d)|)
  {
    hide Partitions, Product, Walk, NeverCut;
    var offers := DiskOffers(plain, d);
    PartitionsWalk(env, plain, d, 0, 0, rec, t);
    DiskWalk(env, plain, d, rec, t);
    WalkExact(env, offers, rec, t);
    if Walk(env, offers, rec, t).spots == offers {
      LastRecorded(env, offers, rec, t);
    }
  }

  lemma {:induction false} LastRecorded(env: Env, offers: seq<Spot>, rec: Code, t: nat)
    requires offers != [] && Capped(env) && offers[|offers| - 1].part == MAX_PART_PER_BOOTDEV
    ensures RecordedAfter(env, offers, rec, t, |offers|) == NoMoreParts
    decreases |offers|
  {
    var rec' := Record(rec, env(t, Some(offers[0].part)));
    if |offers| > 1 {
      LastRecorded(env, offers[1..], rec', t + 1);
    } else {
      assert RecordedAfter(env, offers[1..], rec', t + 1, 0) == rec';
    }
  }

  // ---------------------------------------------------------------- all bootdevs

  /** The bootdevs' walks one after the other. */
  ghost function Tour(env: Env, plain: seq<Bootmeth>, ds: seq<nat>, rec: Code, t: nat): seq<Spot> {
    if ds == [] then []
    else
      var v := Walk(env, Offers(env, plain, ds[0], t), rec, t);
      v.spots + if v.rec == NoMoreDevices then [] else Tour(env, plain, ds[1..], v.rec, v.t)
  }

  lemma {:induction false} DevicesWalk(env: Env, plain: seq<Bootmeth>, ds: seq<nat>, rec: Code, t: nat)
    requires plain != []
    ensures Devices(env, plain, ds, rec, t) == Tour(env, plain, ds, rec, t)
  {
    hide Partitions, Product, Walk, Parts;
    if ds != [] {
      PartitionsWalk(env, plain, ds[0], 0, 0, rec, t);
      var l := Partitions(env, plain, ds[0], 0, 0, rec, t);
      DevicesWalk(env, plain, ds[1..], l.rec, l.t);
    }
  }

  /** Checks `t` up to `end` find nothing and, below the last partition, end no bootdev. */
  ghost predicate Fruitless(env: Env, t: nat, end: nat) {
    forall k: nat, p: nat :: t <= k < end && p < MAX_PART_PER_BOOTDEV ==>
      env(k, Some(p)).code in {NotSupported, Failed}
  }

  /** All that bootdevs can be offered. */
  ghost function Everything(env: Env, plain: seq<Bootmeth>, ds: seq<nat>, t: nat): seq<Spot>
    requires plain != []
  {
    if ds == [] then []
    else
      var here := if Table(env, 0, t, |plain|) then DiskOffers(plain, ds[0]) else Product(plain, ds[0], 0, 1);
      here + Everything(env, plain, ds[1..], t + |here|)
  }

  /** Spots below the last partition, and maybe one more. */
  predicate Below(offers: seq<Spot>) {
    forall i :: 0 <= i < |offers| - 1 ==> offers[i].part < MAX_PART_PER_BOOTDEV
  }

  lemma {:induction false} FruitlessNeverCut(env: Env, offers: seq<Spot>, rec: Code, t: nat)
    requires Fruitless(env, t, t + |offers|) && Below(offers)
    ensures NeverCut(env, offers, rec, t)
    decreases |offers|
  {
    if |offers| > 1 {
      var rec' := Record(rec, env(t, Some(offers[0].part)));
      assert offers[0].part < MAX_PART_PER_BOOTDEV;
      assert forall i :: 0 <= i < |offers[1..]| ==> offers[1..][i] == offers[i + 1];
      FruitlessNeverCut(env, offers[1..], rec', t + 1);
      NeverCutCons(env, offers, rec, t);
    }
  }

  lemma {:induction false} RowAt(plain: seq<Bootmeth>, d: nat, part: nat, i: nat)
    requires i <= |plain|
    ensures forall k :: 0 <= k < |Row(plain, d, part, i)| ==> Row(plain, d, part, i)[k].part == part
    decreases |plain| - i
  {
    if i < |plain| { RowAt(plain, d, part, i + 1); }
  }

  lemma {:induction false} ProductBelow(plain: seq<Bootmeth>, d: nat, part: nat, parts: nat)
    requires part <= parts
    ensures forall k :: 0 <= k < |Product(plain, d, part, parts)| ==> Product(plain, d, part, parts)[k].part < parts
    decreases parts - part
  {
    hide Row;
    if part < parts {
      RowAt(plain, d, part, 0);
      ProductBelow(plain, d, part + 1, parts);
    }
  }

  /** A scan that finds nothing offers everything, bootdev by bootdev, whatever was recorded before. */
  lemma {:induction false} FruitlessScan(env: Env, plain: seq<Bootmeth>, ds: seq<nat>, rec: Code, t: nat)
    requires plain != [] && Capped(env) && forall end: nat :: Fruitless(env, t, end)
    ensures Devices(env, plain, ds, rec, t) == Everything(env, plain, ds, t)
  {
    hide Partitions, Product, NeverCut, Capped, Walk, Table;
    if ds != [] {
      var d := ds[0];
      assert Fruitless(env, t, t + |DiskOffers(plain, d)|);
      var l := Partitions(env, plain, d, 0, 0, rec, t);
      FruitlessVisit(env, plain, d, rec, t);
      forall end: nat ensures Fruitless(env, l.t, end) {
        assert Fruitless(env, t, end);
      }
      FruitlessScan(env, plain, ds[1..], l.rec, l.t);
    }
  }

  lemma {:induction false} FruitlessVisit(env: Env, plain: seq<Bootmeth>, d: nat, rec: Code, t: nat)
    requires plain != [] && Capped(env) && Fruitless(env, t, t + |DiskOffers(plain, d)|)
    ensures var l := Partitions(env, plain, d, 0, 0, rec, t);
            && l.spots == (if Table(env, 0, t, |plain|) then DiskOffers(plain, d) else Product(plain, d, 0, 1))
            && l.t == t + |l.spots| && l.exit == LeaveDevice
            && (Table(env, 0, t, |plain|) ==> l.rec == NoMoreParts)
  {
    hide Partitions, Product, NeverCut, Walk, Table;
    ProductBelow(plain, d, 0, MAX_PART_PER_BOOTDEV);
    ProductBelow(plain, d, 0, 1);
    ProductGrows(plain, d);
    if Table(env, 0, t, |plain|) {
      FruitlessNeverCut(env, DiskOffers(plain, d), rec, t);
      DiskIff(env, plain, d, rec, t);
    } else {
      var offers := Product(plain, d, 0, 1);
      FruitlessNeverCut(env, offers, rec, t);
      PartitionsWalk(env, plain, d, 0, 0, rec, t);
      WalkExact(env, offers, rec, t);
      FruitlessRecorded(env, offers, rec, t);
    }
  }

  lemma {:induction false} ProductGrows(plain: seq<Bootmeth>, d: nat)
    ensures |Product(plain, d, 0, 1)| == |plain| <= |Product(plain, d, 0, MAX_PART_PER_BOOTDEV)|
    ensures plain != [] ==> |Product(plain, d, 0, MAX_PART_PER_BOOTDEV + 1)| > |plain|
  {
    hide Row;
    RowLength(plain, d, 0, 0);
    RowLength(plain, d, 1, 0);
    assert Product(plain, d, 1, 1) == [];
  }

  lemma {:induction false} FruitlessRecorded(env: Env, offers: seq<Spot>, rec: Code, t: nat)
    requires Fruitless(env, t, t + |offers|) && forall i :: 0 <= i < |offers| ==> offers[i].part < MAX_PART_PER_BOOTDEV
    ensures offers != [] ==> QuietCode(RecordedAfter(env, offers, rec, t, |offers|))
    decreases |offers|
  {
    if offers != [] {
      var rec' := Record(rec, env(t, Some(offers[0].part)));
      FruitlessRecorded(env, offers[1..], rec', t + 1);
      assert RecordedAfter(env, offers[1..], rec', t + 1, 0) == rec';
    }
  }

  // ---------------------------------------------------------------- an error that is left over

  lemma {:induction false} WalkQuietAlike(env: Env, offers: seq<Spot>, rec: Code, rec2: Code, t: nat)
    requires QuietCode(rec) && QuietCode(rec2)
    ensures Walk(env, offers, rec, t).spots == Walk(env, offers, rec2, t).spots
    decreases |offers|
  {
    if offers != [] {
      var o := env(t, Some(offers[0].part));
      if QuietCode(o.code) { WalkQuietAlike(env, offers[1..], Record(rec, o), Record(rec2, o), t + 1); }
    }
  }

  lemma {:induction false} WalkStale(env: Env, offers: seq<Spot>, rec: Code, t: nat)
    requires offers != [] && rec != NoMoreDevices
    ensures Walk(env, offers, rec, t).spots == Walk(env, offers, Done, t).spots
            <==> !(rec == NoMoreParts && env(t, Some(offers[0].part)).code == Done && |offers| > 1)
  {
    if rec != NoMoreParts {
      WalkQuietAlike(env, offers, rec, Done, t);
    } else if env(t, Some(offers[0].part)).code == Done {
      WalkExact(env, offers[1..], Done, t + 1);
    }
  }

  /** A success does not clear a recorded error.  What an earlier bootdev left recorded changes what
    * this one is offered if and only if it is no more partitions, the first check here succeeds,
    * and there is a second offer to lose. */
  lemma {:induction false} StaleErrorIff(env: Env, plain: seq<Bootmeth>, d: nat, rec: Code, t: nat)
    requires plain != [] && rec != NoMoreDevices
    ensures Partitions(env, plain, d, 0, 0, rec, t).spots == Partitions(env, plain, d, 0, 0, Done, t).spots
            <==> !(rec == NoMoreParts && env(t, Some(0)).code == Done
                   && (|plain| > 1 || env(t, Some(0)).table))
  {
    hide Partitions, Product, Walk;
    var offers := Offers(env, plain, d, t);
    PartitionsWalk(env, plain, d, 0, 0, rec, t);
    PartitionsWalk(env, plain, d, 0, 0, Done, t);
    ProductGrows(plain, d);
    ProductStarts(plain, d, Parts(env, |plain|, t));
    assert |plain| == 1 ==> (Table(env, 0, t, 1) <==> env(t, Some(0)).table);
    WalkStale(env, offers, rec, t);
  }

  lemma {:induction false} ProductStarts(plain: seq<Bootmeth>, d: nat, parts: nat)
    requires plain != [] && parts > 0
    ensures Product(plain, d, 0, parts) != [] && Product(plain, d, 0, parts)[0] == Spot(Some(d), 0, plain[0])
  {
    RowLength(plain, d, 0, 0);
  }

  lemma {:induction false} StaleVisit(env: Env, plain: seq<Bootmeth>, d: nat, t: nat)
    requires plain != [] && env(t, Some(0)).code == Done
    ensures var l := Partitions(env, plain, d, 0, 0, NoMoreParts, t);
            l.spots == [Spot(Some(d), 0, plain[0])] && l.rec == NoMoreParts && l.t == t + 1 && l.exit == LeaveDevice
  {
  }

  /** A whole scan in which this happens: the first bootdev has a partition table and nothing to
    * boot, the second has something at once.  All other bootmeths and partitions of the second are
    * passed over. */
  lemma {:induction false} FindAfterDisk(w: World, f: Flags, env: Env, slots: seq<Option<Bootmeth>>, count: nat)
    requires ValidWorld(w) && Tame(env) && Capped(env)
    requires !Narrowed(f)
    requires Plains(slots, count) != []
    requires |Itinerary(w)| > 1 && Table(env, 0, 0, |Plains(slots, count)|)
    requires var n := |DiskOffers(Plains(slots, count), Itinerary(w)[0])|;
             Fruitless(env, 0, n) && env(n, Some(0)).code == Done
    ensures var plain, ds := Plains(slots, count), Itinerary(w);
            var disk := DiskOffers(plain, ds[0]);
            match Start(w, f, slots, count, Anything(true))
            case None => false
            case Some(s) =>
              && Valid(w, s.0, s.1) && CanStep(s.1)
              && Spots(Whole(w, f, env, s.1))
                 == disk + ([Spot(Some(ds[1]), 0, plain[0])]
                            + Devices(env, plain, ds[2..], NoMoreParts, |disk| + 1))
  {
    hide Plains, GlobalOnes, Itinerary, Start, Whole, Partitions, Valid, CanStep, Product;
    var plain, ds := Plains(slots, count), Itinerary(w);
    var disk := DiskOffers(plain, ds[0]);
    ScanIsNestedLoops(w, f, env, slots, count, true);
    FruitlessVisit(env, plain, ds[0], Done, 0);
    StaleVisit(env, plain, ds[1], |disk|);
    var tail := ds[1..];
    assert tail[1..] == ds[2..];
    var later := Devices(env, plain, ds[2..], NoMoreParts, |disk| + 1);
    assert Devices(env, plain, tail, NoMoreParts, |disk|) == [Spot(Some(ds[1]), 0, plain[0])] + later;
    assert Devices(env, plain, ds, Done, 0) == disk + Devices(env, plain, tail, NoMoreParts, |disk|);
    assert Globals(env, [], plain, ds, Done, 0) == Devices(env, plain, ds, Done, 0);
  }
}
