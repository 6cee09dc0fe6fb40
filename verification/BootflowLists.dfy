/** The two lists of bootflows: one for everything found, one per bootdev. */
module BootflowLists {
  import opened Results

  class Bootflow {
    const dev: Option<nat>

    constructor (dev: Option<nat>)
      ensures this.dev == dev
    {
      this.dev := dev;
    }
  }

  /** The bootflows of one bootdev, in list order. */
  function Of(s: seq<Bootflow>, d: nat): seq<Bootflow> {
    if s == [] then []
    else if s[0].dev == Some(d) then [s[0]] + Of(s[1..], d)
    else Of(s[1..], d)
  }

  /** The list with one node unlinked. */
  function Without(s: seq<Bootflow>, b: Bootflow): seq<Bootflow> {
    if s == [] then []
    else if s[0] == b then s[1..]
    else [s[0]] + Without(s[1..], b)
  }

  /** The bootflows of all other bootdevs and of none. */
  function NotOf(s: seq<Bootflow>, d: nat): seq<Bootflow> {
    if s == [] then []
    else if s[0].dev == Some(d) then NotOf(s[1..], d)
    else [s[0]] + NotOf(s[1..], d)
  }

  predicate Distinct(s: seq<Bootflow>) {
    forall i, j :: 0 <= i < j < |s| ==> s[i] != s[j]
  }

  lemma {:induction false} OfMembers(s: seq<Bootflow>, d: nat)
    ensures forall b :: b in Of(s, d) <==> b in s && b.dev == Some(d)
  {
    if s != [] { OfMembers(s[1..], d); }
  }

  lemma {:induction false} OfAppend(s: seq<Bootflow>, b: Bootflow, d: nat)
    ensures Of(s + [b], d) == Of(s, d) + if b.dev == Some(d) then [b] else []
  {
    if s != [] {
      assert (s + [b])[1..] == s[1..] + [b];
      OfAppend(s[1..], b, d);
    } else {
      assert s + [b] == [b];
    }
  }

  lemma {:induction false} WithoutMembers(s: seq<Bootflow>, b: Bootflow)
    requires Distinct(s)
    ensures forall x :: x in Without(s, b) <==> x in s && x != b
    ensures b in s ==> |Without(s, b)| == |s| - 1
    ensures b !in s ==> Without(s, b) == s
  {
    if s != [] && s[0] != b { WithoutMembers(s[1..], b); }
  }

  lemma {:induction false} WithoutDistinct(s: seq<Bootflow>, b: Bootflow)
    requires Distinct(s)
    ensures Distinct(Without(s, b))
  {
    if s != [] && s[0] != b {
      WithoutDistinct(s[1..], b);
      WithoutMembers(s[1..], b);
      DistinctCons(s[0], Without(s[1..], b));
    }
  }

  lemma {:induction false} DistinctCons(b: Bootflow, s: seq<Bootflow>)
    requires b !in s && Distinct(s)
    ensures Distinct([b] + s)
  {
  }

  /** Unlinking commutes with taking one bootdev's part. */
  lemma {:induction false} OfWithout(s: seq<Bootflow>, b: Bootflow, d: nat)
    requires Distinct(s)
    ensures Of(Without(s, b), d) == if b.dev == Some(d) then Without(Of(s, d), b) else Of(s, d)
  {
    if s != [] && s[0] != b {
      OfWithout(s[1..], b, d);
      assert Without(s, b)[1..] == Without(s[1..], b);
      if s[0].dev == Some(d) {
        assert Of(s, d)[1..] == Of(s[1..], d);
      }
    } else if s != [] {
      OfMembers(s[1..], d);
    }
  }

  lemma {:induction false} NotOfWithout(s: seq<Bootflow>, b: Bootflow, d: nat)
    requires Distinct(s) && b.dev == Some(d)
    ensures NotOf(Without(s, b), d) == NotOf(s, d)
  {
    if s != [] && s[0] != b {
      NotOfWithout(s[1..], b, d);
      assert Without(s, b)[1..] == Without(s[1..], b);
    }
  }

  lemma {:induction false} NoneOf(s: seq<Bootflow>, d: nat)
    requires Of(s, d) == []
    ensures NotOf(s, d) == s
  {
    if s != [] { NoneOf(s[1..], d); }
  }

  class Store {
    var glob: seq<Bootflow>
    var lists: map<nat, seq<Bootflow>>

    /** Every bootdev's list is the global list cut down to that bootdev, in the same order. */
    ghost predicate Valid()
      reads this
    {
      && Distinct(glob)
      && (forall b :: b in glob && b.dev.Some? ==> b.dev.value in lists)
      && (forall d :: d in lists ==> lists[d] == Of(glob, d))
    }

    constructor (bootdevs: set<nat>)
      ensures Valid() && glob == [] && lists.Keys == bootdevs
    {
      glob := [];
      lists := map d | d in bootdevs :: [];
    }

    /** Adds a bootflow at the end of both lists. */
    method Add(dev: Option<nat>) returns (b: Bootflow)
      requires Valid() && (dev.Some? ==> dev.value in lists)
      modifies this
      ensures Valid() && fresh(b) && b.dev == dev
      ensures glob == old(glob) + [b] && lists.Keys == old(lists).Keys
    {
      b := new Bootflow(dev);
      forall d | d in lists ensures Of(glob + [b], d) == lists[d] + if dev == Some(d) then [b] else [] {
        OfAppend(glob, b, d);
      }
      glob := glob + [b];
      if dev.Some? {
        lists := lists[dev.value := lists[dev.value] + [b]];
      }
    }

    /** Unlinks a bootflow from its bootdev's list and from the global one. */
    method Remove(b: Bootflow)
      requires Valid() && b in glob
      modifies this
      ensures Valid() && glob == Without(old(glob), b) && lists.Keys == old(lists).Keys
    {
      forall d | d in lists
        ensures Of(Without(glob, b), d) == if b.dev == Some(d) then Without(lists[d], b) else lists[d]
      {
        OfWithout(glob, b, d);
      }
      WithoutMembers(glob, b);
      WithoutDistinct(glob, b);
      if b.dev.Some? {
        lists := lists[b.dev.value := Without(lists[b.dev.value], b)];
      }
      glob := Without(glob, b);
    }

    /** Removes the head of one bootdev's list until it is empty. */
    method ClearBootdev(d: nat)
      requires Valid() && d in lists
      modifies this
      ensures Valid() && lists.Keys == old(lists).Keys
      ensures lists[d] == [] && glob == NotOf(old(glob), d)
    {
      while lists[d] != []
        invariant Valid() && lists.Keys == old(lists).Keys
        invariant NotOf(glob, d) == NotOf(old(glob), d)
        decreases |lists[d]|
      {
        var b := lists[d][0];
        OfMembers(glob, d);
        assert b in lists[d];
        NotOfWithout(glob, b, d);
        OfWithout(glob, b, d);
        Remove(b);
      }
      NoneOf(glob, d);
    }

    /** Removes the head of the global list until it is empty. */
    method ClearAll()
      requires Valid()
      modifies this
      ensures Valid() && glob == [] && lists.Keys == old(lists).Keys
      ensures forall d :: d in lists ==> lists[d] == []
    {
      while glob != []
        invariant Valid() && lists.Keys == old(lists).Keys
        decreases |glob|
      {
        Remove(glob[0]);
      }
    }
  }
}
