/** The crystal record shared by the game and tutorial scenes, and the read-only
    queries the scenes make over their list of crystals. */
module Crystals {
  import opened Wrappers

  datatype Enantiomer = R | S

  /** Where a crystal currently lies. */
  datatype Location = Table | Microscope | BowlLeft | BowlRight

  /** The two bowls a crystal can be sorted into. */
  datatype Bowl = Left | Right

  function BowlLocation(b: Bowl): (loc: Location)
    ensures loc == BowlLeft || loc == BowlRight
    ensures (loc == BowlLeft) <==> (b == Left)
  {
    match b
    case Left => BowlLeft
    case Right => BowlRight
  }

  /** One crystal: its weight and enantiomer never change; location and click zone do.
      (x, y) is its relative table position, fixed when it is created. */
  datatype Crystal = Crystal(weight: real, enantiomer: Enantiomer, location: Location,
                             x: real, y: real, clickZoneActive: bool)

  /** The weight range crystals are drawn from. */
  const WeightMin: real := 0.75
  const WeightMax: real := 1.25

  predicate InWeightRange(w: real) {
    WeightMin <= w <= WeightMax
  }

  /** Every crystal has a weight drawn from the configured range (so a positive one). */
  predicate ValidCrystals(cs: seq<Crystal>) {
    forall i :: 0 <= i < |cs| ==> InWeightRange(cs[i].weight)
  }

  predicate IsBowl(loc: Location) {
    loc == BowlLeft || loc == BowlRight
  }

  /** The crystals at `loc`, in list order (the scenes' `filter` on location). */
  function InLocation(cs: seq<Crystal>, loc: Location): (r: seq<Crystal>)
    ensures |r| <= |cs|
    ensures forall c :: c in r ==> c in cs && c.location == loc
    ensures forall c :: c in cs && c.location == loc ==> c in r
  {
    if cs == [] then []
    else if cs[0].location == loc then [cs[0]] + InLocation(cs[1..], loc)
    else InLocation(cs[1..], loc)
  }

  /** The index of the first crystal at `loc`, if any (the scenes' `find` on location). */
  function Find(cs: seq<Crystal>, loc: Location): (r: Option<nat>)
    ensures r.Some? ==> r.value < |cs| && cs[r.value].location == loc
    ensures r.Some? ==> forall j :: 0 <= j < r.value ==> cs[j].location != loc
    ensures r.None? <==> forall j :: 0 <= j < |cs| ==> cs[j].location != loc
  {
    if cs == [] then None
    else if cs[0].location == loc then Some(0)
    else match Find(cs[1..], loc)
      case None => None
      case Some(k) => Some(k + 1)
  }

  /** Every crystal has been sorted into one of the two bowls. */
  predicate AllSorted(cs: seq<Crystal>)
    ensures AllSorted(cs) ==> Find(cs, Table) == None && Find(cs, Microscope) == None
  {
    forall i :: 0 <= i < |cs| ==> IsBowl(cs[i].location)
  }

  /** The number of crystals in the two bowls together. */
  function PlacedCount(cs: seq<Crystal>): (r: nat)
    ensures r <= |cs|
    ensures r == |cs| <==> AllSorted(cs)
    ensures r == 0 <==> forall i :: 0 <= i < |cs| ==> !IsBowl(cs[i].location)
  {
    BowlCounts(cs);
    |InLocation(cs, BowlLeft)| + |InLocation(cs, BowlRight)|
  }

  /** Each crystal counts towards at most one bowl, so the two bowls together hold at most
      all crystals, all of them exactly when every crystal is sorted, and none exactly when
      no crystal lies in a bowl. */
  lemma {:induction false} BowlCounts(cs: seq<Crystal>)
    ensures |InLocation(cs, BowlLeft)| + |InLocation(cs, BowlRight)| <= |cs|
    ensures |InLocation(cs, BowlLeft)| + |InLocation(cs, BowlRight)| == |cs| <==> AllSorted(cs)
    ensures |InLocation(cs, BowlLeft)| + |InLocation(cs, BowlRight)| == 0 <==>
      forall i :: 0 <= i < |cs| ==> !IsBowl(cs[i].location)
  {
    if cs != [] {
      BowlCounts(cs[1..]);
      assert forall i :: 1 <= i < |cs| ==> cs[i] == cs[1..][i - 1];
    }
  }

  /** The "open crystal" invariant: at most one crystal lies in the microscope. */
  predicate AtMostOneOpen(cs: seq<Crystal>) {
    forall i, j ::
      0 <= i < |cs| && 0 <= j < |cs| && cs[i].location == Microscope && cs[j].location == Microscope
      ==> i == j
  }

  /** Filtering by location distributes over concatenation. */
  lemma {:induction false} InLocationAppend(a: seq<Crystal>, b: seq<Crystal>, loc: Location)
    ensures InLocation(a + b, loc) == InLocation(a, loc) + InLocation(b, loc)
  {
    if a == [] {
      assert a + b == b;
    } else {
      assert (a + b)[1..] == a[1..] + b;
      InLocationAppend(a[1..], b, loc);
    }
  }

  /** Changing one crystal's location to a place other than `loc`, where it was not at `loc`
      before, leaves the crystals at `loc` unchanged; this is what "the bowl's contents are
      unchanged" rests on. */
  lemma {:induction false} InLocationUpdateElsewhere(cs: seq<Crystal>, k: nat, c: Crystal, loc: Location)
    requires k < |cs|
    requires cs[k].location != loc && c.location != loc
    ensures InLocation(cs[k := c], loc) == InLocation(cs, loc)
  {
    if k == 0 {
      assert cs[k := c][1..] == cs[1..];
    } else {
      assert cs[k := c][1..] == cs[1..][k - 1 := c];
      InLocationUpdateElsewhere(cs[1..], k - 1, c, loc);
    }
  }

  /** The crystals at `loc` after moving crystal k (not at `loc` before) to `loc`. */
  lemma {:induction false} InLocationUpdateInto(cs: seq<Crystal>, k: nat, c: Crystal, loc: Location)
    requires k < |cs|
    requires cs[k].location != loc && c.location == loc
    ensures InLocation(cs[k := c], loc) ==
            InLocation(cs[..k], loc) + [c] + InLocation(cs[k + 1..], loc)
    ensures |InLocation(cs[k := c], loc)| == |InLocation(cs, loc)| + 1
  {
    var cs' := cs[k := c];
    assert cs' == cs[..k] + [c] + cs[k + 1..];
    assert cs == cs[..k] + [cs[k]] + cs[k + 1..];
    InLocationAppend(cs[..k] + [c], cs[k + 1..], loc);
    InLocationAppend(cs[..k], [c], loc);
    InLocationAppend(cs[..k] + [cs[k]], cs[k + 1..], loc);
    InLocationAppend(cs[..k], [cs[k]], loc);
    assert InLocation([c], loc) == [c];
    assert InLocation([cs[k]], loc) == [];
  }
}
