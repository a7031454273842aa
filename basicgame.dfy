/** The basic game scene shared by the real game and the tutorial: the list of crystals,
    moving crystals between table, microscope and bowls, the %ee bookkeeping after each
    placement, the head's face feedback and the camera-shake decision. */
module BasicGame {
  import opened Wrappers
  import opened Crystals
  import opened Purity
  import opened TableGrid

  /** The configured constants the scene reads. */
  datatype Options = Options(happyFaceLimit: real, sadFaceLimit: real, grid: Grid,
                             parTime: real, scoreMultiplier: real)

  /** The head's expressions; the sprite frames are 0 (neutral), 1 (sad) and 2 (happy). */
  datatype Face = Neutral | Sad | Happy

  function HeadFrame(f: Face): (frame: nat)
    ensures frame <= 2
    ensures frame == 0 <==> f == Neutral
    ensures frame == 1 <==> f == Sad
  {
    match f
    case Neutral => 0
    case Sad => 1
    case Happy => 2
  }

  /** What a bowl placement did: nothing (no crystal was open), or crystal `index` went into
      the bowl, with the camera-shake decision and the face the head changed to, if any. */
  datatype Placement = NoOpenCrystal | Placed(index: nat, shake: bool, faceChange: Option<Face>)

  // ---------------------------------------------------------------------------------
  // Face feedback
  // ---------------------------------------------------------------------------------

  /** The scene's `change` flag: the new average reached the happy limit from below, fell
      to the sad limit from above, or came back between the limits from outside them. */
  predicate ThresholdCrossed(opts: Options, previous: real, current: real)
    ensures ThresholdCrossed(opts, previous, current) ==> previous != current
  {
    var happy, sad := opts.happyFaceLimit, opts.sadFaceLimit;
    (current >= happy && previous < happy) ||
    (current <= sad && previous > sad) ||
    (current < happy && current > sad && (previous >= happy || previous <= sad))
  }

  /** The face set after a placement, given the previous and new average %ee and the number
      of crystals now in the bowls; None leaves the head as it is. */
  function FaceDecision(opts: Options, previous: real, current: real, placed: nat): (r: Option<Face>)
    ensures placed < 2 ==> r == None
    ensures r == Some(Happy) ==> current >= opts.happyFaceLimit
    ensures r == Some(Sad) ==> current <= opts.sadFaceLimit
    ensures r == Some(Neutral) ==> current < opts.happyFaceLimit && ThresholdCrossed(opts, previous, current)
    ensures previous == current && placed != 2 ==> r == None
  {
    var change := ThresholdCrossed(opts, previous, current);
    if placed < 2 then None
    else if current >= opts.happyFaceLimit && (change || placed == 2) then Some(Happy)
    else if current <= opts.sadFaceLimit && (change || placed == 2) then Some(Sad)
    else if current < opts.happyFaceLimit && change then Some(Neutral)
    else None
  }

  /** The face an average %ee calls for on its own: an independent reading of the limits. */
  function Zone(opts: Options, averageEE: real): Face {
    if averageEE >= opts.happyFaceLimit then Happy
    else if averageEE <= opts.sadFaceLimit then Sad
    else Neutral
  }

  /** With the sad limit below the happy one, a threshold is crossed exactly when the new
      average lies in a different zone from the previous one. */
  lemma CrossedIffZoneChanged(opts: Options, previous: real, current: real)
    requires opts.sadFaceLimit < opts.happyFaceLimit
    ensures ThresholdCrossed(opts, previous, current) <==> Zone(opts, previous) != Zone(opts, current)
  {
  }

  /** The face changes only once two or more crystals are in the bowls, and then exactly when
      the zone of the average changed, or when exactly two are placed and the average is not
      in the neutral zone; the face it changes to is the new zone's. In particular a neutral
      face is never set at exactly two crystals without a crossing. */
  lemma FaceDecisionByZone(opts: Options, previous: real, current: real, placed: nat)
    requires opts.sadFaceLimit < opts.happyFaceLimit
    ensures FaceDecision(opts, previous, current, placed) ==
      if placed >= 2 && (Zone(opts, previous) != Zone(opts, current) ||
                         (placed == 2 && Zone(opts, current) != Neutral))
      then Some(Zone(opts, current)) else None
    ensures FaceDecision(opts, previous, current, placed) == Some(Neutral) ==>
      ThresholdCrossed(opts, previous, current)
  {
    CrossedIffZoneChanged(opts, previous, current);
  }

  // ---------------------------------------------------------------------------------
  // Keyboard rotation
  // ---------------------------------------------------------------------------------

  /** The per-frame rotation direction from the held keys: (about x, about y), each in
      {-1, 0, 1}. W/Up and S/Down pull x opposite ways, A/Left and D/Right pull y. */
  function KeyRotation(w: bool, up: bool, s: bool, down: bool,
                       a: bool, left: bool, d: bool, right: bool): (r: (int, int))
    ensures -1 <= r.0 <= 1 && -1 <= r.1 <= 1
    ensures r.0 < 0 <==> (w || up) && !(s || down)
    ensures r.0 > 0 <==> (s || down) && !(w || up)
    ensures r.1 < 0 <==> (a || left) && !(d || right)
    ensures r.1 > 0 <==> (d || right) && !(a || left)
  {
    var x := (if w || up then -1 else 0) + (if s || down then 1 else 0);
    var y := (if a || left then -1 else 0) + (if d || right then 1 else 0);
    (x, y)
  }

  // ---------------------------------------------------------------------------------
  // Crystal-list transformations used as specifications
  // ---------------------------------------------------------------------------------

  /** Every crystal in the microscope goes back to the table; all others stay as they are. */
  function ReturnToTable(cs: seq<Crystal>): (r: seq<Crystal>)
    ensures |r| == |cs|
    ensures forall i :: 0 <= i < |cs| ==>
      r[i] == if cs[i].location == Microscope then cs[i].(location := Table) else cs[i]
    ensures Find(r, Microscope) == None
  {
    if cs == [] then []
    else
      var c := if cs[0].location == Microscope then cs[0].(location := Table) else cs[0];
      [c] + ReturnToTable(cs[1..])
  }

  /** The crystal list after the open crystal, if there is one, goes into `bowl` with its
      click zone switched off; with no open crystal nothing changes. */
  function PlaceOpen(cs: seq<Crystal>, bowl: Bowl): (r: seq<Crystal>)
    ensures |r| == |cs|
    ensures Find(cs, Microscope) == None ==> r == cs
  {
    match Find(cs, Microscope)
    case None => cs
    case Some(k) => cs[k := cs[k].(location := BowlLocation(bowl), clickZoneActive := false)]
  }

  /** Placing the open crystal adds exactly that crystal to the chosen bowl, leaves the
      other bowl as it was and empties the microscope; every other crystal is untouched. */
  lemma PlaceOpenEffect(cs: seq<Crystal>, bowl: Bowl)
    requires ValidCrystals(cs) && AtMostOneOpen(cs)
    requires Find(cs, Microscope).Some?
    ensures var k, r := Find(cs, Microscope).value, PlaceOpen(cs, bowl);
      r[k].location == BowlLocation(bowl) && r[k].enantiomer == cs[k].enantiomer &&
      r[k].weight == cs[k].weight &&
      (forall j :: 0 <= j < |cs| && j != k ==> r[j] == cs[j]) &&
      |InLocation(r, BowlLocation(bowl))| == |InLocation(cs, BowlLocation(bowl))| + 1 &&
      InLocation(r, OtherBowl(bowl)) == InLocation(cs, OtherBowl(bowl)) &&
      Find(r, Microscope) == None && ValidCrystals(r) && AtMostOneOpen(r)
  {
    var k := Find(cs, Microscope).value;
    var c := cs[k].(location := BowlLocation(bowl), clickZoneActive := false);
    InLocationUpdateInto(cs, k, c, BowlLocation(bowl));
    InLocationUpdateElsewhere(cs, k, c, OtherBowl(bowl));
    CloseOpenCrystal(cs, k, c);
  }

  function OtherBowl(b: Bowl): (loc: Location)
    ensures IsBowl(loc) && loc != BowlLocation(b)
  {
    match b
    case Left => BowlRight
    case Right => BowlLeft
  }

  /** Returning the microscope crystal to the table leaves both bowls' contents unchanged. */
  lemma {:induction false} ReturnToTableKeepsBowls(cs: seq<Crystal>, loc: Location)
    requires IsBowl(loc)
    ensures InLocation(ReturnToTable(cs), loc) == InLocation(cs, loc)
  {
    if cs != [] {
      ReturnToTableKeepsBowls(cs[1..], loc);
      assert ReturnToTable(cs)[1..] == ReturnToTable(cs[1..]);
    }
  }

  /** The enantiomer of the i-th new crystal: the forced one when a sequence is given and
      reaches that far, otherwise the random draw. */
  function ChosenEnantiomer(sequence: Option<seq<Enantiomer>>, draws: seq<Enantiomer>, i: nat): (e: Enantiomer)
    requires i < |draws|
    ensures sequence.None? ==> e == draws[i]
    ensures sequence.Some? && i < |sequence.value| ==> e == sequence.value[i]
    ensures sequence.Some? && i >= |sequence.value| ==> e == draws[i]
  {
    if sequence.Some? && i < |sequence.value| then sequence.value[i] else draws[i]
  }

  /** The i-th crystal of a new batch: its drawn weight, chosen enantiomer, on the table at
      its grid cell, clickable. */
  function NewCrystal(g: Grid, sequence: Option<seq<Enantiomer>>, weights: seq<real>,
                      draws: seq<Enantiomer>, i: nat): (c: Crystal)
    requires i < |weights| && i < |draws|
    ensures c.location == Table && c.clickZoneActive
    ensures c.weight == weights[i] && c.enantiomer == ChosenEnantiomer(sequence, draws, i)
    ensures c.x <= 1.0 - g.startX || c.x == g.startX
    ensures (c.x, c.y) == (GridPosition(g, i).x, GridPosition(g, i).y)
  {
    var p := GridPosition(g, i);
    Crystal(weights[i], ChosenEnantiomer(sequence, draws, i), Table, p.x, p.y, true)
  }

  lemma AppendTableKeepsBowls(cs: seq<Crystal>, c: Crystal)
    requires c.location == Table
    ensures InLocation(cs + [c], BowlLeft) == InLocation(cs, BowlLeft)
    ensures InLocation(cs + [c], BowlRight) == InLocation(cs, BowlRight)
  {
    InLocationAppend(cs, [c], BowlLeft);
    InLocationAppend(cs, [c], BowlRight);
  }

  lemma AppendTableKeepsValid(cs: seq<Crystal>, c: Crystal)
    requires ValidCrystals(cs) && AtMostOneOpen(cs)
    requires c.location == Table && InWeightRange(c.weight)
    ensures ValidCrystals(cs + [c]) && AtMostOneOpen(cs + [c])
  {
  }

  /** Moving the open crystal anywhere but the microscope leaves the microscope empty. */
  lemma CloseOpenCrystal(cs: seq<Crystal>, k: nat, c: Crystal)
    requires ValidCrystals(cs) && AtMostOneOpen(cs)
    requires k < |cs| && cs[k].location == Microscope && c.location != Microscope
    requires c.weight == cs[k].weight
    ensures Find(cs[k := c], Microscope) == None
    ensures ValidCrystals(cs[k := c]) && AtMostOneOpen(cs[k := c])
  {
    var cs' := cs[k := c];
    forall j | 0 <= j < |cs'|
      ensures cs'[j].location != Microscope
    {
      if j != k {
        assert cs[j].location != Microscope;
      }
    }
  }

  /** All crystals are sorted exactly when none is on the table or in the microscope. */
  lemma AllSortedIffNoneLeft(cs: seq<Crystal>)
    ensures AllSorted(cs) <==> Find(cs, Table) == None && Find(cs, Microscope) == None
  {
    if !AllSorted(cs) {
      var i :| 0 <= i < |cs| && !IsBowl(cs[i].location);
      assert cs[i].location == Table || cs[i].location == Microscope;
    }
  }

  /** The scene's displayed readings: the two bowls' %ee, their weighted average and the
      professor's face. */
  datatype Readings = Readings(eeLeft: real, eeRight: real, averageEE: real, face: Face)

  /** The effect of a bowl placement that starts from the crystals `before` and the readings
      `r0` and ends with `after` and `r`, reporting `p`. With no crystal open nothing
      changes. Otherwise the open crystal k goes into the bowl, the readings are recomputed
      from the bowls, the camera shakes exactly when the average fell, and the face follows
      the threshold decision. */
  ghost predicate PlacementEffect(opts: Options, bowl: Bowl, before: seq<Crystal>, r0: Readings,
                                  after: seq<Crystal>, r: Readings, p: Placement)
  {
    after == PlaceOpen(before, bowl) &&
    match Find(before, Microscope)
    case None => p == NoOpenCrystal && r == r0
    case Some(k) =>
      r.eeLeft == EE(InLocation(after, BowlLeft)) &&
      r.eeRight == EE(InLocation(after, BowlRight)) &&
      r.averageEE == BowlsAverageEE(InLocation(after, BowlLeft), InLocation(after, BowlRight)) &&
      p == Placed(k, r.averageEE < r0.averageEE,
                  FaceDecision(opts, r0.averageEE, r.averageEE, PlacedCount(after))) &&
      r.face == (if p.faceChange.Some? then p.faceChange.value else r0.face)
  }

  // ---------------------------------------------------------------------------------
  // The scene
  // ---------------------------------------------------------------------------------

  class BasicGameScene {
    const opts: Options
    var allCrystals: seq<Crystal>
    var eeLeft: real
    var eeRight: real
    var averageEE: real
    var face: Face
    var microscopeVisible: bool
    var dragging: bool

    /** Weights come from the configured range, and at most one crystal is open. */
    ghost predicate Valid()
      reads this
    {
      ValidCrystals(allCrystals) && AtMostOneOpen(allCrystals)
    }

    /** The readings the scene currently shows. */
    function CurrentReadings(): Readings
      reads this
    {
      Readings(eeLeft, eeRight, averageEE, face)
    }

    constructor(opts: Options)
      ensures Valid() && this.opts == opts
      ensures allCrystals == [] && eeLeft == 0.0 && eeRight == 0.0 && averageEE == 0.0
      ensures face == Neutral && !microscopeVisible && !dragging
    {
      this.opts := opts;
      allCrystals := [];
      eeLeft, eeRight, averageEE := 0.0, 0.0, 0.0;
      face := Neutral;
      microscopeVisible := false;
      dragging := false;
    }

    /** Appends n crystals laid out on the table grid. `weights` and `draws` are the random
        weight and enantiomer draws of the crystals' construction; a given `sequence` forces
        the enantiomer of crystal i wherever it has an entry i. */
    method CreateCrystals(n: nat, sequence: Option<seq<Enantiomer>>, weights: seq<real>,
                          draws: seq<Enantiomer>)
      requires Valid()
      requires |weights| == n && |draws| == n
      requires forall i :: 0 <= i < n ==> InWeightRange(weights[i])
      modifies this`allCrystals
      ensures Valid()
      ensures |allCrystals| == |old(allCrystals)| + n
      ensures allCrystals[..|old(allCrystals)|] == old(allCrystals)
      ensures forall i :: 0 <= i < n ==>
        allCrystals[|old(allCrystals)| + i] == NewCrystal(opts.grid, sequence, weights, draws, i)
      ensures InLocation(allCrystals, BowlLeft) == InLocation(old(allCrystals), BowlLeft)
      ensures InLocation(allCrystals, BowlRight) == InLocation(old(allCrystals), BowlRight)
    {
      var g := opts.grid;
      var x := g.startX;
      var y := g.startY;
      ghost var start := allCrystals;
      for i := 0 to n
        invariant Valid()
        invariant |allCrystals| == |start| + i
        invariant allCrystals[..|start|] == start
        invariant forall j :: 0 <= j < i ==>
          allCrystals[|start| + j] == NewCrystal(g, sequence, weights, draws, j)
        invariant i > 0 ==> Position(x, y) == GridPosition(g, i - 1)
        invariant i == 0 ==> x == g.startX && y == g.startY
        invariant InLocation(allCrystals, BowlLeft) == InLocation(start, BowlLeft)
        invariant InLocation(allCrystals, BowlRight) == InLocation(start, BowlRight)
      {
        if i > 0 {
          x := x + g.distance;
        }
        if x > 1.0 - g.startX {
          x := g.startX;
          y := y + g.distance;
        }
        var enantiomer := ChosenEnantiomer(sequence, draws, i);
        var c := Crystal(weights[i], enantiomer, Table, x, y, true);
        assert c == NewCrystal(g, sequence, weights, draws, i);
        AppendTableKeepsBowls(allCrystals, c);
        AppendTableKeepsValid(allCrystals, c);
        allCrystals := allCrystals + [c];
      }
    }

    /** Recomputes both bowls' %ee and their weighted average from the crystals' locations. */
    method CalculateEEInBowls()
      modifies this`eeLeft, this`eeRight, this`averageEE
      ensures eeLeft == EE(InLocation(allCrystals, BowlLeft))
      ensures eeRight == EE(InLocation(allCrystals, BowlRight))
      ensures averageEE == BowlsAverageEE(InLocation(allCrystals, BowlLeft),
                                          InLocation(allCrystals, BowlRight))
    {
      var crystalsLeft := InLocation(allCrystals, BowlLeft);
      var crystalsRight := InLocation(allCrystals, BowlRight);
      eeLeft := EE(crystalsLeft);
      eeRight := EE(crystalsRight);
      averageEE := AverageEE(crystalsLeft, crystalsRight, eeLeft, eeRight);
    }

    /** Puts the open crystal, if there is one, into the bowl: it leaves the microscope, its
        click zone goes off, the %ee values are recomputed, and the camera shakes exactly
        when the average fell. The microscope is hidden either way. */
    method PutInBowl(bowl: Bowl) returns (p: Placement)
      requires Valid()
      modifies this`allCrystals, this`eeLeft, this`eeRight, this`averageEE, this`face,
               this`microscopeVisible
      ensures Valid()
      ensures Find(allCrystals, Microscope) == None
      ensures !microscopeVisible
      ensures allCrystals == PlaceOpen(old(allCrystals), bowl)
      ensures old(Find(allCrystals, Microscope)) == None ==>
        p == NoOpenCrystal && face == old(face) &&
        eeLeft == old(eeLeft) && eeRight == old(eeRight) && averageEE == old(averageEE)
      ensures old(Find(allCrystals, Microscope)).Some? ==>
        var k := old(Find(allCrystals, Microscope)).value;
        eeLeft == EE(InLocation(allCrystals, BowlLeft)) &&
        eeRight == EE(InLocation(allCrystals, BowlRight)) &&
        averageEE == BowlsAverageEE(InLocation(allCrystals, BowlLeft),
                                    InLocation(allCrystals, BowlRight)) &&
        p == Placed(k, averageEE < old(averageEE),
                    FaceDecision(opts, old(averageEE), averageEE, PlacedCount(allCrystals))) &&
        face == (if p.faceChange.Some? then p.faceChange.value else old(face))
      // The same effect as one predicate, for callers that pass it on.
      ensures PlacementEffect(opts, bowl, old(allCrystals), old(CurrentReadings()),
                              allCrystals, CurrentReadings(), p)
    {
      var open := Find(allCrystals, Microscope);
      if open.Some? {
        var k := open.value;
        var previousAverageEE := averageEE;
        var c := allCrystals[k].(location := BowlLocation(bowl), clickZoneActive := false);
        CloseOpenCrystal(allCrystals, k, c);
        allCrystals := allCrystals[k := c];
        CalculateEEInBowls();
        var shake := averageEE < previousAverageEE;
        var crystalsInBowl := PlacedCount(allCrystals);
        var change := FaceDecision(opts, previousAverageEE, averageEE, crystalsInBowl);
        if change.Some? {
          face := change.value;
        }
        p := Placed(k, shake, change);
      } else {
        p := NoOpenCrystal;
      }
      microscopeVisible := false;
    }

    /** Returns every crystal in the microscope to the table and hides the microscope. */
    method PutBackOnTable()
      requires Valid()
      modifies this`allCrystals, this`microscopeVisible
      ensures Valid()
      ensures allCrystals == ReturnToTable(old(allCrystals))
      ensures !microscopeVisible
    {
      ghost var before := allCrystals;
      for i := 0 to |allCrystals|
        invariant |allCrystals| == |before|
        invariant forall j :: 0 <= j < i ==> allCrystals[j] == ReturnToTable(before)[j]
        invariant forall j :: i <= j < |before| ==> allCrystals[j] == before[j]
      {
        if allCrystals[i].location == Microscope {
          allCrystals := allCrystals[i := allCrystals[i].(location := Table)];
        }
      }
      assert allCrystals == ReturnToTable(before);
      microscopeVisible := false;
    }

    /** Opens crystal k (the clicked one) in the microscope unless a crystal is already open;
        so at most one crystal is ever open. */
    method PutInMicroscope(k: nat)
      requires Valid()
      requires k < |allCrystals|
      modifies this`allCrystals, this`microscopeVisible
      ensures Valid()
      ensures old(Find(allCrystals, Microscope)) == None ==>
        allCrystals == old(allCrystals)[k := old(allCrystals)[k].(location := Microscope)] &&
        microscopeVisible
      ensures old(Find(allCrystals, Microscope)).Some? ==>
        allCrystals == old(allCrystals) && microscopeVisible == old(microscopeVisible)
    {
      if Find(allCrystals, Microscope) == None {
        allCrystals := allCrystals[k := allCrystals[k].(location := Microscope)];
        microscopeVisible := true;
      }
    }

    /** The space key: with a crystal open, that crystal goes back to the table; otherwise
        the first crystal on the table, if any, is clicked (and so opened). Returns the index
        of the crystal acted on. */
    method SpaceKey() returns (acted: Option<nat>)
      requires Valid()
      modifies this`allCrystals, this`microscopeVisible
      ensures Valid()
      ensures old(Find(allCrystals, Microscope)).Some? ==>
        var k := old(Find(allCrystals, Microscope)).value;
        acted == Some(k) && !microscopeVisible &&
        allCrystals == old(allCrystals)[k := old(allCrystals)[k].(location := Table)]
      ensures old(Find(allCrystals, Microscope)) == None ==>
        acted == old(Find(allCrystals, Table)) &&
        (acted.Some? ==>
          allCrystals == old(allCrystals)[acted.value := old(allCrystals)[acted.value].(location := Microscope)] &&
          microscopeVisible) &&
        (acted.None? ==> allCrystals == old(allCrystals) && microscopeVisible == old(microscopeVisible))
    {
      var open := Find(allCrystals, Microscope);
      if open.Some? {
        var k := open.value;
        CloseOpenCrystal(allCrystals, k, allCrystals[k].(location := Table));
        allCrystals := allCrystals[k := allCrystals[k].(location := Table)];
        microscopeVisible := false;
        acted := open;
      } else {
        acted := Find(allCrystals, Table);
        if acted.Some? {
          PutInMicroscope(acted.value);
        }
      }
    }

    /** A pointer press starts a drag only while a crystal is open. */
    method PointerDown()
      modifies this`dragging
      ensures dragging == (old(dragging) || Find(allCrystals, Microscope).Some?)
    {
      if Find(allCrystals, Microscope).Some? {
        dragging := true;
      }
    }

    /** Releasing the pointer always ends a drag. */
    method PointerUp()
      modifies this`dragging
      ensures !dragging
    {
      dragging := false;
    }
  }
}
