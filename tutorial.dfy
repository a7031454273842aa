/** The tutorial scene: a basic game scene driven through the tutorial's states, each with a
    setup run on entry and a cleanup run on exit, the event listeners those register and
    remove, and the gate that lets a crystal into a bowl during "sort remaining" only when
    it matches the bowl's first occupant. */
module Tutorial {
  import opened Wrappers
  import opened Crystals
  import opened BasicGame
  import opened TutorialStates

  /** One setup or cleanup routine having run. */
  datatype Step = Setup(state: TutorialState) | Cleanup(state: TutorialState)

  /** The scene-bus events the tutorial listens to. */
  datatype Event = Flipped | CrystalClick | BowlLeftClick | BowlRightClick | MicroscopeClick

  /** A listener on the scene bus: its event, whether it stays registered after firing
      (`on`) rather than once (`once`), and the state whose setup registered it. */
  datatype Listener = Listener(event: Event, persistent: bool, owner: TutorialState)

  /** The state whose setup `nextTutorialState` runs after leaving `s`; END has none. */
  function Successor(s: TutorialState): (r: Option<TutorialState>)
    ensures r.None? <==> s == End
    ensures r != Some(s) && r != Some(HandsIntro)
  {
    match s
    case HandsIntro => Some(HandsFlip)
    case HandsFlip => Some(ResolutionIntro)
    case ResolutionIntro => Some(ResolutionTartrate)
    case ResolutionTartrate => Some(PickCrystalOne)
    case PickCrystalOne => Some(RotateCrystalOne)
    case RotateCrystalOne => Some(PickCrystalTwo)
    case PickCrystalTwo => Some(RotateCrystalTwo)
    case RotateCrystalTwo => Some(PickCrystalThree)
    case PickCrystalThree => Some(RotateCrystalThree)
    case RotateCrystalThree => Some(TwoCrystalsSorted)
    case TwoCrystalsSorted => Some(SortRemaining)
    case SortRemaining => Some(End)
    case End => None
  }

  /** The routines `nextTutorialState` runs from the current state: the cleanup of the
      current state, then the setup of its successor; nothing in END or past the list. */
  function Transition(current: Option<TutorialState>): (r: seq<Step>)
    ensures r == [] <==> current.None? || current == Some(End)
    ensures r != [] ==>
      |r| == 2 && r[0] == Cleanup(current.value) && r[1].Setup? && r[1].state != current.value
  {
    if current.Some? && Successor(current.value).Some?
    then [Cleanup(current.value), Setup(Successor(current.value).value)]
    else []
  }

  /** The listeners a state's setup registers. */
  function SetupListeners(s: TutorialState): (r: seq<Listener>)
    ensures |r| <= 2
    ensures forall l :: l in r ==> l.owner == s
    ensures s == HandsIntro || s == End ==> r == []
  {
    match s
    case HandsFlip => [Listener(Flipped, true, s), Listener(Flipped, false, s)]
    case PickCrystalOne => [Listener(CrystalClick, false, s)]
    case RotateCrystalOne => [Listener(MicroscopeClick, false, s)]
    case PickCrystalTwo => [Listener(CrystalClick, false, s)]
    case RotateCrystalTwo => [Listener(BowlLeftClick, false, s), Listener(BowlRightClick, false, s)]
    case PickCrystalThree => [Listener(CrystalClick, false, s)]
    case RotateCrystalThree => [Listener(BowlLeftClick, false, s), Listener(BowlRightClick, false, s)]
    case TwoCrystalsSorted => [Listener(CrystalClick, false, s)]
    case SortRemaining => [Listener(CrystalClick, true, s)]
    case _ => []
  }

  /** The events whose listeners a state's cleanup switches off. */
  function CleanupOff(s: TutorialState): (r: set<Event>)
    ensures forall e :: e in r ==> exists l :: l in SetupListeners(s) && l.event == e
  {
    match s
    case HandsFlip => assert SetupListeners(s)[0].event == Flipped; {Flipped}
    case RotateCrystalTwo => {BowlLeftClick, BowlRightClick}
    case RotateCrystalThree => {BowlLeftClick, BowlRightClick}
    case SortRemaining => {CrystalClick}
    case _ => {}
  }

  /** The events whose listeners a state's setup switches off before registering its own
      (END's setup cleans up the scene, which switches off crystal clicks and flips). */
  function SetupOff(s: TutorialState): (r: set<Event>)
    ensures s != End ==> r == {}
    ensures s == End ==> forall t, l :: l in SetupListeners(t) && l.persistent ==> l.event in r
  {
    if s == End then {CrystalClick, Flipped} else {}
  }

  /** `events.off` for each of the given events: every listener on them goes. */
  function Off(ls: seq<Listener>, events: set<Event>): (r: seq<Listener>)
    ensures forall l :: l in r <==> l in ls && l.event !in events
  {
    if ls == [] then []
    else if ls[0].event in events then Off(ls[1..], events)
    else [ls[0]] + Off(ls[1..], events)
  }

  /** The registered listeners after `nextTutorialState` leaves `current`. */
  function ListenersAfter(ls: seq<Listener>, current: Option<TutorialState>): (r: seq<Listener>)
    ensures Transition(current) == [] ==> r == ls
    ensures Transition(current) != [] ==>
      var next := Transition(current)[1].state;
      (forall l :: l in r <==>
        (l in ls && l.event !in CleanupOff(current.value) && l.event !in SetupOff(next)) ||
        l in SetupListeners(next))
  {
    if current.Some? && Successor(current.value).Some?
    then
      var next := Successor(current.value).value;
      Off(Off(ls, CleanupOff(current.value)), SetupOff(next)) + SetupListeners(next)
    else ls
  }

  /** The manager's current state at index i of the tutorial's order. */
  function StateAt(i: nat): (s: Option<TutorialState>)
    ensures s.Some? <==> i < |TutorialOrder|
  {
    if i < |TutorialOrder| then Some(TutorialOrder[i]) else None
  }

  /** Every registered listener is one its owner's setup registers, and one registered with
      `on` belongs to the current state. */
  ghost predicate ListenersValid(ls: seq<Listener>, current: Option<TutorialState>) {
    (forall i :: 0 <= i < |ls| ==> ls[i] in SetupListeners(ls[i].owner)) &&
    (forall i :: 0 <= i < |ls| && ls[i].persistent ==> current == Some(ls[i].owner))
  }

  /** A transition keeps the listener invariant: the leaving state's cleanup switches off
      everything it registered with `on`, and the entering state's setup adds only its own. */
  lemma TransitionKeepsListenersValid(ls: seq<Listener>, i: nat)
    requires ListenersValid(ls, StateAt(i))
    ensures ListenersValid(ListenersAfter(ls, StateAt(i)), StateAt(i + 1))
  {
    var current := StateAt(i);
    if current.Some? && Successor(current.value).Some? {
      var s := current.value;
      var next := Successor(s).value;
      TutorialOrderFollowsSwitch(i);
      PersistentListenersHaveCleanup(s);
      var kept := Off(Off(ls, CleanupOff(s)), SetupOff(next));
      var r := kept + SetupListeners(next);
      forall j | 0 <= j < |r|
        ensures r[j] in SetupListeners(r[j].owner)
        ensures r[j].persistent ==> StateAt(i + 1) == Some(r[j].owner)
      {
        if j < |kept| {
          assert r[j] in kept;
          assert r[j] in ls;
        } else {
          assert r[j] in SetupListeners(next);
        }
      }
    } else if current.Some? {
      TutorialOrderFollowsSwitch(i);
    }
  }

  /** The manager's list is the order of the scene's switch: each entry is followed by its
      successor, and the last entry, END, has none. */
  lemma TutorialOrderFollowsSwitch(i: nat)
    requires i < |TutorialOrder|
    ensures i + 1 < |TutorialOrder| ==> Successor(TutorialOrder[i]) == Some(TutorialOrder[i + 1])
    ensures i + 1 == |TutorialOrder| ==> TutorialOrder[i] == End && Successor(TutorialOrder[i]) == None
  {
  }

  /** Three calls of `nextTutorialState` with the manager as shipped: the first runs the
      hands intro's cleanup and the hands-flip setup, after which the manager already
      reports END, so no later call runs anything and SORTREMAINING is never current. */
  method ShippedManagerSkipsToEnd() returns (seen: seq<Option<TutorialState>>, run: seq<Step>)
    ensures seen == [Some(HandsIntro), Some(End), None]
    ensures run == [Cleanup(HandsIntro), Setup(HandsFlip)]
    ensures Some(SortRemaining) !in seen
  {
    var m := new StateManager(ShippedOrder);
    var first := m.GetCurrentState();
    m.NextState();
    var second := m.GetCurrentState();
    m.NextState();
    var third := m.GetCurrentState();
    seen := [first, second, third];
    run := Transition(first) + Transition(second) + Transition(third);
  }

  /** Every listener a setup registers persistently is switched off by the same state's
      cleanup. */
  lemma PersistentListenersHaveCleanup(s: TutorialState)
    ensures forall l :: l in SetupListeners(s) && l.persistent ==> l.event in CleanupOff(s)
  {
  }

  // ---------------------------------------------------------------------------------
  // The "sort remaining" gate
  // ---------------------------------------------------------------------------------

  /** What the gate does with a bowl placement: let the base placement run, send the open
      crystal back to the table, do the base placement with nothing open, or fail with a
      TypeError before anything changes. */
  datatype Gate = Accept | Reject | Ignore | Fault

  /** The gate as written: it reads the enantiomer of the open crystal and of the bowl's
      first occupant without checking that either exists, so a missing one is a TypeError. */
  function SortRemainingGateAsWritten(open: Option<Crystal>, first: Option<Crystal>): (g: Gate)
    ensures g == Fault <==> open.None? || first.None?
    ensures g == Accept <==> open.Some? && first.Some? && open.value.enantiomer == first.value.enantiomer
  {
    if open.None? || first.None? then Fault
    else if open.value.enantiomer == first.value.enantiomer then Accept
    else Reject
  }

  /** The gate with both missing values handled. With nothing in the microscope the
      placement does what the base placement does with nothing open; an empty bowl holds no
      crystal of the other enantiomer, so the open crystal may go in. Wherever the gate as
      written does not fail, the two agree. */
  function SortRemainingGate(open: Option<Crystal>, first: Option<Crystal>): (g: Gate)
    ensures g != Fault
    ensures g == Ignore <==> open.None?
    ensures g == Accept <==>
      open.Some? && (first.None? || open.value.enantiomer == first.value.enantiomer)
    ensures g == Reject <==>
      open.Some? && first.Some? && open.value.enantiomer != first.value.enantiomer
    ensures SortRemainingGateAsWritten(open, first) != Fault ==>
      g == SortRemainingGateAsWritten(open, first)
  {
    if open.None? then Ignore
    else if first.None? then Accept
    else if open.value.enantiomer == first.value.enantiomer then Accept
    else Reject
  }

  /** With no crystal open, pressing G or H or clicking a bowl during "sort remaining" makes
      the gate as written dereference an undefined crystal, whatever the bowl holds. */
  lemma GateAsWrittenFaultsWithoutOpenCrystal(first: Option<Crystal>)
    ensures SortRemainingGateAsWritten(None, first) == Fault
    ensures SortRemainingGate(None, first) == Ignore
  {
  }

  /** With a crystal open and the target bowl empty, the gate as written dereferences the
      bowl's undefined first occupant, whichever crystal is open. */
  lemma GateAsWrittenFaultsOnEmptyBowl(open: Crystal)
    ensures SortRemainingGateAsWritten(Some(open), None) == Fault
    ensures SortRemainingGate(Some(open), None) == Accept
  {
  }

  /** The first occupant of a bowl, if it has one. */
  function FirstIn(cs: seq<Crystal>, loc: Location): (r: Option<Crystal>)
    ensures r.Some? ==> r.value in cs && r.value.location == loc
    ensures r.None? <==> InLocation(cs, loc) == []
  {
    var inBowl := InLocation(cs, loc);
    if inBowl == [] then None else Some(inBowl[0])
  }

  /** The open crystal, if there is one. */
  function OpenCrystal(cs: seq<Crystal>): (r: Option<Crystal>)
    ensures r.None? <==> Find(cs, Microscope) == None
    ensures r.Some? ==> r.value == cs[Find(cs, Microscope).value]
  {
    match Find(cs, Microscope)
    case None => None
    case Some(k) => Some(cs[k])
  }

  /** The i-th crystal of the tutorial's batch: on the table with its drawn weight, and of
      the enantiomers R, S, R, S for the first four, its random draw after them. */
  predicate IsTutorialCrystal(c: Crystal, i: nat, weights: seq<real>, draws: seq<Enantiomer>)
    requires i < |weights| && i < |draws|
  {
    c.location == Table && c.weight == weights[i] &&
    c.enantiomer == if i < 4 then [R, S, R, S][i] else draws[i]
  }

  /** What the tutorial's bowl placement did. */
  datatype TutorialPlacement =
    | BasePlacement(p: Placement)
    | Accepted(p: Placement, advanced: bool)
    | Rejected(shake: bool)
    | Ignored

  // ---------------------------------------------------------------------------------
  // The scene
  // ---------------------------------------------------------------------------------

  class TutorialScene {
    const game: BasicGameScene
    const manager: StateManager
    const numberOfCrystals: nat
    var steps: seq<Step>
    var listeners: seq<Listener>

    /** The manager walks the tutorial's order; every registered listener is one its owner's
        setup registers, and a persistent one belongs to the current state. */
    ghost predicate Valid()
      reads this, game, manager
    {
      game.Valid() && manager.listOfStates == TutorialOrder &&
      ListenersValid(listeners, StateAt(manager.currentState))
    }

    /** Creates the scene's crystals and enters HANDS_INTRO. */
    constructor(opts: Options, numberOfCrystals: nat, weights: seq<real>, draws: seq<Enantiomer>)
      requires |weights| == numberOfCrystals && |draws| == numberOfCrystals
      requires forall i :: 0 <= i < numberOfCrystals ==> InWeightRange(weights[i])
      ensures Valid() && fresh(game) && fresh(manager)
      ensures this.numberOfCrystals == numberOfCrystals
      ensures manager.currentState == 0 && manager.GetCurrentState() == Some(HandsIntro)
      ensures steps == [Setup(HandsIntro)] && listeners == []
      ensures |game.allCrystals| == numberOfCrystals
      ensures forall i :: 0 <= i < |game.allCrystals| ==>
        IsTutorialCrystal(game.allCrystals[i], i, weights, draws)
    {
      game := new BasicGameScene(opts);
      manager := new StateManager(TutorialOrder);
      this.numberOfCrystals := numberOfCrystals;
      steps := [Setup(HandsIntro)];
      listeners := [];
      new;
      CreateCrystals(weights, draws);
    }

    /** Adds the tutorial's batch: `numberOfCrystals` crystals whose first four are forced
        to R, S, R, S. */
    method CreateCrystals(weights: seq<real>, draws: seq<Enantiomer>)
      requires game.Valid()
      requires |weights| == numberOfCrystals && |draws| == numberOfCrystals
      requires forall i :: 0 <= i < numberOfCrystals ==> InWeightRange(weights[i])
      modifies game`allCrystals
      ensures game.Valid()
      ensures |game.allCrystals| == |old(game.allCrystals)| + numberOfCrystals
      ensures game.allCrystals[..|old(game.allCrystals)|] == old(game.allCrystals)
      ensures forall i :: |old(game.allCrystals)| <= i < |game.allCrystals| ==>
        IsTutorialCrystal(game.allCrystals[i], i - |old(game.allCrystals)|, weights, draws)
    {
      ghost var start := |game.allCrystals|;
      game.CreateCrystals(numberOfCrystals, Some([R, S, R, S]), weights, draws);
      forall i | start <= i < |game.allCrystals|
        ensures IsTutorialCrystal(game.allCrystals[i], i - start, weights, draws)
      {
        assert game.allCrystals[start + (i - start)] ==
          NewCrystal(game.opts.grid, Some([R, S, R, S]), weights, draws, i - start);
      }
    }

    /** Runs the current state's cleanup and the next state's setup (nothing in END or past
        the list), then advances the manager. */
    method NextTutorialState()
      requires Valid()
      modifies this`steps, this`listeners, manager`currentState
      ensures Valid()
      ensures manager.currentState == old(manager.currentState) + 1
      ensures steps == old(steps) + Transition(old(manager.GetCurrentState()))
      ensures listeners == ListenersAfter(old(listeners), old(manager.GetCurrentState()))
    {
      var current := manager.GetCurrentState();
      assert current == StateAt(manager.currentState);
      TransitionKeepsListenersValid(listeners, manager.currentState);
      if current.Some? && Successor(current.value).Some? {
        var s := current.value;
        var next := Successor(s).value;
        steps := steps + [Cleanup(s), Setup(next)];
        listeners := Off(Off(listeners, CleanupOff(s)), SetupOff(next)) + SetupListeners(next);
      }
      manager.NextState();
    }

    /** The tutorial's bowl placement: outside SORTREMAINING the base placement runs
        unchanged; in SORTREMAINING the gate decides (see `SortRemainingPutInBowl`). The
        microscope is hidden either way. */
    method PutInBowl(bowl: Bowl) returns (outcome: TutorialPlacement)
      requires Valid()
      modifies this`steps, this`listeners, manager`currentState, game`allCrystals, game`eeLeft,
               game`eeRight, game`averageEE, game`face, game`microscopeVisible
      ensures Valid()
      ensures !game.microscopeVisible
      ensures old(manager.GetCurrentState()) != Some(SortRemaining) ==>
        outcome.BasePlacement? &&
        PlacementEffect(game.opts, bowl, old(game.allCrystals), old(game.CurrentReadings()),
                        game.allCrystals, game.CurrentReadings(), outcome.p) &&
        manager.currentState == old(manager.currentState) && steps == old(steps) &&
        listeners == old(listeners)
      ensures old(manager.GetCurrentState()) == Some(SortRemaining) ==>
        SortRemainingOutcome(game.opts, bowl, old(game.allCrystals), old(game.CurrentReadings()),
                             game.allCrystals, game.CurrentReadings(), outcome,
                             manager.currentState - old(manager.currentState),
                             old(steps), steps, old(listeners), listeners)
    {
      if manager.GetCurrentState() == Some(SortRemaining) {
        outcome := SortRemainingPutInBowl(bowl);
      } else {
        var p := game.PutInBowl(bowl);
        outcome := BasePlacement(p);
      }
    }

    /** The placement in SORTREMAINING. A crystal matching the bowl's first occupant goes in
        through the base placement, and the tutorial moves on to END once every crystal is
        sorted; a mismatching one goes back to the table with the bowls and readings as they
        were, and the camera shakes. */
    method SortRemainingPutInBowl(bowl: Bowl) returns (outcome: TutorialPlacement)
      requires Valid() && manager.GetCurrentState() == Some(SortRemaining)
      modifies this`steps, this`listeners, manager`currentState, game`allCrystals, game`eeLeft,
               game`eeRight, game`averageEE, game`face, game`microscopeVisible
      ensures Valid()
      ensures !game.microscopeVisible
      ensures SortRemainingOutcome(game.opts, bowl, old(game.allCrystals), old(game.CurrentReadings()),
                                   game.allCrystals, game.CurrentReadings(), outcome,
                                   manager.currentState - old(manager.currentState),
                                   old(steps), steps, old(listeners), listeners)
    {
      var before := game.allCrystals;
      ghost var r0, c0, steps0, listeners0 :=
        game.CurrentReadings(), manager.currentState, steps, listeners;
      var gate := SortRemainingGate(OpenCrystal(before), FirstIn(before, BowlLocation(bowl)));
      if gate == Accept {
        outcome := AcceptPlacement(bowl);
        assert SortRemainingOutcome(game.opts, bowl, before, r0, game.allCrystals, game.CurrentReadings(),
          outcome, manager.currentState - c0, steps0, steps, listeners0, listeners);
      } else if gate == Reject {
        outcome := RejectPlacement();
        assert SortRemainingOutcome(game.opts, bowl, before, r0, game.allCrystals, game.CurrentReadings(),
          outcome, manager.currentState - c0, steps0, steps, listeners0, listeners);
      } else {
        outcome := IgnorePlacement(bowl);
        assert SortRemainingOutcome(game.opts, bowl, before, r0, game.allCrystals, game.CurrentReadings(),
          outcome, manager.currentState - c0, steps0, steps, listeners0, listeners);
      }
    }

    /** A mismatching crystal: the camera shakes and the open crystal goes back to the
        table; the bowls, the readings and the tutorial stay as they were. */
    method RejectPlacement() returns (outcome: TutorialPlacement)
      requires Valid()
      modifies game`allCrystals, game`microscopeVisible
      ensures Valid()
      ensures outcome == Rejected(true) && !game.microscopeVisible
      ensures game.allCrystals == ReturnToTable(old(game.allCrystals))
      ensures InLocation(game.allCrystals, BowlLeft) == InLocation(old(game.allCrystals), BowlLeft)
      ensures InLocation(game.allCrystals, BowlRight) == InLocation(old(game.allCrystals), BowlRight)
    {
      ReturnToTableKeepsBowls(game.allCrystals, BowlLeft);
      ReturnToTableKeepsBowls(game.allCrystals, BowlRight);
      game.PutBackOnTable();
      outcome := Rejected(true);
    }

    /** With nothing open the base placement only hides the microscope. */
    method IgnorePlacement(bowl: Bowl) returns (outcome: TutorialPlacement)
      requires Valid() && OpenCrystal(game.allCrystals).None?
      modifies game`allCrystals, game`eeLeft, game`eeRight, game`averageEE, game`face,
               game`microscopeVisible
      ensures Valid()
      ensures outcome == Ignored && !game.microscopeVisible
      ensures game.allCrystals == old(game.allCrystals)
      ensures game.CurrentReadings() == old(game.CurrentReadings())
    {
      var p := game.PutInBowl(bowl);
      outcome := Ignored;
    }

    /** A matching crystal goes in through the base placement; once every crystal is sorted
        the tutorial moves from SORTREMAINING to END. */
    method AcceptPlacement(bowl: Bowl) returns (outcome: TutorialPlacement)
      requires Valid() && manager.GetCurrentState() == Some(SortRemaining)
      modifies this`steps, this`listeners, manager`currentState, game`allCrystals, game`eeLeft,
               game`eeRight, game`averageEE, game`face, game`microscopeVisible
      ensures Valid()
      ensures !game.microscopeVisible
      ensures outcome.Accepted?
      ensures PlacementEffect(game.opts, bowl, old(game.allCrystals), old(game.CurrentReadings()),
                              game.allCrystals, game.CurrentReadings(), outcome.p)
      ensures outcome.advanced == AllSorted(game.allCrystals)
      ensures manager.currentState == old(manager.currentState) + (if outcome.advanced then 1 else 0)
      ensures steps == old(steps) + (if outcome.advanced then [Cleanup(SortRemaining), Setup(End)] else [])
      ensures listeners == if outcome.advanced then ListenersAfter(old(listeners), Some(SortRemaining))
                           else old(listeners)
    {
      var p := game.PutInBowl(bowl);
      var advanced := FinishIfSorted();
      outcome := Accepted(p, advanced);
    }

    /** After an accepted placement: once every crystal is sorted, the tutorial moves from
        SORTREMAINING to END; otherwise it stays. */
    method FinishIfSorted() returns (advanced: bool)
      requires Valid() && manager.GetCurrentState() == Some(SortRemaining)
      modifies this`steps, this`listeners, manager`currentState
      ensures Valid()
      ensures advanced == AllSorted(game.allCrystals)
      ensures manager.currentState == old(manager.currentState) + (if advanced then 1 else 0)
      ensures steps == old(steps) + (if advanced then [Cleanup(SortRemaining), Setup(End)] else [])
      ensures listeners == if advanced then ListenersAfter(old(listeners), Some(SortRemaining))
                           else old(listeners)
    {
      advanced := AllSorted(game.allCrystals);
      if advanced {
        NextTutorialState();
      }
    }
  }

  /** The effect of a SORTREMAINING placement on the crystals `before` → `after`, the
      readings `r0` → `r`, the number of states advanced, the routines run and the listeners
      registered. Only an accepted placement changes the readings, and only an accepted
      placement that sorts the last crystal moves the tutorial on. */
  ghost predicate SortRemainingOutcome(opts: Options, bowl: Bowl,
                                       before: seq<Crystal>, r0: Readings,
                                       after: seq<Crystal>, r: Readings,
                                       outcome: TutorialPlacement, advancedBy: int,
                                       oldSteps: seq<Step>, steps: seq<Step>,
                                       oldListeners: seq<Listener>, listeners: seq<Listener>)
  {
    var gate := SortRemainingGate(OpenCrystal(before), FirstIn(before, BowlLocation(bowl)));
    (gate == Accept ==>
      outcome.Accepted? && PlacementEffect(opts, bowl, before, r0, after, r, outcome.p) &&
      outcome.advanced == AllSorted(after) &&
      Advanced(outcome.advanced, advancedBy, oldSteps, steps, oldListeners, listeners)) &&
    (gate == Reject ==>
      outcome == Rejected(true) && after == ReturnToTable(before) &&
      InLocation(after, BowlLeft) == InLocation(before, BowlLeft) &&
      InLocation(after, BowlRight) == InLocation(before, BowlRight) &&
      r == r0 && Advanced(false, advancedBy, oldSteps, steps, oldListeners, listeners)) &&
    (gate == Ignore ==>
      outcome == Ignored && after == before && r == r0 &&
      Advanced(false, advancedBy, oldSteps, steps, oldListeners, listeners))
  }

  /** The tutorial moved from SORTREMAINING to END (one state, its cleanup and END's setup
      run, the listeners changed accordingly) if `advanced`, and stayed put otherwise. */
  ghost predicate Advanced(advanced: bool, advancedBy: int, oldSteps: seq<Step>, steps: seq<Step>,
                           oldListeners: seq<Listener>, listeners: seq<Listener>)
  {
    advancedBy == (if advanced then 1 else 0) &&
    steps == oldSteps + (if advanced then [Cleanup(SortRemaining), Setup(End)] else []) &&
    listeners == if advanced then ListenersAfter(oldListeners, Some(SortRemaining))
                 else oldListeners
  }
}
