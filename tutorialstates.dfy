/** The tutorial's states and the manager that walks forward through a list of them. */
module TutorialStates {
  import opened Wrappers

  datatype TutorialState =
    | HandsIntro | HandsFlip | ResolutionIntro | ResolutionTartrate
    | PickCrystalOne | RotateCrystalOne | PickCrystalTwo | RotateCrystalTwo
    | PickCrystalThree | RotateCrystalThree | TwoCrystalsSorted | SortRemaining | End

  /** The tutorial's states in the order the scene steps through them. */
  const TutorialOrder: seq<TutorialState> := [
    HandsIntro, HandsFlip, ResolutionIntro, ResolutionTartrate,
    PickCrystalOne, RotateCrystalOne, PickCrystalTwo, RotateCrystalTwo,
    PickCrystalThree, RotateCrystalThree, TwoCrystalsSorted, SortRemaining, End
  ]

  /** The list the manager is built with in the code as shipped: only the first and the
      last state. */
  const ShippedOrder: seq<TutorialState> := [HandsIntro, End]

  /** A forward-only index into a fixed list of states. Reading past the end of the list
      gives no state (JavaScript's `undefined`); advancing has no upper bound. */
  class StateManager {
    const listOfStates: seq<TutorialState>
    var currentState: nat

    constructor(states: seq<TutorialState>)
      ensures listOfStates == states && currentState == 0
      ensures states != [] ==> GetCurrentState() == Some(states[0])
    {
      listOfStates := states;
      currentState := 0;
    }

    /** The state at the index, or None once the index has run past the list. */
    function GetCurrentState(): (s: Option<TutorialState>)
      reads this
      ensures s.Some? <==> currentState < |listOfStates|
      ensures s.Some? ==> s.value == listOfStates[currentState]
    {
      if currentState < |listOfStates| then Some(listOfStates[currentState]) else None
    }

    /** Moves the index forward by exactly one. */
    method NextState()
      modifies this`currentState
      ensures currentState == old(currentState) + 1
    {
      currentState := currentState + 1;
    }
  }
}
