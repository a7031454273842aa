# Pasteur's crystal sorting game — a verified model of its core

The game puts a mixture of chiral crystals on a table. The player opens one crystal at a
time in a microscope, inspects it, and puts it into the left or the right bowl. Purity is
measured as enantiomeric excess (%ee), computed per bowl and as a weight-weighted average,
and the final score rewards purity and speed. A scripted tutorial walks the player through
the same scene, and a home menu starts the game.

This project models that core in Dafny:

- `wrappers.dfy` — `Option`, used wherever the JavaScript returns `undefined`.
- `crystals.dfy` — the crystal record, its locations, and the scenes' `find` and `filter`
  over the list of crystals.
- `purity.dfy` — %ee of a group, the weighted average of the two bowls, and the score.
- `timeformat.dfy` — the `mm:ss` rendering of the elapsed time, with a reader as its
  inverse.
- `tablegrid.dfy` — the grid positions of newly created crystals.
- `basicgame.dfy` — the game scene as a class. It creates crystals, opens one in the
  microscope, puts it in a bowl (recomputing %ee, deciding the camera shake and the face of
  Pasteur's head) or back on the table, and handles the space key, the drag flag and the
  rotation keys.
- `tutorialstates.dfy` — the tutorial states and the forward-only state manager.
- `tutorial.dfy` — the tutorial scene. It covers the state sequencing (cleanup of the
  current state, then setup of the next), the listeners each setup registers and each
  cleanup removes, the forced R, S, R, S crystal batch, and the bowl gate of the "sort
  remaining" state.
- `home.dfy` — the home menu: cyclic selection over an array of item styles, the
  highlight, and the Enter/Space action.
- `hand.dfy` — the flippable hand sprite.

Methods that change state are proved against specification functions. For example, the
game scene's `PutInBowl` leaves `allCrystals == PlaceOpen(old(allCrystals), bowl)`, and
`PlaceOpenEffect` proves what that means for the bowls. The scene invariant "weights in
range and at most one crystal in the microscope" is kept by every method.

The model follows the code, with two deliberate departures (the first two points below)
and the other points below:

- The manager as shipped (`src/helper/TutorialStateManager.ts:5-8`) lists only
  HANDS_INTRO and END, while the scene's switch at `src/scenes/TutorialScene.ts:170-221`
  steps through thirteen states. With that list the first transition runs the hands
  intro's cleanup and the hands-flip setup, and the manager then already reports END. No
  later transition runs anything, and SORTREMAINING is never reached
  (`Tutorial.ShippedManagerSkipsToEnd`). The scene model instead gives the manager the
  thirteen states in the switch's order (`TutorialStates.TutorialOrder`), so that the
  course the switch describes can be verified. This departure is listed under Findings
  and under Left out.
- The SORTREMAINING placement at `src/scenes/TutorialScene.ts:122-147` reads the
  enantiomer of the open crystal and of the bowl's first crystal without checking that
  either exists, so it throws a TypeError with nothing open or with an empty bowl. The
  scene model uses the corrected gate `Tutorial.SortRemainingGate` instead: with nothing
  open the placement only hides the microscope, and a crystal for an empty bowl goes in.
  The gate as written is `Tutorial.SortRemainingGateAsWritten`. This departure is listed
  under Findings and under Left out.
- `getCurrentState` indexes past the end of the list once END has been left (the
  "continue" listener stays registered). JavaScript then gives `undefined`. The model
  returns `None`, and every caller handles it the way the source's comparisons do.
- The location enum in `src/helper/types.ts:1-5` has a single `BOWL`. The scenes use
  `BOWLLEFT` and `BOWLRIGHT`, so the model has four locations.
- The shown `src/sprites/Crystal.ts` constructor takes only the scene and draws weight and
  enantiomer at random. The scenes pass a position, an optional weight and an optional
  enantiomer. The model follows the scenes: a given enantiomer is used, and a missing one
  is a random draw, passed in as a parameter.

## Model

| member | source | states |
|---|---|---|
| Crystals.BowlLocation | src/scenes/BasicGameScene.ts:297-304 | each bowl key or click names its own bowl location, and the two are different |
| Crystals.InLocation | src/scenes/BasicGameScene.ts:356-358 | `getCrystalInBowl` keeps exactly the crystals at that location, never more than the list holds |
| Crystals.Find | src/scenes/BasicGameScene.ts:351-353 | `getOpenCrystal` gives the first crystal in the microscope; None exactly when no crystal is there |
| Purity.OfEnantiomer | src/scenes/BasicGameScene.ts:394-395 | the R or S group holds only crystals of that enantiomer, taken from the input |
| Purity.EE | src/scenes/BasicGameScene.ts:391-411 | a group whose R and S weights are equal (in particular an empty group, the NaN case) reads 0 %ee |
| Purity.TotalWeightPermutation | src/scenes/BasicGameScene.ts:398-399 | the summed weight of a group does not depend on the order of its crystals |
| Purity.TotalWeight | src/scenes/BasicGameScene.ts:398-399 | the summed weight is 0 for an empty group and the crystal's own weight for a single crystal |
| Purity.TotalWeightBounds | src/scenes/BasicGameScene.ts:417-418 | for crystals drawn from the weight range, the total lies between the count times 0.75 and the count times 1.25 |
| Purity.ExcessPercent | src/scenes/BasicGameScene.ts:402-409 | the NaN of an empty group becomes 0, equal R and S weights give 0, a group of one enantiomer only gives 100, and nonnegative weights give a value from 0 to 100 |
| Purity.EERange | src/scenes/BasicGameScene.ts:391-411 | %ee of positive-weight crystals lies in [0, 100], and an empty group gives 0 instead of NaN |
| Purity.EEPure | src/scenes/BasicGameScene.ts:391-411 | a nonempty group of one enantiomer has 100 %ee |
| Purity.EERacemic | src/scenes/BasicGameScene.ts:391-411 | equal R and S weights give 0 %ee |
| Purity.EEPermutation | src/scenes/BasicGameScene.ts:391-411 | %ee depends only on the multiset of crystals, not their order |
| Purity.EEScenarios | src/scenes/BasicGameScene.ts:391-411 | one R crystal gives 100 %ee; one R and one S of equal weight give 0 %ee |
| Purity.AverageEEBetween | src/scenes/BasicGameScene.ts:414-431 | the weighted average is 0 when both bowls are empty (the NaN case) and otherwise lies between the two bowls' values |
| Purity.AverageEE | src/scenes/BasicGameScene.ts:414-431 | with zero total bowl weight (the NaN case) the average is 0; otherwise the average times the total weight is the weight-weighted sum of the two bowls' values |
| Purity.WeightedMeanBetween | src/scenes/BasicGameScene.ts:421-422 | with positive total weight, the weighted mean of two values lies between them |
| Purity.WeightedMean | src/scenes/BasicGameScene.ts:421-422 | with zero total weight the mean is 0; otherwise the mean times the total weight is the weighted sum, which is what makes it a weighted mean |
| Purity.AverageEEOneBowl | src/scenes/BasicGameScene.ts:414-431 | with one bowl empty, the average equals the other bowl's %ee |
| Purity.AverageEESymmetric | src/scenes/BasicGameScene.ts:414-431 | swapping the bowls together with their values does not change the average |
| Purity.BowlsAverageEERange | src/scenes/BasicGameScene.ts:361-387 | the average stored after `calculateEEInBowls` lies in [0, 100] |
| Purity.Score | src/scenes/BasicGameScene.ts:545-549 | a zero average, par time or multiplier scores 0; positive ones score above 0 |
| Purity.ScoreAtPar | src/scenes/BasicGameScene.ts:545-549 | finishing exactly at par time scores average %ee times the multiplier |
| Purity.ScoreFasterIsHigher | src/scenes/BasicGameScene.ts:545-549 | with positive average, par time and multiplier, a faster finish scores strictly more |
| Purity.ScoreScenario | src/scenes/BasicGameScene.ts:545-549 | 80 %ee after 15 s with par 30 s and multiplier 1000 scores 160000 |
| TimeFormat.Decimal | src/scenes/BasicGameScene.ts:536-537 | `toString` of a whole number is a nonempty string of decimal digits |
| TimeFormat.DecimalValue | src/scenes/BasicGameScene.ts:536-537 | the digits of `toString` read back as the number itself |
| TimeFormat.PadStartZeros | src/scenes/BasicGameScene.ts:536-537 | `padStart(2, '0')` keeps the digits' value and reaches the width |
| TimeFormat.PadStart | src/scenes/BasicGameScene.ts:536-537 | the padded string has the target width, or its own length when already that wide, in which case it is unchanged |
| TimeFormat.FormatTime | src/scenes/BasicGameScene.ts:529-541 | the rendering is at least five characters: digits, a colon, and exactly two digits |
| TimeFormat.ParseFormatTime | src/scenes/BasicGameScene.ts:529-541 | `formatTime` gives minutes, a colon and two second digits, seconds below 60; reading it back gives floor(t/60000) and floor((t mod 60000)/1000) |
| TimeFormat.FormatTimeSameSecond | src/scenes/BasicGameScene.ts:529-541 | two times render the same exactly when they agree in whole seconds |
| TableGrid.GridWithinMargins | src/scenes/BasicGameScene.ts:223-248 | each new crystal lies right of the left margin, and within the right margin unless it is a row start |
| TableGrid.GridPosition | src/scenes/BasicGameScene.ts:231-239 | every position lies within the right margin (1 - startX) unless it is a row start at startX |
| TableGrid.Wrap | src/scenes/BasicGameScene.ts:236-239 | past the right margin the position returns to the start column, one row lower; within it the position is unchanged |
| TableGrid.GridStep | src/scenes/BasicGameScene.ts:231-239 | each next crystal lies one distance to the right, or at the start of the next row |
| TableGrid.GridOrdered | src/scenes/BasicGameScene.ts:223-248 | with positive spacing, positions strictly increase in reading order |
| TableGrid.GridDistinct | src/scenes/BasicGameScene.ts:223-248 | no two crystals of a batch share a grid cell |
| BasicGame.HeadFrame | src/scenes/BasicGameScene.ts:470-482 | the head's frames 0, 1, 2 name the neutral, sad and happy faces, one frame each |
| BasicGame.CrossedIffZoneChanged | src/scenes/BasicGameScene.ts:455-465 | the `change` flag is set exactly when the new average lies in a different face zone than the previous one |
| BasicGame.ThresholdCrossed | src/scenes/BasicGameScene.ts:455-465 | a threshold is crossed only when the average changed |
| BasicGame.FaceDecision | src/scenes/BasicGameScene.ts:467-483 | with fewer than two crystals placed the face stays; Happy is set only at or above the happy limit, Sad only at or below the sad limit, Neutral only below the happy limit and on a crossing; an unchanged average changes the face only at exactly two placed |
| BasicGame.FaceDecisionByZone | src/scenes/BasicGameScene.ts:467-483 | the face changes only with two or more crystals placed, and then exactly on a zone change or at exactly two placed outside the neutral zone; it changes to the new zone's face |
| BasicGame.KeyRotation | src/scenes/BasicGameScene.ts:111-128 | each axis turns in {-1, 0, 1}: negative exactly when only W/Up (A/Left) is held, positive exactly when only S/Down (D/Right) is held |
| BasicGame.ReturnToTable | src/scenes/BasicGameScene.ts:501-509 | every microscope crystal goes to the table, the others are unchanged, and the microscope is left empty |
| BasicGame.PlaceOpen | src/scenes/BasicGameScene.ts:434-443 | placing keeps the number of crystals, and with no crystal open changes nothing |
| BasicGame.PlaceOpenEffect | src/scenes/BasicGameScene.ts:434-443 | placing the open crystal puts exactly that crystal into the chosen bowl (one more there), leaves the other bowl and every other crystal unchanged, empties the microscope and keeps the invariant |
| BasicGame.ChosenEnantiomer | src/scenes/BasicGameScene.ts:241-243 | a supplied enantiomer sequence decides the i-th crystal's enantiomer where it has an entry; otherwise the crystal's own random draw does |
| BasicGame.NewCrystal | src/scenes/BasicGameScene.ts:245 | each new crystal lies on the table at its grid cell, clickable, with its drawn weight and chosen enantiomer |
| BasicGame.ReturnToTableKeepsBowls | src/scenes/BasicGameScene.ts:501-509 | returning to the table leaves both bowls' contents unchanged |
| BasicGame.CloseOpenCrystal | src/scenes/BasicGameScene.ts:285-288 | moving the open crystal out of the microscope leaves it empty and keeps the invariant |
| BasicGame.AllSortedIffNoneLeft | src/scenes/BasicGameScene.ts:575-579 | all crystals are sorted exactly when none is on the table or in the microscope |
| Crystals.AllSorted | src/scenes/BasicGameScene.ts:575-579 | once every crystal is sorted, none is on the table and none is in the microscope |
| Crystals.PlacedCount | src/scenes/BasicGameScene.ts:467 | the two bowls together hold at most all crystals, all of them exactly when every crystal is sorted, and none exactly when no crystal lies in a bowl |
| Crystals.BowlCounts | src/scenes/BasicGameScene.ts:467 | the same three facts about the two bowl filters, by induction over the crystal list |
| BasicGame.BasicGameScene.constructor | src/scenes/BasicGameScene.ts:52-69 | a new scene has no crystals, zero %ee values, a neutral face and a hidden microscope |
| BasicGame.BasicGameScene.CreateCrystals | src/scenes/BasicGameScene.ts:223-248 | n crystals are appended after the old ones; crystal i is on the table at grid cell i with its drawn weight, and the forced enantiomer where the sequence has entry i; the bowls are unchanged |
| BasicGame.BasicGameScene.CalculateEEInBowls | src/scenes/BasicGameScene.ts:361-387 | the stored %ee values are those of the crystals now in each bowl, and the average is their weighted mean |
| BasicGame.BasicGameScene.PutInBowl | src/scenes/BasicGameScene.ts:434-498 | the crystals become `PlaceOpen` of the old ones; with nothing open, nothing else changes; otherwise %ee is recomputed, the shake happens exactly when the average fell, and the face follows `FaceDecision`; the microscope is hidden either way; the same effect is also stated as one predicate (`PlacementEffect`) for callers |
| BasicGame.BasicGameScene.PutBackOnTable | src/scenes/BasicGameScene.ts:501-513 | the crystals become `ReturnToTable` of the old ones, and the microscope is hidden |
| BasicGame.BasicGameScene.PutInMicroscope | src/scenes/BasicGameScene.ts:516-526 | the clicked crystal is opened only when none is open, so at most one is ever open |
| BasicGame.BasicGameScene.SpaceKey | src/scenes/BasicGameScene.ts:284-296 | with a crystal open it goes back to the table; otherwise the first table crystal, if any, is opened |
| BasicGame.BasicGameScene.PointerDown | src/scenes/BasicGameScene.ts:334-342 | a press starts a drag exactly when a crystal is open |
| BasicGame.BasicGameScene.PointerUp | src/scenes/BasicGameScene.ts:344-346 | releasing the pointer always ends the drag |
| TutorialStates.StateManager.constructor | src/helper/TutorialStateManager.ts:5-13 | the manager starts at index 0, so the current state is the list's first |
| TutorialStates.StateManager.GetCurrentState | src/helper/TutorialStateManager.ts:16-18 | the state at the index, or None (JavaScript's `undefined`) once the index has run past the list |
| TutorialStates.StateManager.NextState | src/helper/TutorialStateManager.ts:21-23 | the index moves forward by exactly one, without an upper bound |
| Tutorial.Successor | src/scenes/TutorialScene.ts:168-225 | every state but END has a next state; no state is followed by itself or by HANDS_INTRO |
| Tutorial.Transition | src/scenes/TutorialScene.ts:168-225 | a transition runs nothing from END or past the list, and otherwise exactly two routines: the current state's cleanup, then another state's setup |
| Tutorial.SetupListeners | src/scenes/TutorialScene.ts:227-667 | a setup registers at most two listeners, all owned by its state; HANDS_INTRO and END register none |
| Tutorial.CleanupOff | src/scenes/TutorialScene.ts:246-673 | a cleanup switches off only events its own state's setup listened to |
| Tutorial.SetupOff | src/scenes/BasicGameScene.ts:585-586 | only END's setup (the scene cleanup) switches events off, and it switches off the event of every listener registered with `on`, so none of them survives into END |
| Tutorial.ListenersAfter | src/scenes/TutorialScene.ts:168-225 | with no transition the listeners are unchanged; otherwise they are the old ones not switched off by the cleanup or by END's setup, plus the new state's own |
| Tutorial.Off | src/scenes/TutorialScene.ts:294-297 | `events.off` removes exactly the listeners on the named events |
| Tutorial.TutorialOrderFollowsSwitch | src/scenes/TutorialScene.ts:168-225 | the manager's order follows the switch: each state is followed by the state whose setup the switch runs, and END has none |
| Tutorial.TransitionKeepsListenersValid | src/scenes/TutorialScene.ts:168-225 | across every transition, each registered listener stays one its owner's setup registers, and every listener registered with `on` belongs to the current state |
| Tutorial.PersistentListenersHaveCleanup | src/scenes/TutorialScene.ts:253-306 | every listener a setup registers with `on` is switched off by the same state's cleanup |
| Tutorial.SortRemainingGateAsWritten | src/scenes/TutorialScene.ts:125 | as written, the gate fails exactly when no crystal is open or the bowl is empty, and accepts exactly when the enantiomers match |
| Tutorial.SortRemainingGate | src/scenes/TutorialScene.ts:122-147 | corrected gate: it never fails; with nothing open it ignores the placement; it accepts into an empty bowl or onto a matching enantiomer and rejects a mismatch; wherever the gate as written does not fail, the two agree |
| Tutorial.GateAsWrittenFaultsWithoutOpenCrystal | src/scenes/TutorialScene.ts:125 | with no open crystal the gate as written dereferences `undefined` whatever the bowl holds, where the corrected gate ignores the placement |
| Tutorial.GateAsWrittenFaultsOnEmptyBowl | src/scenes/TutorialScene.ts:125 | with a crystal open and the target bowl empty, the gate as written dereferences `undefined`, where the corrected gate accepts |
| Tutorial.ShippedManagerSkipsToEnd | src/helper/TutorialStateManager.ts:5-8 | with the shipped two-entry list, three transitions see HANDS_INTRO, END, then nothing; only the hands intro's cleanup and the hands-flip setup run, and SORTREMAINING is never current |
| Tutorial.FirstIn | src/scenes/TutorialScene.ts:125 | `getCrystalInBowl(location)[0]` is a crystal of that bowl, and is absent exactly when the bowl is empty |
| Tutorial.OpenCrystal | src/scenes/TutorialScene.ts:125 | `getOpenCrystal()` is the first microscope crystal, absent exactly when none is open |
| Tutorial.TutorialScene.constructor | src/scenes/TutorialScene.ts:30-42 | the scene starts in HANDS_INTRO with its setup run and no listeners; its batch is on the table, with enantiomers R, S, R, S for the first four crystals |
| Tutorial.TutorialScene.CreateCrystals | src/scenes/TutorialScene.ts:112-116 | the tutorial batch is appended, forced to R, S, R, S for its first four crystals and drawn after them |
| Tutorial.TutorialScene.NextTutorialState | src/scenes/TutorialScene.ts:168-225 | the current state's cleanup runs, then the next state's setup (neither in END or past the list); the listeners change accordingly; the manager always advances by one |
| Tutorial.TutorialScene.PutInBowl | src/scenes/TutorialScene.ts:119-153 | outside SORTREMAINING the base placement runs with its whole effect (crystals, %ee, shake, face) and the tutorial's state, routines and listeners stay; in SORTREMAINING the gate decides; the microscope is hidden either way |
| Tutorial.TutorialScene.SortRemainingPutInBowl | src/scenes/TutorialScene.ts:122-147 | a matching crystal (or one for an empty bowl) gets the base placement's whole effect; a mismatching one goes back to the table with a shake, with bowls, %ee, face, state, routines and listeners unchanged; with nothing open nothing changes but the microscope is hidden |
| Tutorial.TutorialScene.AcceptPlacement | src/scenes/TutorialScene.ts:125-135 | the base placement runs with its whole effect, and the tutorial moves to END (cleanup SORTREMAINING, setup END, listeners changed accordingly) exactly when every crystal is now sorted; otherwise state, routines and listeners stay |
| Tutorial.TutorialScene.FinishIfSorted | src/scenes/TutorialScene.ts:132-134 | the tutorial moves from SORTREMAINING to END (cleanup SORTREMAINING, setup END, listeners changed accordingly) exactly when every crystal is sorted, and otherwise stays |
| Tutorial.TutorialScene.RejectPlacement | src/scenes/TutorialScene.ts:137-145 | the camera shakes and the open crystal goes back to the table; both bowls keep their contents; the microscope is hidden |
| Tutorial.TutorialScene.IgnorePlacement | src/scenes/BasicGameScene.ts:434-498 | with nothing open, the base placement leaves the crystals and the readings as they were and hides the microscope |
| Home.NextIndex | src/scenes/HomeScene.ts:95-108 | from an entry of the menu the next index is an entry of the menu, and below the last entry it moves forward |
| Home.PreviousIndex | src/scenes/HomeScene.ts:111-124 | from an entry of the menu the previous index is an entry of the menu, and above the first entry it moves back |
| Home.IndexStepsAreModular | src/scenes/HomeScene.ts:95-124 | moving down or up stays within the menu and equals stepping by one modulo its length |
| Home.NextPreviousRoundTrip | src/scenes/HomeScene.ts:95-124 | down then up, or up then down, returns to the same entry |
| Home.StepsWrapOnce | src/scenes/HomeScene.ts:95-108 | up to n presses of down walk forward, wrapping once past the last entry |
| Home.NextCycles | src/scenes/HomeScene.ts:95-108 | pressing down once per entry returns to the start, and not earlier |
| Home.ActionOf | src/scenes/HomeScene.ts:163-180 | the how-to and credits entries (1 and 2) only log, each exactly at its own index; every other index, in the menu or not, starts the game (the switch's default) |
| Home.ActionMatchesEntry | src/scenes/HomeScene.ts:163-180 | each entry's action is the one its text names: Start starts the game, the other two only log |
| Home.HomeScene.constructor | src/scenes/HomeScene.ts:22-92 | the menu has one item per entry, the first selected and highlighted |
| Home.HomeScene.HighlightSelected | src/scenes/HomeScene.ts:137-145 | afterwards exactly the selected item has the active style |
| Home.HomeScene.SelectNext | src/scenes/HomeScene.ts:95-108 | the selection becomes the next index, wrapping to 0, and stays highlighted |
| Home.HomeScene.SelectPrevious | src/scenes/HomeScene.ts:111-124 | the selection becomes the previous index, wrapping to the last, and stays highlighted |
| Home.HomeScene.SelectSpecific | src/scenes/HomeScene.ts:79-86 | hovering or clicking entry i selects and highlights i |
| Home.HomeScene.SpaceEnterKey | src/scenes/HomeScene.ts:163-180 | the action is the selected entry's: Start starts the game exactly when it is selected, the other two only log; any other index would start the game by default |
| Hand.FrameFor | src/sprites/Hand.ts:22-27 | the frame is 0 exactly when the front is shown, 1 otherwise |
| Hand.Hand.constructor | src/sprites/Hand.ts:5-15 | a hand starts unflippable, showing its front at frame 0; the left one is mirrored |
| Hand.Hand.PointerDown | src/sprites/Hand.ts:19-33 | when flippable the side toggles and 'flipped' is emitted once; otherwise nothing changes; the frame always shows the side |
| Hand.Hand.FlipTwice | src/sprites/Hand.ts:19-33 | two flips restore the original side and frame and emit two events |

## Left out

- Rendering, audio, text boxes, arrows, fades, sprite visibility and the 3D crystal
  geometry. None of these affect the state the model tracks.
- The camera shake is modelled only as the decision to shake, not as its duration or
  intensity. Sound panning is not modelled.
- Drag rotation by pointer movement and the rotation angles of crystals. Only the per-frame
  direction from the held keys (`KeyRotation`) is modelled.
- The timer (`Date.now`, `startTime`, `timerRunning`) and the end-of-round sequence. The
  elapsed time is an input of `FormatTime` and `Score`.
- Randomness (crystal weights, unforced enantiomers) is passed in as parameters.
- Event dispatch on the scene bus is not modelled. The tutorial scene records which
  listeners are registered, but not their handlers or the removal of a `once` listener
  after it fires. So `listeners` over-approximates what Phaser holds.
- The base scene's own crystal-click listener (`src/scenes/BasicGameScene.ts:329-331`,
  which opens the clicked crystal) is not in `listeners`. `events.off(Clicks.CRYSTAL)`
  removes it too: in SORTREMAINING's cleanup (`src/scenes/TutorialScene.ts:671`) and in
  the scene cleanup (`src/scenes/BasicGameScene.ts:585`). After the tutorial reaches END,
  clicking a crystal no longer opens it; the model does not capture this.
- The tutorial's own two display crystals, the hands' visibility, and the "continue"
  button's handlers are not modelled.
- Configuration constants not shown in the source (face limits, par time, multiplier,
  grid start and spacing, tutorial crystal count) are fields of `Options` or constructor
  parameters.
- Numbers are modelled as exact reals and naturals, not IEEE doubles. `FormatTime` takes
  a natural number of milliseconds (the source floors the elapsed time before calling it).
- Score: requires an elapsed time above zero. At zero, JavaScript gives Infinity, or NaN
  for a zero average, and reals cannot represent either.
- BasicGame.BasicGameScene.CreateCrystals: new crystals are modelled with their click zone
  on. The crystal class that sets it is not part of this model.
- Tutorial.TutorialScene.SortRemainingPutInBowl: no longer models the code's TypeError
  with nothing open or with an empty target bowl. It uses the corrected gate, which ignores
  the first and accepts the second (see Findings). The failing gate as written is
  `SortRemainingGateAsWritten`.
- Tutorial.TutorialScene.constructor: gives the manager the thirteen states of the
  switch (`TutorialOrder`), not the shipped two-entry list. So the scene model does not
  reproduce the shipped tutorial, which stops after setting up HANDS_FLIP; that behaviour
  is stated separately by `ShippedManagerSkipsToEnd` (see Findings).
- Other scenes (game, loading, win), `main.ts` and the bundler configuration.

## Findings

| source | as written | input that shows it | evidently intended | confidence | as-written member | corrected member |
|---|---|---|---|---|---|---|
| src/scenes/TutorialScene.ts:125 | in SORTREMAINING, `putInBowl` reads `getOpenCrystal()!.enantiomer` without checking that a crystal is open | with the manager listing all thirteen states, press G or H, or click a bowl, in SORTREMAINING with the microscope empty: `undefined.enantiomer` throws a TypeError | as in the base scene, a placement with nothing open only hides the microscope | high (not executed) | Tutorial.SortRemainingGateAsWritten, Tutorial.GateAsWrittenFaultsWithoutOpenCrystal | Tutorial.SortRemainingGate |
| src/scenes/TutorialScene.ts:125 | in SORTREMAINING, `putInBowl` reads `getCrystalInBowl(location)[0].enantiomer` without checking that the bowl holds a crystal | with the manager listing all thirteen states: in ROTATECRYSTAL_THREE with crystal 0 open, press the G or H key of the bowl holding crystal 1 (keys bypass the disabled bowl sprite, `src/scenes/BasicGameScene.ts:298-304`); click the empty bowl to advance; click crystal 2 to reach SORTREMAINING; press the empty bowl's key: `undefined.enantiomer` throws a TypeError | an empty bowl holds no crystal of the other enantiomer, so the open crystal goes in | medium (not executed) | Tutorial.SortRemainingGateAsWritten, Tutorial.GateAsWrittenFaultsOnEmptyBowl | Tutorial.SortRemainingGate |
| src/helper/TutorialStateManager.ts:5-8 | the manager's list holds only HANDS_INTRO and END, while the scene's switch (`src/scenes/TutorialScene.ts:170-221`) steps through thirteen states | start the tutorial and press continue: the transition sets up HANDS_FLIP and the manager then reports END; flip a hand and press continue again: the transition runs nothing, so the tutorial never leaves the hands | the manager lists the thirteen states in the switch's order | medium (not executed) | Tutorial.ShippedManagerSkipsToEnd | Tutorial.TutorialOrderFollowsSwitch |
