/** The home menu: a fixed list of entries, one of them selected and highlighted, moved
    cyclically by the arrow keys and confirmed with Enter or Space. */
module Home {

  /** The menu's entries, top to bottom. */
  const MenuEntries: seq<string> := ["Start", "How to Play", "Credits"]

  /** An entry's text style. */
  datatype Style = Inactive | Active

  /** What confirming the selection does: start the game scene, or only log the entry
      (the how-to and credits scenes do not exist). */
  datatype MenuAction = StartGame | LogHowTo | LogCredits

  /** The index after `selected` in a menu of n entries: the last one wraps to the first. */
  function NextIndex(selected: int, n: int): (r: int)
    ensures 0 <= selected < n ==> 0 <= r < n
    ensures 0 <= selected < n - 1 ==> r > selected
  {
    if selected >= n - 1 then 0 else selected + 1
  }

  /** The index before `selected`: the first one (or anything below it) wraps to the last. */
  function PreviousIndex(selected: int, n: int): (r: int)
    ensures 0 <= selected < n ==> 0 <= r < n
    ensures 0 < selected < n ==> r < selected
  {
    if selected <= 0 then n - 1 else selected - 1
  }

  /** Both moves stay inside the menu and agree with stepping modulo the menu's length. */
  lemma IndexStepsAreModular(selected: int, n: int)
    requires 0 <= selected < n
    ensures 0 <= NextIndex(selected, n) < n && 0 <= PreviousIndex(selected, n) < n
    ensures NextIndex(selected, n) == (selected + 1) % n
    ensures PreviousIndex(selected, n) == (selected - 1 + n) % n
  {
    if selected == n - 1 {
      assert (selected + 1) % n == n % n == 0;
    } else {
      assert (selected + 1) % n == selected + 1;
    }
    if selected == 0 {
      assert (selected - 1 + n) % n == n - 1;
    } else {
      assert (selected - 1 + n) % n == ((selected - 1) + n) % n == selected - 1;
    }
  }

  /** Moving down and then up, or up and then down, returns to the same entry. */
  lemma NextPreviousRoundTrip(selected: int, n: int)
    requires 0 <= selected < n
    ensures PreviousIndex(NextIndex(selected, n), n) == selected
    ensures NextIndex(PreviousIndex(selected, n), n) == selected
  {
  }

  /** k presses of the down key from `selected`. */
  function Steps(selected: int, n: int, k: nat): int {
    if k == 0 then selected else NextIndex(Steps(selected, n, k - 1), n)
  }

  /** Up to n presses of the down key walk forward through the menu, wrapping once past
      the last entry. */
  lemma {:induction false} StepsWrapOnce(selected: int, n: int, k: nat)
    requires 0 <= selected < n && k <= n
    ensures Steps(selected, n, k) == if selected + k < n then selected + k else selected + k - n
  {
    if k > 0 {
      StepsWrapOnce(selected, n, k - 1);
    }
  }

  /** Pressing the down key once per entry comes back to the entry it started from. */
  lemma NextCycles(selected: int, n: int)
    requires 0 <= selected < n
    ensures Steps(selected, n, n) == selected
    ensures forall k :: 0 < k < n ==> Steps(selected, n, k) != selected
  {
    StepsWrapOnce(selected, n, n);
    forall k | 0 < k < n
      ensures Steps(selected, n, k) != selected
    {
      StepsWrapOnce(selected, n, k);
    }
  }

  /** The action confirming entry `selected` triggers; any index other than the two logging
      entries starts the game (the switch's default). */
  function ActionOf(selected: int): (a: MenuAction)
    ensures a == LogHowTo <==> selected == 1
    ensures a == LogCredits <==> selected == 2
    ensures selected != 1 && selected != 2 ==> a == StartGame
  {
    if selected == 0 then StartGame
    else if selected == 1 then LogHowTo
    else if selected == 2 then LogCredits
    else StartGame
  }

  /** Each entry's action is the one its text names. */
  lemma ActionMatchesEntry(i: int)
    requires 0 <= i < |MenuEntries|
    ensures MenuEntries[i] == "Start" <==> ActionOf(i) == StartGame
    ensures MenuEntries[i] == "How to Play" <==> ActionOf(i) == LogHowTo
    ensures MenuEntries[i] == "Credits" <==> ActionOf(i) == LogCredits
  {
  }

  class HomeScene {
    var selected: int
    const items: array<Style>

    /** Exactly the selected entry is highlighted. */
    ghost predicate Highlighted()
      reads this, items
    {
      0 <= selected < items.Length &&
      forall i :: 0 <= i < items.Length ==> items[i] == (if i == selected then Active else Inactive)
    }

    ghost predicate Valid()
      reads this, items
    {
      items.Length == |MenuEntries| && Highlighted()
    }

    /** Creates one item per menu entry and highlights the first. */
    constructor()
      ensures Valid() && fresh(items)
      ensures selected == 0
    {
      selected := 0;
      items := new Style[|MenuEntries|](_ => Inactive);
      new;
      HighlightSelected();
    }

    /** Every item goes inactive, then the selected one active. */
    method HighlightSelected()
      requires 0 <= selected < items.Length
      modifies items
      ensures Highlighted()
    {
      for i := 0 to items.Length
        invariant forall j :: 0 <= j < i ==> items[j] == Inactive
      {
        items[i] := Inactive;
      }
      items[selected] := Active;
    }

    /** The down key: the next entry, wrapping from the last to the first. */
    method SelectNext()
      requires Valid()
      modifies this`selected, items
      ensures Valid()
      ensures selected == NextIndex(old(selected), items.Length)
    {
      if selected >= items.Length - 1 {
        selected := 0;
      } else {
        selected := selected + 1;
      }
      HighlightSelected();
    }

    /** The up key: the previous entry, wrapping from the first to the last. */
    method SelectPrevious()
      requires Valid()
      modifies this`selected, items
      ensures Valid()
      ensures selected == PreviousIndex(old(selected), items.Length)
    {
      if selected <= 0 {
        selected := items.Length - 1;
      } else {
        selected := selected - 1;
      }
      HighlightSelected();
    }

    /** Hovering entry i selects it; entries only pass their own index. */
    method SelectSpecific(itemIndex: int)
      requires Valid() && 0 <= itemIndex < items.Length
      modifies this`selected, items
      ensures Valid() && selected == itemIndex
    {
      selected := itemIndex;
      HighlightSelected();
    }

    /** Enter or Space: the selected entry's action. */
    method SpaceEnterKey() returns (action: MenuAction)
      requires Valid()
      ensures action == ActionOf(selected)
      ensures MenuEntries[selected] == "Start" <==> action == StartGame
    {
      ActionMatchesEntry(selected);
      if selected == 0 {
        action := StartGame;
      } else if selected == 1 {
        action := LogHowTo;
      } else if selected == 2 {
        action := LogCredits;
      } else {
        action := StartGame;
      }
    }
  }
}
