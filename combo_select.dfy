/** The suggestion list's private `select(newSelected)`: which entry is
    highlighted, and what the input field shows. Index -1 stands for "no
    selection" (the typed text), |items| for one past the end. */
module ComboSelect {
  /** A list item's entry: its name, and whether its `enabled` is `false`.
      Every list item carries an entry, as the list is built from entries. */
  datatype Suggestion = Suggestion(name: string, disabled: bool)

  /** The list, the selected index, the indices whose item has the class
      "selected", the input field's value and the text the user typed. */
  datatype State = State(items: seq<Suggestion>, selected: int, marked: set<int>, input: string, typed: string)

  /** The `while` condition: an existing item whose entry is disabled. */
  predicate Skipped(items: seq<Suggestion>, n: int)
  {
    0 <= n < |items| && items[n].disabled
  }

  /** Step from n in `direction` past disabled entries. The result stays in
      [-1, |items|], is a selectable entry when it is inside the list, and every
      entry passed over is disabled. */
  function NextSelectable(items: seq<Suggestion>, n: int, direction: int): (r: int)
    requires direction == 1 || direction == -1
    requires -1 <= n <= |items|
    ensures -1 <= r <= |items|
    ensures 0 <= r < |items| ==> !items[r].disabled
    ensures direction == 1 ==> n <= r && forall k :: n <= k < r ==> Skipped(items, k)
    ensures direction == -1 ==> r <= n && forall k :: r < k <= n ==> Skipped(items, k)
    decreases if direction == 1 then |items| - n else n + 1
  {
    if Skipped(items, n) then NextSelectable(items, n + direction, direction) else n
  }

  /** The index that is in range in the list, if any. */
  function InRange(n: int, length: nat): set<int>
  {
    if -1 < n < length then {n} else {}
  }

  /** `select(n)`: unmark the old selection; for n in [-1, |items|] move to
      the first selectable index from n in the direction of the move (down
      when n is past the old selection, up otherwise); mark the new selection
      and show its name, or the typed text when nothing is selected. */
  function SelectSpec(s: State, n: int): State
  {
    var selected := if -1 <= n <= |s.items| then NextSelectable(s.items, n, if n > s.selected then 1 else -1) else s.selected;
    var marked := (s.marked - InRange(s.selected, |s.items|)) + InRange(selected, |s.items|);
    var input := if -1 < selected < |s.items| then s.items[selected].name else s.typed;
    s.(selected := selected, marked := marked, input := input)
  }

  /** At most the selected entry is marked. */
  predicate SingleMark(s: State)
  {
    s.marked <= InRange(s.selected, |s.items|)
  }

  class ComboBox {
    var items: seq<Suggestion>
    var selected: int
    var marked: set<int>
    var input: string
    var typed: string

    function Snapshot(): State
      reads this
    {
      State(items, selected, marked, input, typed)
    }

    method Select(n: int)
      modifies this
      ensures Snapshot() == SelectSpec(old(Snapshot()), n)
    {
      ghost var r := SelectSpec(Snapshot(), n);
      if -1 < selected < |items| {
        marked := marked - {selected};
      }
      if -1 <= n <= |items| {
        selected := Land(items, n, if n > selected then 1 else -1);
      }
      assert selected == r.selected;
      if -1 < selected < |items| {
        marked := marked + {selected};
        input := items[selected].name;
      } else {
        input := typed;
      }
      assert marked == r.marked;
      assert input == r.input;
    }
  }

  /** The `while` loop of `select`: from n, step in `direction` while the
      index is inside the list and its entry is disabled. */
  method Land(items: seq<Suggestion>, n: int, direction: int) returns (next: int)
    requires direction == 1 || direction == -1
    requires -1 <= n <= |items|
    ensures next == NextSelectable(items, n, direction)
  {
    next := n;
    while 0 <= next < |items| && items[next].disabled
      invariant -1 <= next <= |items|
      invariant NextSelectable(items, next, direction) == NextSelectable(items, n, direction)
      decreases if direction == 1 then |items| - next else next + 1
    {
      next := next + direction;
    }
  }

  /** A request outside [-1, |items|] keeps the selection; any other request
      lands in [-1, |items|], on a selectable entry when inside the list,
      having passed over disabled entries only. */
  lemma SelectLands(s: State, n: int)
    ensures var r := SelectSpec(s, n).selected;
      (n < -1 || n > |s.items| ==> r == s.selected)
      && (-1 <= n <= |s.items| ==> -1 <= r <= |s.items|)
      && (-1 <= n <= |s.items| && 0 <= r < |s.items| ==> !s.items[r].disabled)
      && (-1 <= n <= |s.items| && n > s.selected ==> n <= r && forall k :: n <= k < r ==> Skipped(s.items, k))
      && (-1 <= n <= |s.items| && n <= s.selected ==> r <= n && forall k :: r < k <= n ==> Skipped(s.items, k))
  {
  }

  /** `select` keeps the highlight on the selected entry alone, and the input
      shows the selected entry's name or the typed text. */
  lemma SelectKeepsSingleMark(s: State, n: int)
    requires SingleMark(s)
    ensures SingleMark(SelectSpec(s, n))
    ensures var r := SelectSpec(s, n);
      r.input == if 0 <= r.selected < |s.items| then s.items[r.selected].name else s.typed
  {
  }

  /** Moving down from the first entry onto an all-disabled rest of the list
      ends one past the end, with nothing selected. */
  lemma DisabledTailSelectsNothing(name: string)
    ensures var items := [Suggestion(name, false), Suggestion(name, true)];
      SelectSpec(State(items, 0, {0}, name, []), 1) == State(items, 2, {}, [], [])
  {
    var items := [Suggestion(name, false), Suggestion(name, true)];
    assert NextSelectable(items, 1, 1) == NextSelectable(items, 2, 1);
  }
}
