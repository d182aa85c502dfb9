/**
 * The checked-state map of the checklist page and the operations that
 * produce a new one: toggling one flag, clearing the flags of a list of
 * items, and the fail-open load of the stored map.
 */
module ChecklistState {
  import opened Types
  import opened ChecklistProgress

  // ----- Toggling one flag -----

  /**
   * The state after clicking the checkbox of item or sub-item `id`: the id
   * now holds the negation of what it read as before (a missing id read as
   * unchecked), and every other key keeps its presence and its value.
   */
  function ToggleItem(state: CheckedState, id: string): (r: CheckedState)
    ensures id in r && r[id] == !IsChecked(state, id)
    ensures IsChecked(r, id) != IsChecked(state, id)
    ensures forall k :: k != id ==> (k in r <==> k in state)
    ensures forall k :: k != id && k in state ==> r[k] == state[k]
  {
    state[id := !IsChecked(state, id)]
  }

  /**
   * Toggling twice restores what every id reads as. The key of an id that
   * was missing stays behind, holding false.
   */
  lemma ToggleTwice(state: CheckedState, id: string)
    ensures forall k :: IsChecked(ToggleItem(ToggleItem(state, id), id), k) == IsChecked(state, k)
    ensures ToggleItem(ToggleItem(state, id), id) == state[id := IsChecked(state, id)]
  {
  }

  /** Counting reads a state only through the flags of the counted ids. */
  lemma {:induction false} CountTrueAgree(ids: seq<string>, s1: CheckedState, s2: CheckedState)
    requires forall i :: 0 <= i < |ids| ==> IsChecked(s1, ids[i]) == IsChecked(s2, ids[i])
    ensures CountTrue(ids, s1) == CountTrue(ids, s2)
    decreases |ids|
  {
    if ids != [] {
      var init := ids[..|ids| - 1];
      assert forall i :: 0 <= i < |init| ==> init[i] == ids[i];
      CountTrueAgree(init, s1, s2);
    }
  }

  /** Toggling an id that no counted item or sub-item carries leaves the progress unchanged. */
  lemma ToggleUnrelatedKeepsCount(items: seq<ChecklistItem>, state: CheckedState, id: string)
    requires id !in IdsOf(items)
    ensures Count(items, ToggleItem(state, id)) == Count(items, state)
  {
    var ids := IdsOf(items);
    assert forall i :: 0 <= i < |ids| ==> ids[i] != id;
    CountTrueAgree(ids, ToggleItem(state, id), state);
  }

  // ----- Clearing the flags of a list of items -----

  /** The ids of the items and of all their sub-items. */
  ghost function IdSet(items: seq<ChecklistItem>): set<string>
  {
    set id | id in IdsOf(items)
  }

  ghost function SubIdSet(subs: seq<ChecklistSubItem>): set<string>
  {
    set id | id in SubIds(subs)
  }

  /**
   * Copies `state` and deletes from the copy the id of every item of
   * `items` and the ids of its sub-items. The keys are removed, not set to
   * false; every other key keeps its value.
   */
  method ResetItems(state: CheckedState, items: seq<ChecklistItem>) returns (next: CheckedState)
    ensures forall k :: k in next <==> k in state && k !in IdsOf(items)
    ensures forall k :: k in next ==> next[k] == state[k]
  {
    next := state;
    for i := 0 to |items|
      invariant next == state - IdSet(items[..i])
    {
      var item := items[i];
      next := next - {item.id};
      for j := 0 to |item.subItems|
        invariant next == state - (IdSet(items[..i]) + {item.id} + SubIdSet(item.subItems[..j]))
      {
        SubIdSetStep(item.subItems, j);
        next := next - {item.subItems[j].id};
      }
      assert item.subItems[..|item.subItems|] == item.subItems;
      IdSetStep(items, i);
    }
    assert items[..|items|] == items;
  }

  lemma SubIdSetStep(subs: seq<ChecklistSubItem>, j: int)
    requires 0 <= j < |subs|
    ensures SubIdSet(subs[..j + 1]) == SubIdSet(subs[..j]) + {subs[j].id}
  {
    assert subs[..j + 1][..j] == subs[..j];
    assert SubIds(subs[..j + 1]) == SubIds(subs[..j]) + [subs[j].id];
  }

  lemma IdSetStep(items: seq<ChecklistItem>, i: int)
    requires 0 <= i < |items|
    ensures IdSet(items[..i + 1]) == IdSet(items[..i]) + {items[i].id} + SubIdSet(items[i].subItems)
  {
    CountItemStep(items, i, map[]);
  }

  /** A count over ids none of which is checked is zero. */
  lemma {:induction false} CountTrueNone(ids: seq<string>, state: CheckedState)
    requires forall i :: 0 <= i < |ids| ==> !IsChecked(state, ids[i])
    ensures CountTrue(ids, state) == 0
    decreases |ids|
  {
    if ids != [] {
      var init := ids[..|ids| - 1];
      assert forall i :: 0 <= i < |init| ==> init[i] == ids[i];
      CountTrueNone(init, state);
    }
  }

  /**
   * After the flags of `items` are removed, counting `items` finds none
   * checked and the same total as before.
   */
  lemma ResetClearsProgress(items: seq<ChecklistItem>, state: CheckedState, next: CheckedState)
    requires forall k :: k in next <==> k in state && k !in IdsOf(items)
    ensures Count(items, next) == Progress(0, Count(items, state).total)
  {
    CountTrueNone(IdsOf(items), next);
  }

  /** Removing the flags of `items` leaves the progress of items that share no id with them unchanged. */
  lemma ResetKeepsOtherProgress(items: seq<ChecklistItem>, others: seq<ChecklistItem>,
                                state: CheckedState, next: CheckedState)
    requires forall k :: k in next <==> k in state && k !in IdsOf(items)
    requires forall k :: k in next ==> next[k] == state[k]
    requires forall k :: k in IdsOf(others) ==> k !in IdsOf(items)
    ensures Count(others, next) == Count(others, state)
  {
    var ids := IdsOf(others);
    assert forall i :: 0 <= i < |ids| ==> ids[i] in ids;
    CountTrueAgree(ids, next, state);
  }

  // ----- Loading -----

  /**
   * The state read from the storage slot. A missing or empty entry, and an
   * entry the parser rejects, all give the empty map; the load never fails.
   */
  function LoadCheckedState(stored: Option<string>, parse: string -> Option<CheckedState>): (r: CheckedState)
    ensures (stored.None? || stored == Some("")) ==> r == map[]
    ensures stored.Some? && stored.value != "" && parse(stored.value).None? ==> r == map[]
    ensures stored.Some? && stored.value != "" && parse(stored.value).Some? ==> r == parse(stored.value).value
  {
    if stored.Some? && stored.value != "" then
      match parse(stored.value)
      case Some(m) => m
      case None => map[]
    else map[]
  }
}
