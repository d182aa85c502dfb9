/**
 * The checklist page as a stateful object: the checked-state map, the
 * selected period tab, the load flag that gates saving, the reset
 * confirmation, and the snapshots written to the browser's storage slot.
 */
module ChecklistPage {
  import opened Types
  import opened ChecklistCatalog
  import opened ChecklistProgress
  import opened ChecklistState

  class Page {
    /** The static checklist catalog the page reads. */
    const catalog: seq<ChecklistItem>
    var checkedState: CheckedState
    var activePeriod: Period
    var isLoaded: bool
    var showResetConfirm: bool
    /** Every snapshot of the map written to the storage slot, oldest first. */
    var saved: seq<CheckedState>

    /**
     * Nothing is written before the load has completed; from then on the
     * last snapshot written is the current map.
     */
    ghost predicate Valid()
      reads this
    {
      && (!isLoaded ==> saved == [])
      && (isLoaded ==> saved != [] && saved[|saved| - 1] == checkedState)
    }

    /** The first render: an empty map, the first tab, not loaded, nothing saved. */
    constructor (catalog: seq<ChecklistItem>)
      ensures this.catalog == catalog
      ensures checkedState == map[] && activePeriod == YearStart
      ensures !isLoaded && !showResetConfirm && saved == []
      ensures Valid()
    {
      this.catalog := catalog;
      checkedState := map[];
      activePeriod := YearStart;
      isLoaded := false;
      showResetConfirm := false;
      saved := [];
    }

    /** The save effect: it writes the current map only once the load has completed. */
    method SaveEffect()
      modifies this`saved
      ensures saved == if isLoaded then old(saved) + [checkedState] else old(saved)
    {
      if isLoaded {
        saved := saved + [checkedState];
      }
    }

    /**
     * The mount effect followed by the renders it causes: the tab of the
     * current month is selected, the stored map is loaded (fail-open), the
     * page becomes loaded, and the save effect then writes the loaded map
     * back once. The render before the load writes nothing.
     */
    method Mount(month: int, stored: Option<string>, parse: string -> Option<CheckedState>)
      requires Valid()
      modifies this
      ensures Valid() && isLoaded
      ensures activePeriod == GetCurrentPeriod(month) && activePeriod != Always
      ensures checkedState == LoadCheckedState(stored, parse)
      ensures saved == (if old(isLoaded) then old(saved) + [old(checkedState)] else old(saved)) + [checkedState]
      ensures !old(isLoaded) ==> saved == [checkedState]
      ensures showResetConfirm == old(showResetConfirm)
    {
      SaveEffect();
      activePeriod := GetCurrentPeriod(month);
      checkedState := LoadCheckedState(stored, parse);
      isLoaded := true;
      SaveEffect();
    }

    /** A click on an item or sub-item checkbox; the save effect follows. */
    method Toggle(id: string)
      requires Valid()
      modifies this`checkedState, this`saved
      ensures Valid()
      ensures checkedState == ToggleItem(old(checkedState), id)
      ensures saved == if isLoaded then old(saved) + [checkedState] else old(saved)
    {
      checkedState := ToggleItem(checkedState, id);
      SaveEffect();
    }

    /** A click on a period tab; it changes neither the map nor the storage. */
    method SelectPeriod(p: Period)
      requires Valid()
      modifies this`activePeriod
      ensures Valid()
      ensures activePeriod == p
    {
      activePeriod := p;
    }

    /** The reset button asks for confirmation first. */
    method AskReset()
      requires Valid()
      modifies this`showResetConfirm
      ensures Valid()
      ensures showResetConfirm
    {
      showResetConfirm := true;
    }

    method CancelReset()
      requires Valid()
      modifies this`showResetConfirm
      ensures Valid()
      ensures !showResetConfirm
    {
      showResetConfirm := false;
    }

    /** The items of the selected tab, in display order. */
    function PeriodItems(): seq<ChecklistItem>
      reads this
    {
      ItemsForPeriod(catalog, activePeriod)
    }

    /**
     * The confirmed reset: the flags of every item of the selected tab and
     * of all their sub-items are deleted, all other keys are kept, the
     * tab's progress drops to zero checked, and the save effect follows.
     */
    method ResetPeriod()
      requires Valid()
      modifies this`checkedState, this`saved, this`showResetConfirm
      ensures Valid() && !showResetConfirm
      ensures forall k :: k in checkedState <==> k in old(checkedState) && k !in IdsOf(PeriodItems())
      ensures forall k :: k in checkedState ==> checkedState[k] == old(checkedState)[k]
      ensures Count(PeriodItems(), checkedState) == Progress(0, Count(PeriodItems(), old(checkedState)).total)
      ensures saved == if isLoaded then old(saved) + [checkedState] else old(saved)
    {
      var periodItems := ItemsForPeriod(catalog, activePeriod);
      var next := ResetItems(checkedState, periodItems);
      ResetClearsProgress(periodItems, checkedState, next);
      checkedState := next;
      SaveEffect();
      showResetConfirm := false;
      assert PeriodItems() == periodItems;
    }

    /**
     * What the selected tab shows: its items grouped by category in
     * first-seen order, and its checked and total counts.
     */
    method PeriodView() returns (groups: seq<CategoryGroup>, checked: nat, total: nat)
      ensures groups == Grouping(PeriodItems())
      ensures Progress(checked, total) == Count(PeriodItems(), checkedState)
      ensures checked <= total
    {
      var items := ItemsForPeriod(catalog, activePeriod);
      groups := CategoriesForItems(items);
      checked, total := CountChecked(items, checkedState);
    }
  }
}
