/**
 * Progress of the checklist: how many of the item and sub-item flags of a
 * list of items are set, the rounded percentage shown beside it, and the
 * overall figure summed over the period tabs.
 */
module ChecklistProgress {
  import opened Types
  import opened Collections
  import opened ChecklistCatalog

  /** The checked state: a flag per item or sub-item id; a missing id reads as unchecked. */
  type CheckedState = map<string, bool>

  predicate IsChecked(state: CheckedState, id: string)
  {
    id in state && state[id]
  }

  function SubIds(subs: seq<ChecklistSubItem>): (ids: seq<string>)
    ensures |ids| == |subs|
    ensures forall j :: 0 <= j < |subs| ==> ids[j] == subs[j].id
  {
    if subs == [] then [] else SubIds(subs[..|subs| - 1]) + [subs[|subs| - 1].id]
  }

  /** The flags an item contributes: those of its sub-items, then its own. */
  function ItemIds(x: ChecklistItem): seq<string>
  {
    SubIds(x.subItems) + [x.id]
  }

  /** The flags of a list of items, item after item. */
  function IdsOf(items: seq<ChecklistItem>): seq<string>
  {
    if items == [] then [] else IdsOf(items[..|items| - 1]) + ItemIds(items[|items| - 1])
  }

  /** How many of `ids` (counted with repetition) are checked. */
  function CountTrue(ids: seq<string>, state: CheckedState): (n: nat)
    ensures n <= |ids|
  {
    if ids == [] then 0
    else CountTrue(ids[..|ids| - 1], state) + if IsChecked(state, ids[|ids| - 1]) then 1 else 0
  }

  datatype Progress = Progress(checked: nat, total: nat)

  function Plus(a: Progress, b: Progress): Progress
  {
    Progress(a.checked + b.checked, a.total + b.total)
  }

  /** The progress of `items`: every flag counts once, whether checked or not. */
  function Count(items: seq<ChecklistItem>, state: CheckedState): Progress
  {
    var ids := IdsOf(items);
    Progress(CountTrue(ids, state), |ids|)
  }

  /** The source's counting loop over items and their sub-items. */
  method CountChecked(items: seq<ChecklistItem>, state: CheckedState) returns (checked: nat, total: nat)
    ensures Progress(checked, total) == Count(items, state)
    ensures checked <= total
  {
    checked, total := 0, 0;
    for i := 0 to |items|
      invariant checked == CountTrue(IdsOf(items[..i]), state)
      invariant total == |IdsOf(items[..i])|
    {
      var item := items[i];
      ghost var before := IdsOf(items[..i]);
      assert before + SubIds(item.subItems[..0]) == before by {
        assert item.subItems[..0] == [];
      }
      if |item.subItems| > 0 {
        for j := 0 to |item.subItems|
          invariant total == |before| + j
          invariant checked == CountTrue(before + SubIds(item.subItems[..j]), state)
        {
          var sub := item.subItems[j];
          CountSubStep(before, item.subItems, j, state);
          total := total + 1;
          if IsChecked(state, sub.id) {
            checked := checked + 1;
          }
        }
      }
      assert item.subItems[..|item.subItems|] == item.subItems;
      ghost var withSubs := before + SubIds(item.subItems);
      assert checked == CountTrue(withSubs, state) && total == |withSubs|;
      CountItemStep(items, i, state);
      CountTrueSnoc(withSubs, item.id, state);
      total := total + 1;
      if IsChecked(state, item.id) {
        checked := checked + 1;
      }
    }
    assert items[..|items|] == items;
  }

  /** Counting one more id appends its flag. */
  lemma CountTrueSnoc(ids: seq<string>, id: string, state: CheckedState)
    ensures CountTrue(ids + [id], state) == CountTrue(ids, state) + if IsChecked(state, id) then 1 else 0
  {
    assert (ids + [id])[..|ids|] == ids;
  }

  lemma CountSubStep(before: seq<string>, subs: seq<ChecklistSubItem>, j: int, state: CheckedState)
    requires 0 <= j < |subs|
    ensures CountTrue(before + SubIds(subs[..j + 1]), state)
         == CountTrue(before + SubIds(subs[..j]), state) + if IsChecked(state, subs[j].id) then 1 else 0
  {
    assert subs[..j + 1][..j] == subs[..j];
    assert before + SubIds(subs[..j + 1]) == (before + SubIds(subs[..j])) + [subs[j].id];
    CountTrueSnoc(before + SubIds(subs[..j]), subs[j].id, state);
  }

  lemma CountItemStep(items: seq<ChecklistItem>, i: int, state: CheckedState)
    requires 0 <= i < |items|
    ensures IdsOf(items[..i + 1]) == (IdsOf(items[..i]) + SubIds(items[i].subItems)) + [items[i].id]
  {
    assert items[..i + 1][..i] == items[..i];
  }

  /** The total is the number of items plus the number of their sub-items. */
  function SumSizes(items: seq<ChecklistItem>): nat
  {
    if items == [] then 0 else SumSizes(items[..|items| - 1]) + |items[|items| - 1].subItems| + 1
  }

  lemma {:induction false} TotalIsItemsPlusSubItems(items: seq<ChecklistItem>, state: CheckedState)
    ensures Count(items, state).total == SumSizes(items)
    decreases |items|
  {
    if items != [] {
      TotalIsItemsPlusSubItems(items[..|items| - 1], state);
    }
  }

  /** Counting checked ids is additive over concatenation. */
  lemma {:induction false} CountTrueAppend(a: seq<string>, b: seq<string>, state: CheckedState)
    ensures CountTrue(a + b, state) == CountTrue(a, state) + CountTrue(b, state)
    decreases |b|
  {
    if b == [] {
      assert a + b == a;
    } else {
      assert (a + b)[..|a + b| - 1] == a + b[..|b| - 1];
      CountTrueAppend(a, b[..|b| - 1], state);
    }
  }

  lemma {:induction false} IdsOfAppend(a: seq<ChecklistItem>, b: seq<ChecklistItem>)
    ensures IdsOf(a + b) == IdsOf(a) + IdsOf(b)
    decreases |b|
  {
    if b == [] {
      assert a + b == a;
    } else {
      var init, last := b[..|b| - 1], b[|b| - 1];
      calc {
        IdsOf(a + b);
        { assert (a + b)[..|a + b| - 1] == a + init; }
        IdsOf(a + init) + ItemIds(last);
        { IdsOfAppend(a, init); }
        IdsOf(a) + IdsOf(init) + ItemIds(last);
        IdsOf(a) + (IdsOf(init) + ItemIds(last));
      }
    }
  }

  /** Progress is additive over concatenation of item lists. */
  lemma CountAppend(a: seq<ChecklistItem>, b: seq<ChecklistItem>, state: CheckedState)
    ensures Count(a + b, state) == Plus(Count(a, state), Count(b, state))
  {
    IdsOfAppend(a, b);
    CountTrueAppend(IdsOf(a), IdsOf(b), state);
  }

  /**
   * One item: it adds one flag per sub-item and one of its own, and its own
   * flag counts independently of whether all of its sub-items are checked.
   */
  lemma CountOneItem(x: ChecklistItem, state: CheckedState)
    ensures Count([x], state).total == |x.subItems| + 1
    ensures Count([x], state).checked
         == CountTrue(SubIds(x.subItems), state) + if IsChecked(state, x.id) then 1 else 0
  {
    assert [x][..0] == [];
    assert IdsOf([x]) == SubIds(x.subItems) + [x.id];
    CountTrueAppend(SubIds(x.subItems), [x.id], state);
    assert [x.id][..0] == [];
  }

  /** A checked count equals the total exactly when every flag is checked. */
  lemma {:induction false} AllCheckedIffFull(ids: seq<string>, state: CheckedState)
    ensures CountTrue(ids, state) == |ids| <==> forall i :: 0 <= i < |ids| ==> IsChecked(state, ids[i])
    decreases |ids|
  {
    if ids != [] {
      var init := ids[..|ids| - 1];
      AllCheckedIffFull(init, state);
      assert forall i :: 0 <= i < |init| ==> init[i] == ids[i];
    }
  }

  // ----- Percentages -----

  /**
   * The rounded percentage: zero for an empty list, otherwise 100 * checked
   * / total rounded half up, computed in integers.
   */
  function Percent(checked: nat, total: nat): (r: nat)
    ensures total == 0 ==> r == 0
    ensures total > 0 ==> 2 * total * r <= 200 * checked + total < 2 * total * (r + 1)
  {
    if total == 0 then 0 else (200 * checked + total) / (2 * total)
  }

  /**
   * A percentage of a count lies in 0..100. It is 100 when every flag is
   * checked, and, because the rounding goes half up, also whenever fewer
   * than one flag in two hundred is unchecked; it is 0 exactly when fewer
   * than one flag in two hundred is checked.
   */
  lemma PercentBounds(checked: nat, total: nat)
    requires checked <= total
    ensures Percent(checked, total) <= 100
    ensures total > 0 ==> (Percent(checked, total) == 100 <==> 200 * (total - checked) <= total)
    ensures total > 0 ==> (Percent(checked, total) == 0 <==> 200 * checked < total)
  {
    if total > 0 {
      var r := Percent(checked, total);
      var t2 := 2 * total;
      assert t2 * r <= 200 * checked + total < t2 * (r + 1);
      if r > 100 {
        MulMono(t2, 101, r);
      }
      if r < 100 {
        MulMono(t2, r + 1, 100);
      } else {
        MulMono(t2, 100, r);
      }
      if r >= 1 {
        MulMono(t2, 1, r);
      }
    }
  }

  lemma MulMono(a: nat, b: int, c: int)
    requires b <= c
    ensures a * b <= a * c
  {
    var d := c - b;
    assert a * c == a * b + a * d;
  }

  /** Below two hundred flags, 100 percent means that every flag is checked, in both directions. */
  lemma PercentFullIffAllChecked(checked: nat, total: nat)
    requires checked <= total < 200
    ensures Percent(checked, total) == 100 <==> total > 0 && checked == total
  {
    PercentBounds(checked, total);
  }

  /** Sample values; with four hundred flags, one unchecked flag still shows as 100 percent. */
  lemma PercentExamples()
    ensures Percent(0, 0) == 0
    ensures Percent(399, 400) == 100
    ensures Percent(1, 3) == 33
    ensures Percent(2, 3) == 67
    ensures Percent(1, 8) == 13
  {
  }

  // ----- Overall progress over the period tabs -----

  /** The progress shown on the tab of period `p`. */
  function PeriodProgress(catalog: seq<ChecklistItem>, p: Period, state: CheckedState): Progress
  {
    Count(ItemsForPeriod(catalog, p), state)
  }

  /** The running sums of per-period figures `f` over `ps`, as the overall panel adds them up. */
  function SumOver(ps: seq<Period>, f: Period -> Progress): Progress
  {
    if ps == [] then Progress(0, 0)
    else Plus(SumOver(ps[..|ps| - 1], f), f(ps[|ps| - 1]))
  }

  /** The progress of every tab, as a function of the period. */
  function TabProgress(catalog: seq<ChecklistItem>, state: CheckedState): Period -> Progress
  {
    (p: Period) => PeriodProgress(catalog, p, state)
  }

  function SumOverPeriods(ps: seq<Period>, catalog: seq<ChecklistItem>, state: CheckedState): Progress
  {
    SumOver(ps, TabProgress(catalog, state))
  }

  /** The overall figure: the per-tab counts summed over the seven tab periods. */
  function OverallProgress(catalog: seq<ChecklistItem>, state: CheckedState): Progress
  {
    SumOverPeriods(Periods, catalog, state)
  }

  /** An item belongs to one of the tab periods. */
  function InTabPeriod(x: ChecklistItem): bool
  {
    NotAlways(x.period)
  }

  function PeriodIn(ps: seq<Period>): ChecklistItem -> bool
  {
    (x: ChecklistItem) => x.period in ps
  }

  /**
   * The overall panel counts every catalog item of a tab period exactly once
   * and leaves out the items of `Always`.
   */
  lemma OverallCountsTabPeriodItems(catalog: seq<ChecklistItem>, state: CheckedState)
    ensures OverallProgress(catalog, state) == Count(Filter(catalog, InTabPeriod), state)
  {
    TabPeriods();
    PeriodSums(Periods, catalog, state);
    FilterSameKeep(catalog, PeriodIn(Periods), InTabPeriod);
  }

  /** The seven tab periods are distinct and are exactly the periods other than `Always`. */
  lemma TabPeriods()
    ensures Distinct(Periods)
    ensures forall p: Period :: p in Periods <==> p != Always
  {
  }

  lemma {:induction false} FilterSameKeep(s: seq<ChecklistItem>, f: ChecklistItem -> bool, g: ChecklistItem -> bool)
    requires forall x :: f(x) == g(x)
    ensures Filter(s, f) == Filter(s, g)
    decreases |s|
  {
    if s != [] {
      FilterSameKeep(s[..|s| - 1], f, g);
    }
  }

  /** The count of a list holding `x` or nothing. */
  lemma CountOfOptional(x: ChecklistItem, present: bool, state: CheckedState)
    ensures Count(if present then [x] else [], state) == if present then Count([x], state) else Progress(0, 0)
  {
    assert IdsOf([]) == [];
  }

  /** Summing the sorted period lists of distinct periods counts the items whose period is among them. */
  lemma {:induction false} PeriodSums(ps: seq<Period>, catalog: seq<ChecklistItem>, state: CheckedState)
    requires Distinct(ps)
    ensures SumOverPeriods(ps, catalog, state) == Count(Filter(catalog, PeriodIn(ps)), state)
    decreases |catalog|
  {
    if catalog == [] {
      SumOfEmpty(ps, state);
      assert IdsOf([]) == [];
    } else {
      var init, x := catalog[..|catalog| - 1], catalog[|catalog| - 1];
      var keep := PeriodIn(ps);
      var tail := if keep(x) then [x] else [];
      assert catalog == init + [x];
      calc {
        SumOverPeriods(ps, catalog, state);
        { SumAppendItem(ps, init, x, state); }
        Plus(SumOverPeriods(ps, init, state), if x.period in ps then Count([x], state) else Progress(0, 0));
        { PeriodSums(ps, init, state); CountOfOptional(x, keep(x), state); }
        Plus(Count(Filter(init, keep), state), Count(tail, state));
        { CountAppend(Filter(init, keep), tail, state); }
        Count(Filter(init, keep) + tail, state);
        { FilterSnoc(init, x, keep); }
        Count(Filter(catalog, keep), state);
      }
    }
  }

  lemma SumOfEmpty(ps: seq<Period>, state: CheckedState)
    ensures SumOverPeriods(ps, [], state) == Progress(0, 0)
  {
    forall p ensures TabProgress([], state)(p) == Progress(0, 0) {
      EmptyPeriod(p, state);
    }
    SumOfZeros(ps, TabProgress([], state));
  }

  /** Summing figures that are all zero gives zero. */
  lemma {:induction false} SumOfZeros(ps: seq<Period>, f: Period -> Progress)
    requires forall p :: f(p) == Progress(0, 0)
    ensures SumOver(ps, f) == Progress(0, 0)
    decreases |ps|
  {
    if ps != [] {
      SumOfZeros(ps[..|ps| - 1], f);
    }
  }

  lemma EmptyPeriod(p: Period, state: CheckedState)
    ensures PeriodProgress([], p, state) == Progress(0, 0)
  {
    assert ItemsForPeriod([], p) == [] by {
      assert Filter([], PeriodIs(p)) == [];
    }
    assert IdsOf([]) == [];
  }

  /** Sorting a list of items does not change its progress. */
  lemma {:induction false} SortKeepsCount(s: seq<ChecklistItem>, state: CheckedState)
    ensures Count(SortByOrder(s), state) == Count(s, state)
    decreases |s|
  {
    if s != [] {
      var sorted := SortByOrder(s[1..]);
      calc {
        Count(SortByOrder(s), state);
        Count(Insert(s[0], sorted), state);
        { InsertKeepsCount(s[0], sorted, state); }
        Count([s[0]] + sorted, state);
        { CountAppend([s[0]], sorted, state); }
        Plus(Count([s[0]], state), Count(sorted, state));
        { SortKeepsCount(s[1..], state); }
        Plus(Count([s[0]], state), Count(s[1..], state));
        { CountAppend([s[0]], s[1..], state); }
        Count([s[0]] + s[1..], state);
        { assert s == [s[0]] + s[1..]; }
        Count(s, state);
      }
    }
  }

  lemma {:induction false} InsertKeepsCount(x: ChecklistItem, s: seq<ChecklistItem>, state: CheckedState)
    ensures Count(Insert(x, s), state) == Count([x] + s, state)
    decreases |s|
  {
    if s != [] && s[0].order < x.order {
      var head, rest := [s[0]], s[1..];
      calc {
        Count(Insert(x, s), state);
        Count(head + Insert(x, rest), state);
        { CountAppend(head, Insert(x, rest), state); }
        Plus(Count(head, state), Count(Insert(x, rest), state));
        { InsertKeepsCount(x, rest, state); CountAppend([x], rest, state); }
        Plus(Count(head, state), Plus(Count([x], state), Count(rest, state)));
        Plus(Count([x], state), Plus(Count(head, state), Count(rest, state)));
        { CountAppend(head, rest, state); assert s == head + rest; }
        Plus(Count([x], state), Count(s, state));
        { CountAppend([x], s, state); }
        Count([x] + s, state);
      }
    }
  }

  /** Adding one catalog item adds its count to the tab of its own period and to no other. */
  lemma PeriodProgressAppend(catalog: seq<ChecklistItem>, x: ChecklistItem, p: Period, state: CheckedState)
    ensures PeriodProgress(catalog + [x], p, state)
         == Plus(PeriodProgress(catalog, p, state), if x.period == p then Count([x], state) else Progress(0, 0))
  {
    var keep := PeriodIs(p);
    FilterSnoc(catalog, x, keep);
    SortKeepsCount(Filter(catalog + [x], keep), state);
    SortKeepsCount(Filter(catalog, keep), state);
    CountAppend(Filter(catalog, keep), if keep(x) then [x] else [], state);
    CountOfOptional(x, keep(x), state);
  }

  /** Adding one catalog item adds its count to exactly one period's sum, if its period is among `ps`. */
  lemma SumAppendItem(ps: seq<Period>, catalog: seq<ChecklistItem>, x: ChecklistItem, state: CheckedState)
    requires Distinct(ps)
    ensures SumOverPeriods(ps, catalog + [x], state)
         == Plus(SumOverPeriods(ps, catalog, state), if x.period in ps then Count([x], state) else Progress(0, 0))
  {
    var f, g := TabProgress(catalog, state), TabProgress(catalog + [x], state);
    forall p ensures g(p) == Plus(f(p), if x.period == p then Count([x], state) else Progress(0, 0)) {
      PeriodProgressAppend(catalog, x, p, state);
    }
    SumShift(ps, f, g, x.period, Count([x], state));
  }

  /**
   * When `g` adds `one` to `f` at period `q` alone, the sum of `g` over
   * distinct periods adds `one` to the sum of `f` exactly when `q` is among them.
   */
  lemma {:induction false} SumShift(ps: seq<Period>, f: Period -> Progress, g: Period -> Progress, q: Period, one: Progress)
    requires Distinct(ps)
    requires forall p :: g(p) == Plus(f(p), if q == p then one else Progress(0, 0))
    ensures SumOver(ps, g) == Plus(SumOver(ps, f), if q in ps then one else Progress(0, 0))
    decreases |ps|
  {
    if ps != [] {
      var ps', p := ps[..|ps| - 1], ps[|ps| - 1];
      DistinctInit(ps);
      var zero := Progress(0, 0);
      var before, here := if q in ps' then one else zero, if q == p then one else zero;
      assert ps == ps' + [p];
      if q == p {
        assert before == zero && q in ps;
      } else if q in ps' {
        assert here == zero && q in ps;
      } else {
        assert q !in ps;
      }
      calc {
        SumOver(ps, g);
        Plus(SumOver(ps', g), g(p));
        { SumShift(ps', f, g, q, one); }
        Plus(Plus(SumOver(ps', f), before), Plus(f(p), here));
        { PlusRegroup(SumOver(ps', f), before, f(p), here); }
        Plus(Plus(SumOver(ps', f), f(p)), Plus(before, here));
        Plus(SumOver(ps, f), Plus(before, here));
        Plus(SumOver(ps, f), if q in ps then one else zero);
      }
    }
  }

  lemma PlusRegroup(a: Progress, b: Progress, c: Progress, d: Progress)
    ensures Plus(Plus(a, b), Plus(c, d)) == Plus(Plus(a, c), Plus(b, d))
  {
  }

}
