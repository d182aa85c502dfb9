/**
 * The catalog queries of the checklist page: which period a month belongs
 * to, the items of one period in display order, and the grouping of those
 * items by category.
 */
module ChecklistCatalog {
  import opened Types
  import opened Collections

  /** The period tabs of the checklist page, in tab order (every period but `Always`). */
  const Periods: seq<Period> :=
    [YearStart, Semester1, Semester1End, Semester2Start, Semester2, Semester2End, YearEnd]

  /** The months that the period declarations document for each period. */
  function MonthsOf(p: Period): set<int>
  {
    match p
    case YearStart => {3}
    case Semester1 => {4, 5, 6}
    case Semester1End => {7}
    case Semester2Start => {8, 9}
    case Semester2 => {10, 11}
    case Semester2End => {12}
    case YearEnd => {1, 2}
    case Always => {}
  }

  /**
   * The period a calendar month falls in. A month outside 1..12 falls
   * through every test to the December period.
   */
  function GetCurrentPeriod(month: int): (p: Period)
    ensures p != Always
    ensures 1 <= month <= 12 ==> month in MonthsOf(p)
    ensures !(1 <= month <= 12) ==> p == Semester2End
  {
    if 1 <= month <= 2 then YearEnd
    else if month == 3 then YearStart
    else if 4 <= month <= 6 then Semester1
    else if month == 7 then Semester1End
    else if 8 <= month <= 9 then Semester2Start
    else if 10 <= month <= 11 then Semester2
    else Semester2End
  }

  /** Both directions: a month of 1..12 resolves to `p` exactly when `p` documents that month. */
  lemma GetCurrentPeriodMatchesMonths(month: int, p: Period)
    requires 1 <= month <= 12
    ensures GetCurrentPeriod(month) == p <==> month in MonthsOf(p)
  {
  }

  /** Every tab period is the period of some month, and `Always` of none. */
  lemma EveryTabPeriodIsReachable(p: Period)
    ensures p in Periods <==> exists month :: 1 <= month <= 12 && GetCurrentPeriod(month) == p
  {
    if p != Always {
      var month :| month in MonthsOf(p);
      assert GetCurrentPeriod(month) == p;
    }
  }

  // ----- Items of one period, in display order -----

  function PeriodIs(p: Period): ChecklistItem -> bool
  {
    (x: ChecklistItem) => x.period == p
  }

  function OrderIs(k: int): ChecklistItem -> bool
  {
    (x: ChecklistItem) => x.order == k
  }

  ghost predicate SortedByOrder(s: seq<ChecklistItem>)
  {
    forall i, j :: 0 <= i < j < |s| ==> s[i].order <= s[j].order
  }

  /** For every `order` value, the items that carry it come in the same relative order in `r` as in `s`. */
  ghost predicate SameTies(r: seq<ChecklistItem>, s: seq<ChecklistItem>)
  {
    forall k :: Filter(r, OrderIs(k)) == Filter(s, OrderIs(k))
  }

  /** Places `x` before the first element whose `order` is not smaller. */
  function Insert(x: ChecklistItem, s: seq<ChecklistItem>): seq<ChecklistItem>
  {
    if s == [] || x.order <= s[0].order then [x] + s
    else [s[0]] + Insert(x, s[1..])
  }

  /** A stable insertion sort by `order`. */
  function SortByOrder(s: seq<ChecklistItem>): seq<ChecklistItem>
  {
    if s == [] then [] else Insert(s[0], SortByOrder(s[1..]))
  }

  /**
   * The catalog items of period `p`, sorted ascending by `order`; items
   * with equal `order` keep their catalog order.
   */
  function ItemsForPeriod(catalog: seq<ChecklistItem>, p: Period): seq<ChecklistItem>
  {
    SortByOrder(Filter(catalog, PeriodIs(p)))
  }

  /** Inserting into a sorted list keeps it sorted. */
  lemma {:induction false} InsertSorted(x: ChecklistItem, s: seq<ChecklistItem>)
    requires SortedByOrder(s)
    ensures SortedByOrder(Insert(x, s))
    decreases |s|
  {
    if s != [] && s[0].order < x.order {
      var rest := Insert(x, s[1..]);
      InsertSorted(x, s[1..]);
      InsertPermutes(x, s[1..]);
      InsertStepSorted(x, s, rest);
    }
  }

  /** Inserting adds exactly one copy of `x`. */
  lemma {:induction false} InsertPermutes(x: ChecklistItem, s: seq<ChecklistItem>)
    ensures multiset(Insert(x, s)) == multiset(s) + multiset{x}
    decreases |s|
  {
    if s != [] && s[0].order < x.order {
      InsertPermutes(x, s[1..]);
      assert s == [s[0]] + s[1..];
    }
  }

  /** Inserting keeps the relative order of the items of every `order` value. */
  lemma {:induction false} InsertTies(x: ChecklistItem, s: seq<ChecklistItem>, k: int)
    ensures Filter(Insert(x, s), OrderIs(k)) == Filter([x] + s, OrderIs(k))
    decreases |s|
  {
    if s != [] && s[0].order < x.order {
      InsertTies(x, s[1..], k);
      InsertStepTies(x, s, Insert(x, s[1..]), k);
    }
  }

  lemma InsertStepSorted(x: ChecklistItem, s: seq<ChecklistItem>, rest: seq<ChecklistItem>)
    requires SortedByOrder(s) && s != [] && s[0].order < x.order
    requires SortedByOrder(rest) && multiset(rest) == multiset(s[1..]) + multiset{x}
    ensures SortedByOrder([s[0]] + rest)
  {
    forall y | y in rest ensures s[0].order <= y.order {
      assert y in multiset(rest);
      if y != x {
        assert y in s[1..];
      }
    }
    var r := [s[0]] + rest;
    forall i, j | 0 <= i < j < |r| ensures r[i].order <= r[j].order {
      if i == 0 {
        assert r[j] in rest;
      } else {
        assert r[i] == rest[i - 1] && r[j] == rest[j - 1];
      }
    }
  }

  lemma InsertStepTies(x: ChecklistItem, s: seq<ChecklistItem>, rest: seq<ChecklistItem>, k: int)
    requires s != [] && s[0].order < x.order
    requires Filter(rest, OrderIs(k)) == Filter([x] + s[1..], OrderIs(k))
    ensures Filter([s[0]] + rest, OrderIs(k)) == Filter([x] + s, OrderIs(k))
  {
    var f := OrderIs(k);
    var t := s[1..];
    calc {
      Filter([s[0]] + rest, f);
      { FilterCons(s[0], rest, f); }
      (if f(s[0]) then [s[0]] else []) + Filter(rest, f);
      (if f(s[0]) then [s[0]] else []) + Filter([x] + t, f);
      { FilterCons(s[0], [x] + t, f); }
      Filter([s[0]] + ([x] + t), f);
      { FilterSwapHead(s[0], x, t, f); }
      Filter([x] + ([s[0]] + t), f);
      { assert [s[0]] + t == s; }
      Filter([x] + s, f);
    }
  }

  /** The sort is a permutation of its input, sorted by `order`, and stable. */
  lemma {:induction false} SortByOrderSpec(s: seq<ChecklistItem>)
    ensures SortedByOrder(SortByOrder(s))
    ensures multiset(SortByOrder(s)) == multiset(s)
    ensures SameTies(SortByOrder(s), s)
    decreases |s|
  {
    if s != [] {
      var sorted := SortByOrder(s[1..]);
      SortByOrderSpec(s[1..]);
      InsertSorted(s[0], sorted);
      InsertPermutes(s[0], sorted);
      assert s == [s[0]] + s[1..];
      forall k ensures Filter(SortByOrder(s), OrderIs(k)) == Filter(s, OrderIs(k)) {
        InsertTies(s[0], sorted, k);
        FilterCons(s[0], sorted, OrderIs(k));
        FilterCons(s[0], s[1..], OrderIs(k));
      }
    }
  }

  /**
   * The items of a period are exactly the catalog items of that period,
   * each as often as in the catalog, ascending by `order`, with ties in
   * catalog order.
   */
  lemma ItemsForPeriodSpec(catalog: seq<ChecklistItem>, p: Period)
    ensures forall x :: x in ItemsForPeriod(catalog, p) <==> x in catalog && x.period == p
    ensures multiset(ItemsForPeriod(catalog, p)) == multiset(Filter(catalog, PeriodIs(p)))
    ensures SortedByOrder(ItemsForPeriod(catalog, p))
    ensures SameTies(ItemsForPeriod(catalog, p), Filter(catalog, PeriodIs(p)))
  {
    var r := ItemsForPeriod(catalog, p);
    PeriodFilterMembers(catalog, p);
    SortByOrderSpec(Filter(catalog, PeriodIs(p)));
    assert forall x :: x in r <==> x in multiset(r);
  }

  lemma PeriodFilterMembers(catalog: seq<ChecklistItem>, p: Period)
    ensures forall x :: x in Filter(catalog, PeriodIs(p)) <==> x in catalog && x.period == p
  {
    forall x ensures x in Filter(catalog, PeriodIs(p)) <==> x in catalog && x.period == p {
      FilterMember(catalog, PeriodIs(p), x);
    }
  }

  // ----- Grouping by category, in first-seen order -----

  datatype CategoryGroup = CategoryGroup(category: TaskCategory, items: seq<ChecklistItem>)

  function CategoryIs(c: TaskCategory): ChecklistItem -> bool
  {
    (x: ChecklistItem) => x.category == c
  }

  /** The categories of `items`, each once, in the order of their first occurrence. */
  function FirstSeen(items: seq<ChecklistItem>): seq<TaskCategory>
  {
    if items == [] then []
    else
      var init := FirstSeen(items[..|items| - 1]);
      var last := items[|items| - 1];
      if last.category in init then init else init + [last.category]
  }

  /** The first-seen categories are exactly the categories of the items, each listed once. */
  lemma {:induction false} FirstSeenSpec(items: seq<ChecklistItem>)
    ensures forall c :: c in FirstSeen(items) <==> exists x :: x in items && x.category == c
    ensures Distinct(FirstSeen(items))
    decreases |items|
  {
    if items != [] {
      var init := items[..|items| - 1];
      FirstSeenSpec(init);
      assert forall x :: x in items <==> x in init || x == items[|items| - 1];
    }
  }

  /** A category that is not among the first-seen ones has no items. */
  lemma UnseenCategoryIsEmpty(items: seq<ChecklistItem>, c: TaskCategory)
    requires c !in FirstSeen(items)
    ensures Filter(items, CategoryIs(c)) == []
  {
    FirstSeenSpec(items);
    if Filter(items, CategoryIs(c)) != [] {
      var y := Filter(items, CategoryIs(c))[0];
      FilterMember(items, CategoryIs(c), y);
    }
  }

  /** One group per category of `cs`, holding the items of that category in input order. */
  function GroupsFor(cs: seq<TaskCategory>, items: seq<ChecklistItem>): (gs: seq<CategoryGroup>)
    ensures |gs| == |cs|
    ensures forall j :: 0 <= j < |cs| ==> gs[j] == CategoryGroup(cs[j], Filter(items, CategoryIs(cs[j])))
  {
    if cs == [] then []
    else
      var c := cs[|cs| - 1];
      GroupsFor(cs[..|cs| - 1], items) + [CategoryGroup(c, Filter(items, CategoryIs(c)))]
  }

  /** The items of all groups, one group after the other. */
  function Flatten(gs: seq<CategoryGroup>): seq<ChecklistItem>
  {
    if gs == [] then [] else Flatten(gs[..|gs| - 1]) + gs[|gs| - 1].items
  }

  /** The groups the page shows for `items`. */
  ghost function Grouping(items: seq<ChecklistItem>): seq<CategoryGroup>
  {
    GroupsFor(FirstSeen(items), items)
  }

  /**
   * Groups `items` by category the way a JavaScript `Map` does: a new
   * category is appended to the key order, a known one keeps its place, and
   * each item is pushed onto the list of its category.
   */
  method CategoriesForItems(items: seq<ChecklistItem>) returns (groups: seq<CategoryGroup>)
    ensures groups == Grouping(items)
    ensures multiset(Flatten(groups)) == multiset(items)
    ensures forall i, j :: 0 <= i < j < |groups| ==> groups[i].category != groups[j].category
    ensures forall g :: g in groups ==> g.items != [] && forall x :: x in g.items ==> x.category == g.category
  {
    var keys: seq<TaskCategory> := [];
    var categoryMap: map<TaskCategory, seq<ChecklistItem>> := map[];
    for i := 0 to |items|
      invariant MapMirrors(items[..i], keys, categoryMap)
    {
      var item := items[i];
      assert items[..i + 1] == items[..i] + [item];
      var existing := if item.category in categoryMap then categoryMap[item.category] else [];
      var keys' := if item.category in categoryMap then keys else keys + [item.category];
      existing := existing + [item];
      PushPreservesMirror(items[..i], item, keys, categoryMap);
      keys, categoryMap := keys', categoryMap[item.category := existing];
    }
    assert items[..|items|] == items;
    groups := [];
    for j := 0 to |keys|
      invariant groups == GroupsFor(keys[..j], items)
    {
      assert keys[..j + 1][..j] == keys[..j];
      groups := groups + [CategoryGroup(keys[j], categoryMap[keys[j]])];
    }
    assert keys[..|keys|] == keys;
    GroupingIsPartition(items);
    GroupingFacts(items);
  }

  /** The key order and the lists of the category map agree with the items seen so far. */
  ghost predicate MapMirrors(seen: seq<ChecklistItem>, keys: seq<TaskCategory>, m: map<TaskCategory, seq<ChecklistItem>>)
  {
    && keys == FirstSeen(seen)
    && (forall c :: c in m <==> c in keys)
    && (forall c :: c in m ==> m[c] == Filter(seen, CategoryIs(c)))
  }

  lemma PushPreservesMirror(seen: seq<ChecklistItem>, item: ChecklistItem,
                            keys: seq<TaskCategory>, m: map<TaskCategory, seq<ChecklistItem>>)
    requires MapMirrors(seen, keys, m)
    ensures var existing := if item.category in m then m[item.category] else [];
            var keys' := if item.category in m then keys else keys + [item.category];
            MapMirrors(seen + [item], keys', m[item.category := existing + [item]])
  {
    var s' := seen + [item];
    assert s'[..|s'| - 1] == seen;
    forall c ensures Filter(s', CategoryIs(c)) == Filter(seen, CategoryIs(c)) + if c == item.category then [item] else [] {
      FilterSnoc(seen, item, CategoryIs(c));
    }
    if item.category !in m {
      UnseenCategoryIsEmpty(seen, item.category);
    }
  }

  /** The groups have pairwise different categories, and each holds only items of its own category. */
  lemma GroupingFacts(items: seq<ChecklistItem>)
    ensures var gs := Grouping(items);
            && (forall i, j :: 0 <= i < j < |gs| ==> gs[i].category != gs[j].category)
            && (forall g :: g in gs ==> g.items != [] && forall x :: x in g.items ==> x.category == g.category)
  {
    var gs := Grouping(items);
    var cs := FirstSeen(items);
    FirstSeenSpec(items);
    GroupsAreNonEmpty(items);
    forall g, x | g in gs && x in g.items ensures x.category == g.category {
      var j :| 0 <= j < |cs| && gs[j] == g;
      FilterMember(items, CategoryIs(cs[j]), x);
    }
  }

  /** The items of the categories `cs`, category after category. */
  function Collected(cs: seq<TaskCategory>, items: seq<ChecklistItem>): seq<ChecklistItem>
  {
    if cs == [] then [] else Collected(cs[..|cs| - 1], items) + Filter(items, CategoryIs(cs[|cs| - 1]))
  }

  lemma {:induction false} FlattenGroupsFor(cs: seq<TaskCategory>, items: seq<ChecklistItem>)
    ensures Flatten(GroupsFor(cs, items)) == Collected(cs, items)
    decreases |cs|
  {
    if cs != [] {
      var cs' := cs[..|cs| - 1];
      FlattenGroupsFor(cs', items);
      var gs := GroupsFor(cs, items);
      assert gs[..|gs| - 1] == GroupsFor(cs', items);
    }
  }

  /** The concatenated groups are a permutation of the input. */
  lemma {:induction false} GroupingIsPartition(items: seq<ChecklistItem>)
    ensures multiset(Flatten(Grouping(items))) == multiset(items)
  {
    FlattenGroupsFor(FirstSeen(items), items);
    CollectedIsPermutation(items);
  }

  lemma {:induction false} CollectedIsPermutation(items: seq<ChecklistItem>)
    ensures multiset(Collected(FirstSeen(items), items)) == multiset(items)
    decreases |items|
  {
    if items != [] {
      var init, x := items[..|items| - 1], items[|items| - 1];
      var cs, c := FirstSeen(init), x.category;
      assert items == init + [x];
      FirstSeenSpec(init);
      if c in cs {
        calc {
          multiset(Collected(FirstSeen(items), items));
          multiset(Collected(cs, init + [x]));
          { CollectedAppendItem(cs, init, x); }
          multiset(Collected(cs, init)) + multiset{x};
          { CollectedIsPermutation(init); }
          multiset(init) + multiset{x};
          multiset(items);
        }
      } else {
        var tail := Filter(items, CategoryIs(c));
        assert tail == [x] by {
          UnseenCategoryIsEmpty(init, c);
          FilterSnoc(init, x, CategoryIs(c));
        }
        assert (cs + [c])[..|cs|] == cs;
        calc {
          multiset(Collected(FirstSeen(items), items));
          multiset(Collected(cs + [c], items));
          multiset(Collected(cs, init + [x]) + tail);
          multiset(Collected(cs, init + [x])) + multiset{x};
          { CollectedAppendItem(cs, init, x); }
          multiset(Collected(cs, init)) + multiset{x};
          { CollectedIsPermutation(init); }
          multiset(init) + multiset{x};
          multiset(items);
        }
      }
    }
  }

  /** Adding one item to the input adds it to the items of its category, if `cs` has it. */
  lemma {:induction false} CollectedAppendItem(cs: seq<TaskCategory>, s: seq<ChecklistItem>, x: ChecklistItem)
    requires Distinct(cs)
    ensures multiset(Collected(cs, s + [x]))
         == multiset(Collected(cs, s)) + if x.category in cs then multiset{x} else multiset{}
    decreases |cs|
  {
    if cs != [] {
      DistinctInit(cs);
      CollectedAppendItem(cs[..|cs| - 1], s, x);
      CollectedAppendLast(cs, s, x);
      MultisetIndicator(cs, x.category, multiset{x});
    }
  }

  /** The step of the induction above: the last category's group gains `x` exactly when it is `x`'s category. */
  lemma CollectedAppendLast(cs: seq<TaskCategory>, s: seq<ChecklistItem>, x: ChecklistItem)
    requires cs != []
    ensures var cs', c := cs[..|cs| - 1], cs[|cs| - 1];
            multiset(Collected(cs, s + [x])) - multiset(Collected(cs', s + [x]))
            == multiset(Collected(cs, s)) - multiset(Collected(cs', s)) + if x.category == c then multiset{x} else multiset{}
  {
    FilterSnoc(s, x, CategoryIs(cs[|cs| - 1]));
  }

  /** In a distinct sequence, `y` is either the last element or among the others, never both. */
  lemma MultisetIndicator<T>(cs: seq<T>, y: T, m: multiset<ChecklistItem>)
    requires cs != [] && Distinct(cs)
    ensures (if y in cs[..|cs| - 1] then m else multiset{}) + (if y == cs[|cs| - 1] then m else multiset{})
         == if y in cs then m else multiset{}
  {
    DistinctInit(cs);
    InitOrLast(cs, y);
  }

  /** Every group of the page holds at least one item. */
  lemma GroupsAreNonEmpty(items: seq<ChecklistItem>)
    ensures forall g :: g in Grouping(items) ==> g.items != []
  {
    var cs := FirstSeen(items);
    FirstSeenSpec(items);
    forall g | g in Grouping(items) ensures g.items != [] {
      var j :| 0 <= j < |cs| && Grouping(items)[j] == g;
      assert cs[j] in cs;
      var x :| x in items && x.category == cs[j];
      FilterMember(items, CategoryIs(cs[j]), x);
    }
  }
}
