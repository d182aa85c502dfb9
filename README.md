# NEIS helper: checklist progress engine and page logic, modelled in Dafny

The NEIS helper is a web site for school staff who work with the NEIS
administration system. It has a dashboard, an annual calendar of tasks, a
per-period checklist, an FAQ and a sidebar. This project models the logic
behind those pages and proves properties of it:

- **Checklist page.** It maps a month to a school-year period and lists the
  catalog items of a period. The items are sorted by `order` with ties
  kept in catalog order, and grouped by category in first-seen order. The
  page counts the checked item and sub-item flags and shows a rounded
  percentage. It toggles single flags, resets the flags of a period, and
  saves the checked-state map only after the initial load.
- **Dashboard.** It has its own copy of the month-to-period rule. It finds
  the current month in the schedule and counts that month's tasks, its
  critical tasks and the tasks that have a deadline. It also picks three
  guide links for the period.
- **Schedule table.** The twelve monthly entries, each checked against the
  period rule.
- **Calendar page.** It counts tasks by priority, toggles the set of
  expanded month cards and adds up the yearly totals. It also builds the
  shortened preview of a collapsed card and the period colour guide.
- **FAQ page.** Search is a case-insensitive substring test. The page
  filters by category and query, toggles the set of open answers, jumps
  from the popular list, and computes the popular list.
- **Sidebar.** It decides which navigation entry is highlighted.

The modules follow the source:

| module | file |
|---|---|
| `Types` | the record and union types of `src/lib/types.ts` |
| `Collections` | the array filter and set flip shared by the pages |
| `ChecklistCatalog` | period resolver, items of a period, category grouping |
| `ChecklistProgress` | the counting loop, the percent formula, the overall sum |
| `ChecklistState` | toggle, reset and load of the checked-state map |
| `ChecklistPage` | the checklist page as a class with its state and effects |
| `Schedule` | the `monthlySchedules` table |
| `Home` | the dashboard |
| `Calendar` | the calendar page (class `CalendarPage`) |
| `Faq` | the FAQ page (class `FaqPage`) |
| `Sidebar` | the navigation entries and `isActive` |

The checked-state map is `map<string, bool>`, and a missing key reads as
unchecked (for ids that do not name inherited object members; see Left out). The checklist and FAQ catalogs are parameters, because their
data files are not part of this model. The current month is a parameter
in place of the clock. The page's state lives in classes whose methods
update their fields. The storage slot is a field `saved` that records
every snapshot written, oldest first.

Two behaviours of the code worth noting:

- The save effect also runs once right after the load: `isLoaded` becomes
  true, so the loaded (or empty) map is written back once.
  `ChecklistPage.Page.Mount` states that write.
- The overall progress sums only the seven tab periods. Items of the
  `always` period are not counted in it, as
  `ChecklistProgress.OverallCountsTabPeriodItems` shows.

## Model

| member | source | states |
|---|---|---|
| ChecklistCatalog.GetCurrentPeriod | src/app/checklist/page.tsx:74-82 | never yields `always`; a month of 1..12 lies in its period's documented months; any other month falls through to the December period |
| ChecklistCatalog.GetCurrentPeriodMatchesMonths | src/app/checklist/page.tsx:74-82 | both directions: a month of 1..12 resolves to `p` exactly when `p`'s documented months contain it |
| ChecklistCatalog.EveryTabPeriodIsReachable | src/app/checklist/page.tsx:29-37 | a period is one of the seven tabs exactly when some month 1..12 resolves to it |
| ChecklistCatalog.SortByOrderSpec | src/app/checklist/page.tsx:108-112 | the sort by `order` yields a sorted permutation of its input in which items of equal `order` keep their input order (stable) |
| ChecklistCatalog.ItemsForPeriodSpec | src/app/checklist/page.tsx:108-112 | the items of a period are exactly the catalog items of that period, with multiplicity, ascending by `order`, ties in catalog order |
| ChecklistCatalog.InsertSorted | src/app/checklist/page.tsx:108-112 | inserting one item into a sorted list keeps it sorted |
| ChecklistCatalog.InsertPermutes | src/app/checklist/page.tsx:108-112 | inserting adds exactly that item to the multiset |
| ChecklistCatalog.InsertTies | src/app/checklist/page.tsx:108-112 | the inserted item goes before every item of the same `order` |
| ChecklistCatalog.CategoriesForItems | src/app/checklist/page.tsx:114-127 | the Map-based loop returns one group per category in first-seen order; the groups concatenate to a permutation of the input; categories are pairwise distinct; every group is non-empty and holds only its own category, in input order |
| ChecklistCatalog.FirstSeenSpec | src/app/checklist/page.tsx:114-127 | the key order lists exactly the categories that occur, each once |
| ChecklistCatalog.UnseenCategoryIsEmpty | src/app/checklist/page.tsx:114-127 | a category not yet among the keys has no items so far (the `?? []` case) |
| ChecklistCatalog.PushPreservesMirror | src/app/checklist/page.tsx:117-121 | one push keeps the key order equal to the first-seen categories and each map list equal to the filtered items seen so far |
| ChecklistCatalog.GroupingFacts | src/app/checklist/page.tsx:114-127 | groups have distinct categories; each is non-empty and holds only its own category |
| ChecklistCatalog.GroupingIsPartition | src/app/checklist/page.tsx:114-127 | the concatenated groups are a permutation of the input |
| ChecklistCatalog.CollectedIsPermutation | src/app/checklist/page.tsx:114-127 | the items of all first-seen categories, category after category, are a permutation of the input |
| ChecklistCatalog.CollectedAppendItem | src/app/checklist/page.tsx:114-127 | one more input item adds it once to the collected items when its category is listed, and not at all otherwise |
| ChecklistCatalog.GroupsAreNonEmpty | src/app/checklist/page.tsx:114-127 | no group is empty |
| ChecklistProgress.CountChecked | src/app/checklist/page.tsx:129-146 | the nested counting loop returns the number of checked flags and the number of flags over all sub-items and items; checked never exceeds total |
| ChecklistProgress.TotalIsItemsPlusSubItems | src/app/checklist/page.tsx:129-146 | the total is the sum over items of the number of sub-items plus one |
| ChecklistProgress.CountOneItem | src/app/checklist/page.tsx:133-145 | one item contributes one flag per sub-item plus its own, and its own flag counts independently of its sub-items |
| ChecklistProgress.AllCheckedIffFull | src/app/checklist/page.tsx:129-146 | checked equals total exactly when every counted flag is checked |
| ChecklistProgress.CountTrueAppend | src/app/checklist/page.tsx:129-146 | the checked count is additive over concatenated id lists |
| ChecklistProgress.IdsOfAppend | src/app/checklist/page.tsx:129-146 | the flags of concatenated item lists are the flags of each list, in order |
| ChecklistProgress.CountAppend | src/app/checklist/page.tsx:346-354 | counting is additive over concatenation of item lists |
| ChecklistProgress.Percent | src/app/checklist/page.tsx:159 | 0 for an empty list, otherwise 100·checked/total rounded half up (bounded between r-½ and r+½ in integers) |
| ChecklistProgress.PercentBounds | src/app/checklist/page.tsx:159 | the percentage lies in 0..100; it is 100 exactly when at most one flag in 200 is unchecked, and 0 exactly when fewer than one in 200 is checked |
| ChecklistProgress.PercentFullIffAllChecked | src/app/checklist/page.tsx:549 | below 200 flags, 100 percent (the completion mark) appears exactly when total > 0 and all flags are checked |
| ChecklistProgress.PercentExamples | src/app/checklist/page.tsx:355-356 | sample values, including 399 of 400 flags showing 100 percent |
| ChecklistProgress.OverallCountsTabPeriodItems | src/app/checklist/page.tsx:346-354 | the summed per-tab counts equal the count of every catalog item whose period is not `always` |
| ChecklistProgress.TabPeriods | src/app/checklist/page.tsx:29-37 | the seven tabs are distinct and are exactly the periods other than `always` |
| ChecklistProgress.PeriodSums | src/app/checklist/page.tsx:346-354 | over distinct periods, the sum of the per-period counts is the count of the catalog items whose period is among them |
| ChecklistProgress.SortKeepsCount | src/app/checklist/page.tsx:108-112 | sorting a list of items does not change its progress |
| ChecklistProgress.PeriodProgressAppend | src/app/checklist/page.tsx:108-112 | a new catalog item changes the progress of its own period's tab only, by its own count |
| ChecklistProgress.SumAppendItem | src/app/checklist/page.tsx:346-354 | a new catalog item adds its count to the overall sum once, and only when its period is among the summed ones |
| ChecklistProgress.SumShift | src/app/checklist/page.tsx:346-354 | over distinct periods, raising one period's figure raises the sum by that amount exactly when the period is summed |
| ChecklistProgress.SumOfEmpty | src/app/checklist/page.tsx:346-354 | an empty catalog sums to 0 of 0 |
| ChecklistState.ToggleItem | src/app/checklist/page.tsx:429-434 | the id is set to the negation of how it read before (missing reads as false); every other key keeps its presence and value |
| ChecklistState.ToggleTwice | src/app/checklist/page.tsx:429-434 | toggling twice restores how every id reads; a previously missing key remains, holding false |
| ChecklistState.ToggleUnrelatedKeepsCount | src/app/checklist/page.tsx:429-434 | toggling an id no counted item carries leaves the progress unchanged |
| ChecklistState.ResetItems | src/app/checklist/page.tsx:438-449 | the copy-and-delete loop removes exactly the ids of the items and their sub-items; every other key keeps its value |
| ChecklistState.ResetClearsProgress | src/app/checklist/page.tsx:436-451 | after the reset the period counts 0 checked and the same total |
| ChecklistState.ResetKeepsOtherProgress | src/app/checklist/page.tsx:436-451 | the progress of items sharing no id with the reset ones is unchanged |
| ChecklistState.CountTrueAgree | src/app/checklist/page.tsx:129-146 | the count reads a map only through the flags of the counted ids |
| ChecklistState.LoadCheckedState | src/app/checklist/page.tsx:88-97 | a missing or empty entry, or one that does not parse, loads as the empty map; otherwise the parsed map |
| ChecklistPage.Page.constructor | src/app/checklist/page.tsx:409-412 | empty map, first tab, not loaded, no confirmation, nothing saved |
| ChecklistPage.Page.SaveEffect | src/app/checklist/page.tsx:422-427 | writes the current map only once loaded |
| ChecklistPage.Page.Mount | src/app/checklist/page.tsx:414-427 | selects the current month's tab (never `always`) and loads the stored map; the page becomes loaded and the loaded map is written back once; the pre-load render writes nothing |
| ChecklistPage.Page.Toggle | src/app/checklist/page.tsx:429-434 | the map becomes the toggled map; the save follows; nothing is written before the load |
| ChecklistPage.Page.SelectPeriod | src/app/checklist/page.tsx:523 | only the selected tab changes; the save invariant is kept |
| ChecklistPage.Page.AskReset | src/app/checklist/page.tsx:587 | the confirmation opens; the save invariant is kept |
| ChecklistPage.Page.CancelReset | src/app/checklist/page.tsx:579 | the confirmation closes; the save invariant is kept |
| ChecklistPage.Page.ResetPeriod | src/app/checklist/page.tsx:436-451 | the selected tab's item and sub-item keys are deleted and no other key changes; the tab then counts 0 checked of the same total; the save follows and the confirmation closes |
| ChecklistPage.Page.PeriodView | src/app/checklist/page.tsx:453-464 | the selected tab's groups and its checked and total counts, with checked at most total |
| Schedule.TableShape | src/lib/data/schedule.ts:3-437 | twelve entries; entry i is month i+1 |
| Schedule.TableAgreesWithResolver | src/lib/data/schedule.ts:3-437 | every entry's period is the resolver's period for its month, lies in that period's documented months, and is never `always` |
| Schedule.MonthsAreUnique | src/lib/data/schedule.ts:3-437 | no two entries share a month |
| Schedule.EveryMonthHasTasks | src/lib/data/schedule.ts:8-435 | every entry has at least one task |
| Schedule.Entry | src/lib/data/schedule.ts:3-437 | entry i is month i+1, in the resolver's period, with tasks |
| Home.GetCurrentPeriod | src/app/page.tsx:31-39 | the dashboard's resolver never yields `always` |
| Home.ResolversAgree | src/app/page.tsx:31-39 | it agrees with the checklist page's resolver on every month |
| Home.PeriodTablesCoverResolvedPeriods | src/app/page.tsx:244-245 | the period of any month selects three guide links |
| Home.GuideLinksIffNotAlways | src/app/page.tsx:126-166 | a period has three guide links exactly when it is not `always`, and none exactly when it is |
| Home.FindMonth | src/app/page.tsx:237 | `find` returns nothing exactly when no entry has the month; otherwise an entry with that month that no earlier entry has (the first match) |
| Home.FindMonthUnique | src/app/page.tsx:237 | with distinct months, looking up entry i's month finds entry i |
| Home.DashboardFor | src/app/page.tsx:232-245 | the period is not `always` and has three links; the task total is the task count; critical and deadline counts do not exceed it; no entry for the month means no tasks |
| Home.CriticalCountIsExact | src/app/page.tsx:241 | the critical counter is the number of positions of the month's task list holding a critical task, duplicates counted |
| Home.DeadlineCountIsExact | src/app/page.tsx:242 | the deadline counter is the number of positions of the month's task list holding a task with a non-empty deadline |
| Collections.FilterCountsPositions | src/app/page.tsx:241-242 | a filter's length is the number of input positions that satisfy its test |
| Home.DashboardOnSchedule | src/app/page.tsx:236-240 | on the shipped table every month 1..12 finds its own entry, in the resolver's period, with at least one task |
| Calendar.PriorityCountsSum | src/app/calendar/page.tsx:134-141 | the four priority counts add up to the number of tasks |
| Calendar.PrioritySummary | src/app/calendar/page.tsx:201-208 | at most four badges, in the order critical, high, medium, low, each priority at most once; every badge has a non-zero count equal to its priority's count, and every priority with a non-zero count has its badge |
| Calendar.PrioritySummaryCoversTasks | src/app/calendar/page.tsx:201-208 | leaving out zero counts loses no task: the badges add up to the task count |
| Calendar.BadgeTotalAppend | src/app/calendar/page.tsx:201-208 | badge totals are additive over concatenation |
| Calendar.CalendarPage.constructor | src/app/calendar/page.tsx:351-357 | only the current month starts expanded |
| Calendar.CalendarPage.CardBody | src/app/calendar/page.tsx:302-343 | a card shows the no-task note exactly when the month has no tasks, the full list exactly when it has tasks and is expanded, and the collapsed preview of its tasks exactly when it has tasks and is not expanded |
| Calendar.CalendarPage.ToggleMonth | src/app/calendar/page.tsx:359-369 | flips the membership of that month and of no other |
| Collections.FlipTwice | src/app/calendar/page.tsx:359-369 | toggling the same month (or FAQ id) twice restores the set |
| Calendar.TruncateTitle | src/app/calendar/page.tsx:313-315 | titles of at most ten characters are unchanged; longer ones become their first ten characters followed by "..." |
| Calendar.TruncatedTitles | src/app/calendar/page.tsx:306-316 | one shortened title per task, in order |
| Calendar.CollapsedPreview | src/app/calendar/page.tsx:302-323 | min(5, n) chips showing the first tasks' shortened titles, and a "+(n-5)" marker exactly when n > 5 |
| Calendar.YearlyTotalsAddUp | src/app/calendar/page.tsx:372-383 | the four yearly priority totals add up to the yearly task total, so critical plus high never exceeds it |
| Calendar.ColourGuideIsTabPeriods | src/app/calendar/page.tsx:464-466 | the colour guide lists every period but `always`, in declaration order: exactly the seven checklist tabs |
| Faq.Lower | src/app/faq/page.tsx:75 | lower-casing maps every character and keeps the length |
| Faq.Includes | src/app/faq/page.tsx:77-79 | true exactly when the needle occurs at some position of the haystack |
| Faq.SomeTagIncludes | src/app/faq/page.tsx:79 | true exactly when some lowered tag contains the lowered query |
| Faq.MatchesSearch | src/app/faq/page.tsx:69-81 | true exactly when the lowered query occurs in the lowered question, the lowered answer or some lowered tag |
| Faq.EmptyQueryMatches | src/app/faq/page.tsx:69-81 | the empty query matches every entry |
| Faq.TrimEmptyIffBlank | src/app/faq/page.tsx:235-236 | a query trims to "" exactly when every character is white space |
| Faq.TrimStartKeepsBlankness | src/app/faq/page.tsx:235-236 | trimming the start keeps a string blank or non-blank |
| Faq.TrimEndEmptyIff | src/app/faq/page.tsx:235-236 | trimming the end yields "" exactly for a blank string |
| Faq.FilteredFaqsSpec | src/app/faq/page.tsx:231-240 | the listing is the catalog at increasing positions; a position is kept exactly when its entry passes the category and search tests; an entry is listed exactly when it is in the catalog and passes both |
| Faq.NoFilterListsAll | src/app/faq/page.tsx:233-237 | with every category and a blank query the whole catalog is listed |
| Faq.ActiveFilters | src/app/faq/page.tsx:242-243 | filters are active exactly when the query has a non-white-space character or a category is chosen |
| Faq.InactiveFiltersListAll | src/app/faq/page.tsx:231-243 | without active filters the whole catalog is listed |
| Faq.PopularFaqsSpec | src/app/faq/page.tsx:43-50 | the popular list is the catalog at increasing positions, holding exactly the entries whose ids are on the popular list, in catalog order |
| Faq.FaqPage.constructor | src/app/faq/page.tsx:194-198 | empty query, every category, no open answer |
| Faq.FaqPage.ToggleFaq | src/app/faq/page.tsx:200-210 | flips the membership of that id and of no other |
| Faq.FaqPage.HandlePopularSelect | src/app/faq/page.tsx:212-221 | adds the id to the open set, keeping the others, so repeating it changes nothing more; clears the query and the category; no filter is then active and the whole catalog is listed |
| Faq.FaqPage.SetSearchQuery | src/app/faq/page.tsx:194 | only the query changes |
| Faq.FaqPage.SetCategory | src/app/faq/page.tsx:195-197 | only the category changes |
| Sidebar.IsActive | src/app/components/Sidebar.tsx:46-49 | the root entry is active only on "/"; any other entry is active exactly when its href is a character prefix of the path |
| Sidebar.PrefixesNest | src/app/components/Sidebar.tsx:48 | two prefixes of one path are prefixes of each other |
| Sidebar.SectionHrefsNotNested | src/app/components/Sidebar.tsx:17-23 | no non-root href is a prefix of another |
| Sidebar.AtMostOneActive | src/app/components/Sidebar.tsx:17-23 | on any path at most one navigation entry is active |
| Sidebar.PlainPrefixMatch | src/app/components/Sidebar.tsx:48 | the test is per character, not per path segment: "/faqx" activates the FAQ entry |

## Left out

- Browser storage and JSON: reading the storage slot, `JSON.parse` and `JSON.stringify` become a parameter (`stored`, `parse`). A stored value that parses to something other than an object of booleans is not modelled. A failed write (quota) is not modelled: every write the save effect makes is recorded.
- The `typeof window` guard of the load and the save: the model always runs in the browser.
- React scheduling: one call of a method is one state update followed by the effects it triggers. Batching, the order of re-renders and hydration are not modelled.
- ChecklistProgress.Percent: integer round-half-up stands in for `Math.round` on IEEE doubles. The floating-point division can round differently at exact halves.
- ChecklistProgress.PercentFullIffAllChecked: the iff is stated only below 200 flags. At 200 flags or more, rounding half up shows 100 percent with one flag unchecked (`PercentExamples`: 399 of 400).
- Calendar.TruncateTitle: lengths and cuts count characters (Unicode scalar values), whereas JavaScript's `length` and `slice` count UTF-16 code units. A title with characters outside the Basic Multilingual Plane (emoji, say) is cut at a different point, and the source can split a surrogate pair. Every title in the shipped schedule lies inside that plane.
- ChecklistProgress.IsChecked and ChecklistState.ToggleItem: ids are assumed not to name members of `Object.prototype`. On the page's plain object, an id such as `constructor` or `toString` reads an inherited member, so it counts as checked although it has no key of its own.
- ChecklistCatalog.SortByOrder: `order` is an integer. Fractional or NaN orders, which the comparator `a.order - b.order` would also meet, are not modelled.
- Faq.Lower: only ASCII letters are lower-cased. JavaScript's `toLowerCase` also maps other scripts, so non-ASCII case folding is not captured.
- The clock: `new Date()` becomes the `month` parameter.
- The scroll after `handlePopularSelect` (`setTimeout`, `scrollIntoView`).
- The sidebar's `mobileOpen` state and body-scroll lock are display-only.
- All rendering, CSS classes, icons, label maps and layout, apart from the choice of a month card's body (`Calendar.CalendarPage.CardBody`).
- The dashboard's period notices, the schedule's month headings beyond the `title` field, and the task descriptions: they are text that no modelled logic reads.
- The checklist and FAQ catalogs are parameters, because their data files are not part of this model.
- The `completed` field of checklist items and sub-items is dropped: the checklist page never reads it.
- `functions/api/checklist.ts`, the Android wrapper and the guide pages are not part of this model.
- The concrete yearly totals of the shipped table (54 tasks: 14 critical, 19 high, 19 medium, 2 low) are not proved as constants. `YearlyTotalsAddUp` proves their relation for any table.
