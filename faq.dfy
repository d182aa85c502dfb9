/**
 * The FAQ page: the case-insensitive search, the category and search
 * filter over the FAQ catalog, the set of opened answers, the jump from the
 * popular list, and the popular list itself.
 */
module Faq {
  import opened Types
  import opened Collections

  // ----- Case-insensitive substring search -----

  /** Lower-casing of one character; only ASCII letters are mapped. */
  function LowerChar(c: char): char
  {
    if 'A' <= c <= 'Z' then (c as int + 32) as char else c
  }

  function Lower(s: string): (r: string)
    ensures |r| == |s|
    ensures forall i :: 0 <= i < |s| ==> r[i] == LowerChar(s[i])
  {
    if s == [] then [] else Lower(s[..|s| - 1]) + [LowerChar(s[|s| - 1])]
  }

  ghost predicate OccursAt(hay: string, needle: string, i: int)
  {
    0 <= i && i + |needle| <= |hay| && hay[i..i + |needle|] == needle
  }

  /** `needle` occurs somewhere in `hay`; the empty string occurs everywhere. */
  ghost predicate Occurs(hay: string, needle: string)
  {
    exists i :: OccursAt(hay, needle, i)
  }

  /** The substring test of strings: does `needle` start at some position of `hay`? */
  function Includes(hay: string, needle: string): (b: bool)
    ensures b <==> Occurs(hay, needle)
    decreases |hay|
  {
    if |needle| > |hay| then
      assert forall i :: !OccursAt(hay, needle, i);
      false
    else if needle <= hay then
      assert OccursAt(hay, needle, 0);
      true
    else
      var rest := Includes(hay[1..], needle);
      OccursShift(hay, needle);
      rest
  }

  /** When `needle` is not a prefix of `hay`, it occurs in `hay` exactly when it occurs in `hay[1..]`. */
  lemma OccursShift(hay: string, needle: string)
    requires |needle| <= |hay| && !(needle <= hay)
    ensures Occurs(hay, needle) <==> Occurs(hay[1..], needle)
  {
    if Occurs(hay, needle) {
      var i :| OccursAt(hay, needle, i);
      assert hay[0..|needle|] == hay[..|needle|];
      assert i > 0;
      assert hay[1..][i - 1..i - 1 + |needle|] == hay[i..i + |needle|];
      assert OccursAt(hay[1..], needle, i - 1);
    }
    if Occurs(hay[1..], needle) {
      var i :| OccursAt(hay[1..], needle, i);
      assert hay[1..][i..i + |needle|] == hay[i + 1..i + 1 + |needle|];
      assert OccursAt(hay, needle, i + 1);
    }
  }

  /** Some tag contains the lowered query once lowered itself. */
  function SomeTagIncludes(tags: seq<string>, lowerQuery: string): (b: bool)
    ensures b <==> exists t :: t in tags && Occurs(Lower(t), lowerQuery)
  {
    if tags == [] then false
    else
      var rest := SomeTagIncludes(tags[1..], lowerQuery);
      TagsSplit(tags, lowerQuery);
      Includes(Lower(tags[0]), lowerQuery) || rest
  }

  lemma TagsSplit(tags: seq<string>, lowerQuery: string)
    requires tags != []
    ensures (exists t :: t in tags && Occurs(Lower(t), lowerQuery))
        <==> Occurs(Lower(tags[0]), lowerQuery) || exists t :: t in tags[1..] && Occurs(Lower(t), lowerQuery)
  {
    if exists t :: t in tags && Occurs(Lower(t), lowerQuery) {
      var t :| t in tags && Occurs(Lower(t), lowerQuery);
      if t != tags[0] {
        assert t in tags[1..];
      }
    }
    if exists t :: t in tags[1..] && Occurs(Lower(t), lowerQuery) {
      var t :| t in tags[1..] && Occurs(Lower(t), lowerQuery);
      assert t in tags;
    }
  }

  /**
   * A FAQ entry matches a query when the lowered query occurs in the
   * lowered question, in the lowered answer, or in some lowered tag.
   */
  function MatchesSearch(query: string, question: string, answer: string, tags: seq<string>): (b: bool)
    ensures b <==> || Occurs(Lower(question), Lower(query))
                   || Occurs(Lower(answer), Lower(query))
                   || exists t :: t in tags && Occurs(Lower(t), Lower(query))
  {
    var lowerQuery := Lower(query);
    Includes(Lower(question), lowerQuery)
    || Includes(Lower(answer), lowerQuery)
    || SomeTagIncludes(tags, lowerQuery)
  }

  /** The empty query matches every entry. */
  lemma EmptyQueryMatches(question: string, answer: string, tags: seq<string>)
    ensures MatchesSearch("", question, answer, tags)
  {
    assert OccursAt(Lower(question), Lower(""), 0);
  }

  // ----- Trimming -----

  /** The characters that the string `trim` removes: white space and line terminators. */
  predicate IsWhitespace(c: char)
  {
    var n := c as int;
    || 0x09 <= n <= 0x0D                          // tab, line feed, vertical tab, form feed, carriage return
    || n == 0x20 || n == 0xA0 || n == 0x1680      // space, no-break space, ogham space mark
    || 0x2000 <= n <= 0x200A                      // en quad .. hair space
    || n == 0x2028 || n == 0x2029                 // line and paragraph separators
    || n == 0x202F || n == 0x205F || n == 0x3000  // narrow no-break, medium mathematical, ideographic space
    || n == 0xFEFF                                // byte order mark
  }

  function TrimStart(s: string): string
  {
    if s != [] && IsWhitespace(s[0]) then TrimStart(s[1..]) else s
  }

  function TrimEnd(s: string): string
  {
    if s != [] && IsWhitespace(s[|s| - 1]) then TrimEnd(s[..|s| - 1]) else s
  }

  function Trim(s: string): string
  {
    TrimEnd(TrimStart(s))
  }

  ghost predicate AllWhitespace(s: string)
  {
    forall i :: 0 <= i < |s| ==> IsWhitespace(s[i])
  }

  /** A query trims to the empty string exactly when every character of it is white space. */
  lemma TrimEmptyIffBlank(s: string)
    ensures Trim(s) == "" <==> AllWhitespace(s)
  {
    TrimStartKeepsBlankness(s);
    TrimEndEmptyIff(TrimStart(s));
  }

  /** Dropping leading white space neither creates nor removes a non-blank character. */
  lemma {:induction false} TrimStartKeepsBlankness(s: string)
    ensures AllWhitespace(TrimStart(s)) <==> AllWhitespace(s)
    decreases |s|
  {
    if s != [] && IsWhitespace(s[0]) {
      var rest := s[1..];
      TrimStartKeepsBlankness(rest);
      assert forall i :: 0 < i < |s| ==> s[i] == rest[i - 1];
      assert forall i :: 0 <= i < |rest| ==> rest[i] == s[i + 1];
    }
  }

  /** Trimming the end of a string yields nothing exactly when the string is blank. */
  lemma {:induction false} TrimEndEmptyIff(s: string)
    ensures TrimEnd(s) == "" <==> AllWhitespace(s)
    decreases |s|
  {
    if s != [] && IsWhitespace(s[|s| - 1]) {
      var init := s[..|s| - 1];
      TrimEndEmptyIff(init);
      assert forall i :: 0 <= i < |init| ==> init[i] == s[i];
    }
  }

  // ----- The filter -----

  /** The category chips: every entry, or one category. */
  datatype CategoryFilter = All | Only(category: TaskCategory)

  predicate CategoryMatches(filter: CategoryFilter, f: Faq)
  {
    filter.All? || f.category == filter.category
  }

  /** A blank query imposes no condition; any other query must match. */
  predicate SearchMatches(query: string, f: Faq)
  {
    Trim(query) == "" || MatchesSearch(query, f.question, f.answer, f.tags)
  }

  function Keep(filter: CategoryFilter, query: string): Faq -> bool
  {
    (f: Faq) => CategoryMatches(filter, f) && SearchMatches(query, f)
  }

  /** The entries the page lists for a category filter and a query, in catalog order. */
  function FilteredFaqs(faqs: seq<Faq>, filter: CategoryFilter, query: string): seq<Faq>
  {
    Filter(faqs, Keep(filter, query))
  }

  /**
   * The listed entries are the catalog restricted to increasing positions,
   * and those positions are exactly the entries that match both the
   * category and the query.
   */
  lemma FilteredFaqsSpec(faqs: seq<Faq>, filter: CategoryFilter, query: string)
    ensures SelectedAt(FilteredFaqs(faqs, filter, query), faqs, KeptIndices(faqs, Keep(filter, query)), Keep(filter, query))
    ensures forall i :: 0 <= i < |faqs| ==>
              (i in KeptIndices(faqs, Keep(filter, query)) <==> CategoryMatches(filter, faqs[i]) && SearchMatches(query, faqs[i]))
    ensures forall f :: f in FilteredFaqs(faqs, filter, query) <==> f in faqs && CategoryMatches(filter, f) && SearchMatches(query, f)
  {
    FilterIsSelection(faqs, Keep(filter, query));
    forall f ensures f in FilteredFaqs(faqs, filter, query) <==> f in faqs && CategoryMatches(filter, f) && SearchMatches(query, f) {
      FilterMember(faqs, Keep(filter, query), f);
    }
  }

  /** With every category and a blank query, the whole catalog is listed. */
  lemma NoFilterListsAll(faqs: seq<Faq>, query: string)
    requires AllWhitespace(query)
    ensures FilteredFaqs(faqs, All, query) == faqs
  {
    TrimEmptyIffBlank(query);
    FilterAll(faqs, Keep(All, query));
  }

  // ----- The popular list -----

  const PopularFaqIds: seq<string> := ["faq-1", "faq-19", "faq-8", "faq-31", "faq-33", "faq-40"]

  function IsPopular(f: Faq): bool
  {
    f.id in PopularFaqIds
  }

  /** The popular entries, in catalog order. */
  function PopularFaqs(faqs: seq<Faq>): seq<Faq>
  {
    Filter(faqs, IsPopular)
  }

  /** The popular list is the sub-sequence of the catalog whose ids are on the popular list. */
  lemma PopularFaqsSpec(faqs: seq<Faq>)
    ensures SelectedAt(PopularFaqs(faqs), faqs, KeptIndices(faqs, IsPopular), IsPopular)
    ensures forall f :: f in PopularFaqs(faqs) <==> f in faqs && f.id in PopularFaqIds
  {
    FilterIsSelection(faqs, IsPopular);
    forall f ensures f in PopularFaqs(faqs) <==> f in faqs && f.id in PopularFaqIds {
      FilterMember(faqs, IsPopular, f);
    }
  }

  // ----- The page -----

  class FaqPage {
    /** The static FAQ catalog the page reads. */
    const faqs: seq<Faq>
    var searchQuery: string
    var activeCategory: CategoryFilter
    var openIds: set<string>

    constructor (faqs: seq<Faq>)
      ensures this.faqs == faqs
      ensures searchQuery == "" && activeCategory == All && openIds == {}
    {
      this.faqs := faqs;
      searchQuery := "";
      activeCategory := All;
      openIds := {};
    }

    /** A click on a question: the copy of the open set gains or loses that id, nothing else changes. */
    method ToggleFaq(id: string)
      modifies this`openIds
      ensures openIds == Flip(old(openIds), id)
      ensures id in openIds <==> id !in old(openIds)
      ensures forall k :: k != id ==> (k in openIds <==> k in old(openIds))
    {
      var next := openIds;
      if id in next {
        next := next - {id};
      } else {
        next := next + {id};
      }
      openIds := next;
    }

    /**
     * A click in the popular list: the entry opens (other open entries stay
     * open) and both filters are cleared, so the whole catalog is listed.
     * Repeating the click changes nothing more.
     */
    method HandlePopularSelect(id: string)
      modifies this`openIds, this`searchQuery, this`activeCategory
      ensures openIds == old(openIds) + {id}
      ensures searchQuery == "" && activeCategory == All
      ensures !HasActiveFilters() && Listed() == faqs
    {
      var next := openIds;
      next := next + {id};
      openIds := next;
      searchQuery := "";
      activeCategory := All;
      NoFilterListsAll(faqs, searchQuery);
    }

    method SetSearchQuery(query: string)
      modifies this`searchQuery
      ensures searchQuery == query
    {
      searchQuery := query;
    }

    method SetCategory(filter: CategoryFilter)
      modifies this`activeCategory
      ensures activeCategory == filter
    {
      activeCategory := filter;
    }

    /** A non-blank query or a chosen category. */
    predicate HasActiveFilters()
      reads this
    {
      ActiveFilters(searchQuery, activeCategory)
    }

    /** The entries the page lists. */
    function Listed(): seq<Faq>
      reads this
    {
      FilteredFaqs(faqs, activeCategory, searchQuery)
    }
  }

  /**
   * The filters are active when the trimmed query is not empty or a
   * category is chosen: exactly when the query holds a character other than
   * white space or the filter is not `All`.
   */
  function ActiveFilters(query: string, filter: CategoryFilter): (b: bool)
    ensures b <==> !AllWhitespace(query) || filter != All
  {
    TrimEmptyIffBlank(query);
    Trim(query) != "" || filter != All
  }

  /** Without active filters the whole catalog is listed. */
  lemma InactiveFiltersListAll(faqs: seq<Faq>, filter: CategoryFilter, query: string)
    requires !ActiveFilters(query, filter)
    ensures FilteredFaqs(faqs, filter, query) == faqs
  {
    NoFilterListsAll(faqs, query);
  }
}
