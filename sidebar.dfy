/**
 * The navigation sidebar: its five entries and the rule that highlights the
 * entry of the current path.
 */
module Sidebar {

  datatype NavItem = NavItem(href: string, text: string)

  const NavItems: seq<NavItem> := [
    NavItem("/", "대시보드"),
    NavItem("/calendar", "연간일정"),
    NavItem("/guides", "업무가이드"),
    NavItem("/checklist", "체크리스트"),
    NavItem("/faq", "FAQ")
  ]

  /**
   * The dashboard entry is active only on the root path itself; every other
   * entry is active on every path that starts with its href.
   */
  function IsActive(pathname: string, href: string): (b: bool)
    ensures href == "/" ==> (b <==> pathname == "/")
    ensures href != "/" ==> (b <==> |href| <= |pathname| && forall i :: 0 <= i < |href| ==> pathname[i] == href[i])
  {
    if href == "/" then pathname == "/" else href <= pathname
  }

  /** Two prefixes of the same path are prefixes of one another. */
  lemma PrefixesNest(a: string, b: string, p: string)
    ensures a <= p && b <= p ==> a <= b || b <= a
  {
    if a <= p && b <= p && |a| <= |b| {
      assert b[..|a|] == p[..|a|];
    }
  }

  const SectionHrefs: seq<string> := ["/calendar", "/guides", "/checklist", "/faq"]

  /** No href of the sidebar but the root's is a prefix of another. */
  lemma SectionHrefsNotNested()
    ensures forall a, b :: a in SectionHrefs && b in SectionHrefs && a != b ==> !(a <= b)
  {
    forall a, b | a in SectionHrefs && b in SectionHrefs && a != b ensures !(a <= b) {
      assert |a| > 2 && |b| > 2 && (a[1] != b[1] || a[2] != b[2]);
    }
  }

  /** On any path at most one entry is highlighted, because no href but the root's is a prefix of another. */
  lemma AtMostOneActive(pathname: string)
    ensures forall i, j :: 0 <= i < j < |NavItems| ==> !(IsActive(pathname, NavItems[i].href) && IsActive(pathname, NavItems[j].href))
  {
    var hs := ["/"] + SectionHrefs;
    assert forall i :: 0 <= i < |NavItems| ==> NavItems[i].href == hs[i];
    SectionHrefsNotNested();
    forall i, j | 0 <= i < j < 5 ensures !(IsActive(pathname, hs[i]) && IsActive(pathname, hs[j])) {
      assert hs[j] in SectionHrefs && |hs[j]| > 1;
      if i > 0 {
        assert hs[i] in SectionHrefs && hs[i] != hs[j];
        PrefixesNest(hs[i], hs[j], pathname);
      }
    }
  }

  /** The test is on characters, not path segments: "/faqx" highlights the FAQ entry. */
  lemma PlainPrefixMatch()
    ensures IsActive("/faqx", "/faq")
    ensures IsActive("/guides/permission", "/guides")
    ensures !IsActive("/calendar", "/")
  {
  }
}
