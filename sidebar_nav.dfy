/** The sidebar's navigation entries and the rule that highlights the entry
    for the current path. */
module SidebarNav {
  import opened Text

  datatype NavItem = NavItem(href: string, caption: string)

  /** `navItems`, in the order the sidebar renders them. */
  const NavItems: seq<NavItem> := [
    NavItem("/", "Dashboard"),
    NavItem("/inventory", "My Pantry"),
    NavItem("/recipes", "AI Recipes"),
    NavItem("/sustainability", "Sustainability")
  ]

  /** The root entry matches only the root path; every other entry matches
      every path that starts with its href. */
  predicate IsActive(item: NavItem, pathname: string) {
    if item.href == "/" then pathname == "/" else StartsWith(pathname, item.href)
  }

  /** The highlight flag of each rendered entry. */
  function ActiveFlags(pathname: string): (r: seq<bool>)
    ensures |r| == |NavItems|
    ensures forall i :: 0 <= i < |NavItems| ==> (r[i] <==> IsActive(NavItems[i], pathname))
  {
    seq(|NavItems|, i requires 0 <= i < |NavItems| => IsActive(NavItems[i], pathname))
  }

  /** The shape of an entry list for which the highlight is unambiguous:
      the hrefs are distinct, every non-root href is longer than "/", and no
      non-root href is a prefix of another. */
  predicate PrefixFree(items: seq<NavItem>) {
    && (forall i :: 0 <= i < |items| && items[i].href != "/" ==> |items[i].href| >= 2)
    && (forall i, j :: 0 <= i < |items| && 0 <= j < |items| && i != j ==>
          items[i].href != items[j].href
          && (items[i].href != "/" ==> !StartsWith(items[j].href, items[i].href)))
  }

  /** Two prefixes of one string: the shorter is a prefix of the longer. */
  lemma PrefixesNest(p: string, a: string, b: string)
    requires StartsWith(p, a) && StartsWith(p, b) && |a| <= |b|
    ensures StartsWith(b, a)
  {
    assert b[..|a|] == p[..|b|][..|a|];
  }

  /** For a prefix-free entry list at most one entry is highlighted, whatever
      the path. */
  lemma {:induction false} AtMostOneActiveIn(items: seq<NavItem>, pathname: string, i: int, j: int)
    requires PrefixFree(items)
    requires 0 <= i < |items| && 0 <= j < |items|
    requires IsActive(items[i], pathname) && IsActive(items[j], pathname)
    ensures i == j
  {
    var a := items[i].href;
    var b := items[j].href;
    if i != j && a != "/" && b != "/" {
      if |a| <= |b| {
        PrefixesNest(pathname, a, b);
      } else {
        PrefixesNest(pathname, b, a);
      }
    }
  }

  lemma NavItemsPrefixFree()
    ensures PrefixFree(NavItems)
  {
    forall i, j | 0 <= i < |NavItems| && 0 <= j < |NavItems| && i != j
      ensures NavItems[i].href != NavItems[j].href
      ensures NavItems[i].href != "/" ==> !StartsWith(NavItems[j].href, NavItems[i].href)
    {
      var a := NavItems[i].href;
      var b := NavItems[j].href;
      if i != 0 && j != 0 {
        assert a[1] != b[1];
      } else if i == 0 {
        assert |a| < |b|;
      } else {
        assert |b| < |a|;
      }
    }
  }

  /** At most one sidebar entry is highlighted for any path. */
  lemma AtMostOneActive(pathname: string, i: int, j: int)
    requires 0 <= i < |NavItems| && 0 <= j < |NavItems|
    requires IsActive(NavItems[i], pathname) && IsActive(NavItems[j], pathname)
    ensures i == j
  {
    NavItemsPrefixFree();
    AtMostOneActiveIn(NavItems, pathname, i, j);
  }

  /** Each entry is highlighted on its own page, and only it. */
  lemma ActiveOnOwnHref(i: int, j: int)
    requires 0 <= i < |NavItems| && 0 <= j < |NavItems|
    ensures IsActive(NavItems[i], NavItems[i].href)
    ensures IsActive(NavItems[j], NavItems[i].href) ==> i == j
  {
    if IsActive(NavItems[j], NavItems[i].href) {
      AtMostOneActive(NavItems[i].href, i, j);
    }
  }

  /** A detail page under a section highlights that section: "/inventory/42"
      lights "My Pantry" and nothing else; the dashboard only lights on "/". */
  lemma NestedPathExample(j: int)
    requires 0 <= j < |NavItems|
    ensures IsActive(NavItems[j], "/inventory/42") <==> NavItems[j].caption == "My Pantry"
    ensures IsActive(NavItems[0], "/")
    ensures !IsActive(NavItems[0], "/inventory")
  {
    assert StartsWith("/inventory/42", "/inventory");
    if IsActive(NavItems[j], "/inventory/42") {
      AtMostOneActive("/inventory/42", 1, j);
    }
  }
}
