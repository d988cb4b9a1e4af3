/** The sidebar's navigation entries and the rule that highlights the entry
    of the current page. */
module Sidebar {
  import opened Common

  datatype NavItem = NavItem(name: string, href: string)

  const ROOT: string := "/"

  /** `navigation`, in display order (the icons are left out). */
  const NAVIGATION: seq<NavItem> := [
    NavItem("Dashboard", ROOT),
    NavItem("Sess\U{00F5}es", "/sessions"),
    NavItem("Playground", "/playground"),
    NavItem("Analytics", "/analytics"),
    NavItem("Agentes", "/agents")
  ]

  /** `isActive`: the exact page, or for any entry but the root, any path
      that begins with its `href`. */
  predicate IsActive(pathname: string, item: NavItem) {
    pathname == item.href || (item.href != ROOT && StartsWith(pathname, item.href))
  }

  /** `navigation.map`: one highlight flag per entry. */
  function ActiveFlags(pathname: string): (flags: seq<bool>)
    ensures |flags| == |NAVIGATION|
    ensures forall i :: 0 <= i < |flags| ==> (flags[i] <==> IsActive(pathname, NAVIGATION[i]))
  {
    seq(|NAVIGATION|, (i: int) requires 0 <= i < |NAVIGATION| => IsActive(pathname, NAVIGATION[i]))
  }

  /** The root entry is highlighted on the root page and nowhere else; every
      other entry on every path that begins with its `href`, whether or not
      the match ends at a `/` (so `/agentsX` highlights Agentes). */
  lemma ActiveRule(pathname: string)
    ensures ActiveFlags(pathname)[0] <==> pathname == ROOT
    ensures forall i :: 1 <= i < |NAVIGATION| ==>
      (ActiveFlags(pathname)[i] <==> StartsWith(pathname, NAVIGATION[i].href))
  {
    forall i | 1 <= i < |NAVIGATION|
      ensures IsActive(pathname, NAVIGATION[i]) <==> StartsWith(pathname, NAVIGATION[i].href)
    {
      if pathname == NAVIGATION[i].href {
        assert pathname[..|pathname|] == pathname;
      }
    }
  }

  lemma AgentsPrefixActive()
    ensures ActiveFlags("/agentsX")[4]
    ensures ActiveFlags("/agents/new")[4]
  {
    assert "/agentsX"[..7] == "/agents";
    assert "/agents/new"[..7] == "/agents";
  }

  /** No entry's `href` begins with another's, except through the root. */
  lemma HrefsApart(i: nat, j: nat)
    requires 1 <= i < |NAVIGATION| && 1 <= j < |NAVIGATION| && i != j
    ensures !StartsWith(NAVIGATION[j].href, NAVIGATION[i].href)
  {
    var a := NAVIGATION[i].href;
    var b := NAVIGATION[j].href;
    if |a| <= |b| {
      if a[1] == b[1] {
        assert a[2] != b[2];
        assert b[..|a|][2] != a[2];
      } else {
        assert b[..|a|][1] != a[1];
      }
    }
  }

  /** Whatever the path, at most one entry is highlighted. */
  lemma AtMostOneActive(pathname: string)
    ensures forall i, j :: 0 <= i < j < |NAVIGATION| && ActiveFlags(pathname)[i] ==> !ActiveFlags(pathname)[j]
  {
    var flags := ActiveFlags(pathname);
    forall i, j | 0 <= i < j < |NAVIGATION| && flags[i]
      ensures !flags[j]
    {
      var a := NAVIGATION[i].href;
      var b := NAVIGATION[j].href;
      assert StartsWith(pathname, b) || pathname == b ==> |b| <= |pathname| && pathname[..|b|] == b;
      if i == 0 {
        assert pathname == ROOT;
        assert |b| > 1;
      } else if StartsWith(pathname, b) {
        assert StartsWith(pathname, a) by {
          if pathname == a { assert pathname[..|a|] == pathname; }
        }
        if |a| <= |b| {
          PrefixesNest(pathname, a, b);
          HrefsApart(i, j);
        } else {
          PrefixesNest(pathname, b, a);
          HrefsApart(j, i);
        }
      }
    }
  }

  /** On the root page only Dashboard is highlighted. */
  lemma RootPage()
    ensures ActiveFlags(ROOT) == [true, false, false, false, false]
  {
    ActiveRule(ROOT);
    var flags := ActiveFlags(ROOT);
    forall i | 1 <= i < |NAVIGATION| ensures !flags[i] {
      assert |NAVIGATION[i].href| > |ROOT|;
    }
  }
}
