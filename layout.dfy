/**
 * The sidebar of the layout: its navigation entries and which of them is
 * highlighted for the current path.
 */
module Navigation {
  import opened Text

  datatype NavItem = NavItem(name: string, path: string)

  /** The sidebar entries, in order. */
  const NAVIGATION: seq<NavItem> := [
    NavItem("Home", "/"),
    NavItem("My Habits", "/habits"),
    NavItem("Statistics", "/statistics"),
    NavItem("Calendar", "/calendar"),
    NavItem("Notifications", "/notifications"),
    NavItem("Profile", "/profile"),
    NavItem("Settings", "/settings")
  ]

  /** `isActive(path)`: the root only for the root itself, any other entry
      for every path that begins with it (with no check of a `/` after it). */
  predicate IsActive(path: string, pathname: string) {
    (path == "/" && pathname == "/") || (path != "/" && StartsWith(pathname, path))
  }

  /** The highlight flag of every entry. */
  function ActiveFlags(pathname: string): (r: seq<bool>)
    ensures |r| == |NAVIGATION|
    ensures r[0] <==> pathname == "/"
    ensures forall i :: 1 <= i < |r| ==> (r[i] <==> StartsWith(pathname, NAVIGATION[i].path))
  {
    seq(|NAVIGATION|, i requires 0 <= i < |NAVIGATION| => IsActive(NAVIGATION[i].path, pathname))
  }

  /** Two prefixes of one string: the shorter is a prefix of the longer. */
  lemma PrefixesNest(s: string, a: string, b: string)
    requires StartsWith(s, a) && StartsWith(s, b) && |a| <= |b|
    ensures StartsWith(b, a)
  {
    assert b[..|a|] == s[..|b|][..|a|];
  }

  /** The entries other than the root all begin with `/` and no one of them
      begins with another. */
  lemma NoEntryPrefixesAnother()
    ensures forall i, j :: 1 <= i < |NAVIGATION| && 1 <= j < |NAVIGATION| && i != j ==>
      !StartsWith(NAVIGATION[j].path, NAVIGATION[i].path)
  {
    forall i, j | 1 <= i < |NAVIGATION| && 1 <= j < |NAVIGATION| && i != j
      ensures !StartsWith(NAVIGATION[j].path, NAVIGATION[i].path)
    {
      var p, q := NAVIGATION[i].path, NAVIGATION[j].path;
      if |p| <= |q| {
        assert p[1] != q[1] || p[2] != q[2];
      }
    }
  }

  /** Whatever the path, at most one entry is highlighted. */
  lemma AtMostOneActive(pathname: string)
    ensures forall i, j :: 0 <= i < j < |NAVIGATION| ==> !(ActiveFlags(pathname)[i] && ActiveFlags(pathname)[j])
  {
    var flags := ActiveFlags(pathname);
    NoEntryPrefixesAnother();
    forall i, j | 0 <= i < j < |NAVIGATION| && flags[i]
      ensures !flags[j]
    {
      var q := NAVIGATION[j].path;
      if i == 0 {
        assert |q| >= 2;
      } else {
        var p := NAVIGATION[i].path;
        if flags[j] {
          if |p| <= |q| {
            PrefixesNest(pathname, p, q);
          } else {
            PrefixesNest(pathname, q, p);
          }
        }
      }
    }
  }

  /** A path under an entry highlights it, and so does any path that merely
      begins with its letters: `/habitsxyz` highlights My Habits. */
  lemma PlainPrefixMatch()
    ensures ActiveFlags("/habits/123")[1] && ActiveFlags("/habitsxyz")[1]
  {
    assert "/habits/123"[..7] == "/habits";
    assert "/habitsxyz"[..7] == "/habits";
  }

  /** The form pages are under no entry, so nothing is highlighted there. */
  lemma FormPagesHighlightNothing()
    ensures forall i :: 0 <= i < |NAVIGATION| ==> !ActiveFlags("/edit-habit/x")[i] && !ActiveFlags("/new-habit")[i]
  {
    var e, n := "/edit-habit/x", "/new-habit";
    forall i | 1 <= i < |NAVIGATION|
      ensures !StartsWith(e, NAVIGATION[i].path) && !StartsWith(n, NAVIGATION[i].path)
    {
      var p := NAVIGATION[i].path;
      assert p[1] != e[1] && (p[1] != n[1] || p[2] != n[2]);
    }
  }
}
