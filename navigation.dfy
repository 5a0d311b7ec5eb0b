/** The sidebar of `app/dashboard/layout.tsx`: the table of navigation
    links and the rule that highlights the link of the current page. */
module Navigation {
  import opened Text

  /** The `href` of each entry of `navItems`, in order. */
  const NavHrefs: seq<string> := [
    "/dashboard/products",
    "/dashboard/categories",
    "/dashboard/orders",
    "/dashboard/promo-codes",
    "/dashboard/blogs"
  ]

  /** `isActive`: the path is the link's page or lies below it. */
  predicate IsActive(pathname: string, href: string) {
    pathname == href || StartsWith(pathname, href + "/")
  }

  /** A link is active on its own page. */
  lemma ActiveOnItself(href: string)
    ensures IsActive(href, href)
  {
  }

  /** A link is active on every path below it. */
  lemma ActiveBelow(href: string, rest: string)
    ensures IsActive(href + "/" + rest, href)
  {
    assert href + "/" <= href + "/" + rest;
  }

  /** A path that extends the link's text with anything but `/` does not
      activate it. */
  lemma {:induction false} TextualPrefixInactive(href: string, c: char, rest: string)
    requires c != '/'
    ensures !IsActive(href + [c] + rest, href)
  {
    var p := href + [c] + rest;
    assert |p| > |href|;
    assert p[|href|] == c;
    assert (href + "/")[|href|] == '/';
  }

  /** `/dashboard/productsX` does not activate the products link. */
  lemma ProductsXInactive()
    ensures !IsActive("/dashboard/productsX", NavHrefs[0])
  {
    TextualPrefixInactive(NavHrefs[0], 'X', "");
    assert NavHrefs[0] + ['X'] + "" == "/dashboard/productsX";
  }

  /** An active link's text is a prefix of the path. */
  lemma ActiveIsPrefix(pathname: string, href: string)
    requires IsActive(pathname, href)
    ensures href <= pathname
  {
    if pathname != href {
      assert href <= href + "/";
    }
  }

  /** Two prefixes of one string are prefixes of each other. */
  lemma PrefixesNest(a: string, b: string, s: string)
    requires a <= s && b <= s && |a| <= |b|
    ensures a <= b
  {
    assert a == s[..|a|] && b == s[..|b|];
  }

  /** No link's text is a prefix of another's. */
  lemma HrefsIndependent(i: int, j: int)
    requires 0 <= i < |NavHrefs| && 0 <= j < |NavHrefs| && i != j
    ensures !(NavHrefs[i] <= NavHrefs[j])
  {
    var a, b := NavHrefs[i], NavHrefs[j];
    if |a| <= |b| {
      var d := if (i == 0 && j == 3) || (i == 3 && j == 0) then 14 else 11;
      assert a[d] != b[d];
    }
  }

  /** At most one link is active on any path. */
  lemma AtMostOneActive(pathname: string, i: int, j: int)
    requires 0 <= i < |NavHrefs| && 0 <= j < |NavHrefs| && i != j
    ensures !(IsActive(pathname, NavHrefs[i]) && IsActive(pathname, NavHrefs[j]))
  {
    if IsActive(pathname, NavHrefs[i]) && IsActive(pathname, NavHrefs[j]) {
      ActiveIsPrefix(pathname, NavHrefs[i]);
      ActiveIsPrefix(pathname, NavHrefs[j]);
      if |NavHrefs[i]| <= |NavHrefs[j]| {
        PrefixesNest(NavHrefs[i], NavHrefs[j], pathname);
        HrefsIndependent(i, j);
      } else {
        PrefixesNest(NavHrefs[j], NavHrefs[i], pathname);
        HrefsIndependent(j, i);
      }
    }
  }

  /** The bare `/dashboard` path highlights no link. */
  lemma DashboardRootInactive(i: int)
    requires 0 <= i < |NavHrefs|
    ensures !IsActive("/dashboard", NavHrefs[i])
  {
    if IsActive("/dashboard", NavHrefs[i]) {
      ActiveIsPrefix("/dashboard", NavHrefs[i]);
    }
  }
}
