/**
 * The admin navigation bar: which link is highlighted for the current path,
 * and when a visitor without a session is sent to the login page.
 */
module Navbar {
  import opened Text

  datatype NavLink = NavLink(name: string, path: string)

  const Dashboard := NavLink("Dashboard", "/")
  const Products := NavLink("Products", "/products")
  const Categories := NavLink("Categories", "/categories")
  const Orders := NavLink("Orders", "/orders")

  const NavLinks: seq<NavLink> := [Dashboard, Products, Categories, Orders]

  /** The only pages a visitor without a session may stay on. */
  const LoginPath := "/auth/login"
  const PublicPaths: seq<string> := [LoginPath]

  /**
   * isActive: the link's own page, or any page below it. The test is
   * "starts with the path and a slash", so a sibling that merely shares the
   * path's letters is not highlighted.
   */
  function IsActive(pathname: string, path: string): (b: bool)
    ensures b <==> pathname == path
                   || (|path| < |pathname| && pathname[..|path|] == path && pathname[|path|] == '/')
  {
    assert IsPrefix(path + "/", pathname) ==> pathname[|path|] == (path + "/")[|path|];
    assert |path| < |pathname| && pathname[..|path|] == path && pathname[|path|] == '/'
      ==> pathname[..|path| + 1] == path + "/";
    pathname == path || IsPrefix(path + "/", pathname)
  }

  /** The redirect effect: no session and not on a public page. */
  function ShouldRedirect(signedIn: bool, pathname: string): (b: bool)
    ensures b <==> !signedIn && pathname != LoginPath
  {
    !signedIn && pathname !in PublicPaths
  }

  /** A page below a link is highlighted under it; a sibling sharing its letters is not. */
  lemma ProductsHighlighting()
    ensures IsActive("/products", Products.path)
    ensures IsActive("/products/12", Products.path)
    ensures !IsActive("/productsX", Products.path)
    ensures !IsActive("/products-old/1", Products.path)
  {
    assert "/products/12"[..9] == "/products";
    assert "/productsX"[9] == 'X';
    assert "/products-old/1"[9] == '-';
  }

  /**
   * The Dashboard link ("/") is highlighted on "/" only: its sub-page test
   * would need the path to start with "//", which no page below another
   * link does.
   */
  lemma DashboardOnlyAtRoot(pathname: string)
    requires |pathname| < 2 || pathname[1] != '/'
    ensures IsActive(pathname, Dashboard.path) <==> pathname == "/"
  {
  }

  /** A highlighted link of two or more characters shares the page's second character. */
  lemma ActiveSharesSecondChar(pathname: string, path: string)
    requires |path| >= 2 && IsActive(pathname, path)
    ensures |pathname| >= 2 && pathname[1] == path[1]
  {
    if pathname != path {
      assert pathname[..|path|][1] == pathname[1];
    }
  }

  lemma InactiveWhenSecondCharDiffers(pathname: string, path: string)
    requires |path| >= 2 && (|pathname| < 2 || pathname[1] != path[1])
    ensures !IsActive(pathname, path)
  {
    if |pathname| >= 2 && |path| < |pathname| {
      assert pathname[..|path|][1] == pathname[1];
    }
  }

  /**
   * No page lights up two links, "//x" included: Dashboard then matches
   * through its sub-page test, and no other link's path starts with "//".
   */
  lemma AtMostOneActive(pathname: string, i: nat, j: nat)
    requires i < j < |NavLinks|
    ensures IsActive(pathname, NavLinks[i].path) ==> !IsActive(pathname, NavLinks[j].path)
  {
    var p, q := NavLinks[i].path, NavLinks[j].path;
    if IsActive(pathname, p) {
      if i == 0 {
        assert |pathname| < 2 || pathname[1] == '/';
      } else {
        ActiveSharesSecondChar(pathname, p);
      }
      InactiveWhenSecondCharDiffers(pathname, q);
    }
  }

  /** A signed-in admin is never redirected, and the login page never redirects to itself. */
  lemma RedirectNeverLoops(signedIn: bool, pathname: string)
    ensures signedIn ==> !ShouldRedirect(signedIn, pathname)
    ensures !ShouldRedirect(signedIn, LoginPath)
    ensures !signedIn && pathname == "/orders" ==> ShouldRedirect(signedIn, pathname)
  {
  }
}
