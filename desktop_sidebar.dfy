/**
 * The navigation of src/components/layout/desktop-sidebar.tsx: five fixed
 * links, the overview active only on `/` itself and every other link active
 * on any path that starts with its href.
 */
module DesktopSidebar {
  import Strings

  datatype NavLink = NavLink(href: string, caption: string)

  const Links: seq<NavLink> := [
    NavLink("/", "Visão Geral"),
    NavLink("/quotes", "Orçamentos"),
    NavLink("/new", "Novo Orçamento"),
    NavLink("/clients", "Meus Clientes"),
    NavLink("/profile", "Configurações")
  ]

  /** The highlight test of a link for the current path. */
  predicate IsActive(href: string, pathname: string) {
    if href == "/" then pathname == "/" else Strings.StartsWith(pathname, href)
  }

  /** The active flags of the links, in their order. */
  function ActiveFlags(pathname: string): (flags: seq<bool>)
    ensures |flags| == |Links|
    ensures forall k :: 0 <= k < |Links| ==> (flags[k] <==> IsActive(Links[k].href, pathname))
  {
    seq(|Links|, k requires 0 <= k < |Links| => IsActive(Links[k].href, pathname))
  }

  /** Whatever the path, at most one link is highlighted: the four prefixed hrefs part at
      their second character, and the overview is active only on a path too short for
      them. */
  lemma AtMostOneActive(pathname: string, i: int, j: int)
    requires 0 <= i < |Links| && 0 <= j < |Links|
    requires ActiveFlags(pathname)[i] && ActiveFlags(pathname)[j]
    ensures i == j
  {
    Strings.StartsWithAt(pathname, "/quotes", 1);
    Strings.StartsWithAt(pathname, "/new", 1);
    Strings.StartsWithAt(pathname, "/clients", 1);
    Strings.StartsWithAt(pathname, "/profile", 1);
  }

  /** A nested path highlights its section, and the prefix test is not segment-aware:
      `/newsletter` highlights `Novo Orçamento`. */
  lemma ActiveExamples()
    ensures ActiveFlags("/quotes/abc") == [false, true, false, false, false]
    ensures ActiveFlags("/newsletter")[2]
    ensures ActiveFlags("/") == [true, false, false, false, false]
  {
    assert "/quotes/abc"[..7] == "/quotes";
    assert "/quotes/abc"[1] == 'q';
    assert "/newsletter"[..4] == "/new";
    Strings.StartsWithAt("/quotes/abc", "/new", 1);
    Strings.StartsWithAt("/quotes/abc", "/clients", 1);
    Strings.StartsWithAt("/quotes/abc", "/profile", 1);
  }
}
