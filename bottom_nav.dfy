/**
 * The phone navigation of src/components/layout/bottom-nav.tsx: five fixed
 * links, each active only on its exact path, and the `Novo` link always
 * drawn as the raised round button whatever the path.
 */
module BottomNav {
  datatype NavLink = NavLink(href: string, caption: string, highlight: bool)

  const Links: seq<NavLink> := [
    NavLink("/", "Início", false),
    NavLink("/quotes", "Orçamentos", false),
    NavLink("/new", "Novo", true),
    NavLink("/clients", "Clientes", false),
    NavLink("/profile", "Perfil", false)
  ]

  /** How a link is drawn: the raised button, or a normal item that is active or not. */
  datatype Look = Raised | ActiveItem | PlainItem

  predicate IsActive(href: string, pathname: string) {
    pathname == href
  }

  function LookOf(link: NavLink, pathname: string): (l: Look)
    ensures l == Raised <==> link.highlight
    ensures l == ActiveItem <==> !link.highlight && IsActive(link.href, pathname)
  {
    if link.highlight then Raised
    else if IsActive(link.href, pathname) then ActiveItem
    else PlainItem
  }

  function Looks(pathname: string): (ls: seq<Look>)
    ensures |ls| == |Links|
    ensures forall k :: 0 <= k < |Links| ==> ls[k] == LookOf(Links[k], pathname)
  {
    seq(|Links|, k requires 0 <= k < |Links| => LookOf(Links[k], pathname))
  }

  /** The hrefs are distinct, so at most one link is active for any path, and it is the
      one naming that path. */
  lemma AtMostOneActive(pathname: string, i: int, j: int)
    requires 0 <= i < |Links| && 0 <= j < |Links|
    requires IsActive(Links[i].href, pathname) && IsActive(Links[j].href, pathname)
    ensures i == j && Links[i].href == pathname
  {
    assert forall a, b :: 0 <= a < b < |Links| ==> Links[a].href != Links[b].href;
  }

  /** Only the `Novo` link is raised, on every path including its own; a nested path
      such as `/quotes/abc` leaves every item plain. */
  lemma LookExamples(pathname: string)
    ensures forall k :: 0 <= k < |Links| ==> (Looks(pathname)[k] == Raised <==> k == 2)
    ensures Looks("/new") == [PlainItem, PlainItem, Raised, PlainItem, PlainItem]
    ensures Looks("/quotes/abc") == [PlainItem, PlainItem, Raised, PlainItem, PlainItem]
    ensures Looks("/quotes") == [PlainItem, ActiveItem, Raised, PlainItem, PlainItem]
  {
  }
}
