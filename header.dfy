/** The navigation of the `Header` component (src/components/Header.tsx):
    which navigation item is highlighted for the current location, and the
    open/closed state of the mobile menu. */
module Header {

  datatype NavItem = NavItem(path: string, caption: string)

  const Home: NavItem := NavItem("/", "Home")
  const Documents: NavItem := NavItem("/documents", "Documents")
  const ChatPage: NavItem := NavItem("/chat", "RAG Chat")

  /** `navItems`, in display order. */
  const NavItems: seq<NavItem> := [Home, Documents, ChatPage]

  /** `isActive(path)` at `location.pathname`: the root path matches only
      the root itself; any other path matches every location it is a
      (character-wise) prefix of. */
  predicate IsActive(path: string, pathname: string)
  {
    (path == "/" && pathname == "/") || (path != "/" && path <= pathname)
  }

  /** The items highlighted at a location, in display order. */
  function ActiveItems(pathname: string): (active: seq<NavItem>)
    ensures forall item :: item in active <==> item in NavItems && IsActive(item.path, pathname)
  {
    (if IsActive(Home.path, pathname) then [Home] else [])
    + (if IsActive(Documents.path, pathname) then [Documents] else [])
    + (if IsActive(ChatPage.path, pathname) then [ChatPage] else [])
  }

  /** Home is highlighted exactly at the root. */
  lemma HomeActiveOnlyAtRoot(pathname: string)
    ensures IsActive(Home.path, pathname) <==> pathname == "/"
  {
  }

  /** No location highlights more than one item. */
  lemma {:induction false} AtMostOneActive(pathname: string)
    ensures |ActiveItems(pathname)| <= 1
  {
    if IsActive(Documents.path, pathname) {
      assert pathname[1] == Documents.path[1];
    }
  }

  /** A highlighted non-root item stays highlighted on any deeper location,
      and the match is not per path segment: "/chat" also highlights at
      "/chatroom". */
  lemma ActiveOnExtensions(path: string, pathname: string, rest: string)
    requires path != "/" && IsActive(path, pathname)
    ensures IsActive(path, pathname + rest)
    ensures IsActive(ChatPage.path, "/chatroom")
  {
    assert (pathname + rest)[..|path|] == pathname[..|path|];
    assert "/chatroom"[..5] == "/chat";
  }

  /** The mobile menu's `mobileMenuOpen` flag. */
  class MobileMenu {
    var open: bool

    /** Closed at first. */
    constructor ()
      ensures !open
    {
      open := false;
    }

    /** `toggleMobileMenu`: the menu button flips the flag. */
    method Toggle()
      modifies this
      ensures open == !old(open)
    {
      open := !open;
    }

    /** A click on a link of the open menu closes it. */
    method FollowLink()
      modifies this
      ensures !open
    {
      open := false;
    }
  }

  /** Toggling twice restores the menu. */
  method ToggleTwice(menu: MobileMenu)
    modifies menu
    ensures menu.open == old(menu.open)
  {
    menu.Toggle();
    menu.Toggle();
  }

  /** Toggling twice restores the menu, and following a link from the open
      menu leaves it closed. */
  method ToggleTwiceThenFollow(menu: MobileMenu) returns (restored: bool)
    modifies menu
    ensures restored == old(menu.open)
    ensures !menu.open
  {
    ToggleTwice(menu);
    restored := menu.open;
    if menu.open {
      menu.FollowLink();
    }
  }
}
