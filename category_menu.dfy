/** The storefront navbar: its fixed menu, the hover-dropdown controller with
    one delayed close, the mobile drawer and the phone link. */
module CategoryMenu {
  import opened Wrappers
  import Text
  import Seqs

  datatype MenuLink = MenuLink(title: string, path: string, hasChildren: bool, subLinks: Option<seq<MenuLink>>)

  const AboutSubLinks: seq<MenuLink> := [MenuLink("About Us", "/about-us", false, None)]

  /** The main menu, in display order. */
  const Menu: seq<MenuLink> := [
    MenuLink("HOME", "/", false, None),
    MenuLink("ABOUT", "/about", true, Some(AboutSubLinks)),
    MenuLink("SHOP", "/search", true, None),
    MenuLink("NEWS", "/news", true, None),
    MenuLink("CONTACT", "/contact-us", false, None)
  ]

  const PhoneNumber: string := "+254 727 717 019"

  /** The key the desktop category list opens under. */
  const CategoriesKey: string := "categories"

  /** How a menu entry is drawn: a hover submenu or a plain link. */
  datatype Entry = Submenu(key: string, title: string, paths: seq<string>) | Plain(title: string, path: string)

  function SubPath(l: MenuLink): string {
    l.path
  }

  /** A link with sub-links is drawn as a submenu, any other as a plain link. */
  function EntryOf(link: MenuLink): (e: Entry)
    ensures e.Submenu? <==> link.subLinks.Some?
    ensures e.Submenu? ==> e.key == Text.ToLower(link.title) && e.paths == Seqs.Map(link.subLinks.value, SubPath)
    ensures e.Plain? ==> e.path == link.path
  {
    match link.subLinks
    case Some(subs) => Submenu(Text.ToLower(link.title), link.title, Seqs.Map(subs, SubPath))
    case None => Plain(link.title, link.path)
  }

  function Entries(): (r: seq<Entry>)
    ensures |r| == |Menu| && forall i :: 0 <= i < |r| ==> r[i] == EntryOf(Menu[i])
  {
    Seqs.Map(Menu, EntryOf)
  }

  /** Only ABOUT is a submenu; SHOP and NEWS announce children but have no
      sub-links, so they are drawn as plain links. */
  lemma OnlyAboutIsSubmenu()
    ensures Entries()[1] == Submenu("about", "ABOUT", ["/about-us"])
    ensures Entries()[2] == Plain("SHOP", "/search") && Menu[2].hasChildren
    ensures Entries()[3] == Plain("NEWS", "/news") && Menu[3].hasChildren
    ensures forall i :: 0 <= i < |Entries()| && i != 1 ==> Entries()[i].Plain?
  {
    assert Text.ToLower("ABOUT") == "about";
    assert Seqs.Map(AboutSubLinks, SubPath) == ["/about-us"];
  }

  /** Whether the dropdown with that key is the open one. */
  predicate IsOpen(openKey: Option<string>, key: string) {
    openKey == Some(key)
  }

  /** Whatever the open key, at most one dropdown is open: the submenu keys
      differ from each other and from the category list's key. */
  lemma AtMostOneDropdownOpen(openKey: Option<string>)
    ensures forall i, j :: 0 <= i < j < |Entries()| && Entries()[i].Submenu? && Entries()[j].Submenu? ==>
      !(IsOpen(openKey, Entries()[i].key) && IsOpen(openKey, Entries()[j].key))
    ensures forall i :: 0 <= i < |Entries()| && Entries()[i].Submenu? ==>
      !(IsOpen(openKey, Entries()[i].key) && IsOpen(openKey, CategoriesKey))
  {
    OnlyAboutIsSubmenu();
  }

  /** The navbar draws nothing on the admin dashboard. */
  function Renders(pathname: Option<string>): (r: bool)
    ensures r <==> !Text.StartsWith(pathname.GetOr(""), "/dashboard/admin")
  {
    !Text.StartsWith(pathname.GetOr(""), "/dashboard/admin")
  }

  lemma AdminPagesHaveNoNavbar(rest: string)
    ensures !Renders(Some("/dashboard/admin" + rest))
    ensures Renders(None)
  {
    assert ("/dashboard/admin" + rest)[..16] == "/dashboard/admin";
  }

  /** React requires a component to call the same hooks on every render.
      The navbar calls three hooks (`useState`, `useRouter`, `usePathname`)
      before its admin-path check and three more (`useState`, `useRef`,
      `useEffect`) after it. */
  const HooksBeforeGuard := 3
  const HooksAfterGuard := 3

  /** The hooks one render of the navbar calls, as written: the early
      return skips the last three. */
  function HooksCalledAsWritten(pathname: Option<string>): (n: nat)
    ensures Renders(pathname) ==> n == HooksBeforeGuard + HooksAfterGuard
    ensures !Renders(pathname) ==> n == HooksBeforeGuard
  {
    if Renders(pathname) then HooksBeforeGuard + HooksAfterGuard else HooksBeforeGuard
  }

  /** A client-side move from the shop into the admin dashboard, with the
      navbar mounted, changes the number of hooks between renders. */
  lemma HookCountChangesOnAdminNavigation()
    ensures HooksCalledAsWritten(Some("/")) != HooksCalledAsWritten(Some("/dashboard/admin"))
  {
    assert !Text.StartsWith("/", "/dashboard/admin");
    assert Text.StartsWith("/dashboard/admin", "/dashboard/admin");
  }

  /** The hooks one render calls with the check moved after every hook; the
      navbar still draws nothing on admin paths. */
  function HooksCalledGuardLast(pathname: Option<string>): (n: nat)
    ensures n == HooksBeforeGuard + HooksAfterGuard
  {
    HooksBeforeGuard + HooksAfterGuard
  }

  /** With the check last, every pair of renders calls the same hooks. */
  lemma GuardLastKeepsHookCount(p: Option<string>, q: Option<string>)
    ensures HooksCalledGuardLast(p) == HooksCalledGuardLast(q)
  {
  }

  predicate IsDialChar(c: char) {
    '0' <= c <= '9' || c == '+'
  }

  /** The tel: target: the digits and plus signs of the number, in order. */
  function TelTarget(s: string): (r: string)
    ensures forall c :: c in r <==> c in s && IsDialChar(c)
    ensures |r| <= |s|
  {
    Seqs.Filter(s, IsDialChar)
  }

  /** The target is built character by character: a dial character is
      kept, any other is dropped, and the rest of the number follows in
      order. Together these fix the target of every string. */
  lemma TelTargetSteps(a: string, b: string, c: char)
    ensures TelTarget(a + b) == TelTarget(a) + TelTarget(b)
    ensures TelTarget([c]) == if IsDialChar(c) then [c] else []
    ensures TelTarget([]) == []
  {
    Seqs.FilterConcat(a, b, IsDialChar);
    assert [c][1..] == [];
  }

  /** The dial characters keep their order: a number whose first character
      is '+' dials with the '+' first. */
  lemma TelKeepsOrder(c: char, rest: string)
    requires IsDialChar(c)
    ensures TelTarget([c] + rest) == [c] + TelTarget(rest)
  {
    TelTargetSteps([c], rest, c);
  }

  /** A string of dial characters is its own tel: target. */
  lemma TelKeepsDialString(s: string)
    requires AllDial(s)
    ensures TelTarget(s) == s
  {
    Seqs.FilterAll(s, IsDialChar);
  }

  /** A run of dial characters survives, the space after it goes. */
  lemma TelDropsSpace(a: string, b: string)
    requires AllDial(a)
    ensures TelTarget(a + ([' '] + b)) == a + TelTarget(b)
  {
    TelKeepsDialString(a);
    Seqs.FilterConcat(a, [' '] + b, IsDialChar);
    Seqs.FilterConcat([' '], b, IsDialChar);
  }

  predicate AllDial(s: string) {
    forall c :: c in s ==> IsDialChar(c)
  }

  /** A number written in four space-separated groups, as `PhoneNumber`
      is, dials as the groups run together. */
  lemma TelOfGroups(a: string, b: string, c: string, d: string)
    requires AllDial(a) && AllDial(b) && AllDial(c) && AllDial(d)
    ensures TelTarget(a + ([' '] + (b + ([' '] + (c + ([' '] + d)))))) == a + (b + (c + d))
  {
    TelKeepsDialString(d);
    TelDropsSpace(c, d);
    TelDropsSpace(b, c + ([' '] + d));
    TelDropsSpace(a, b + ([' '] + (c + ([' '] + d))));
  }

  /** The navbar's state: the open dropdown, the delayed close held in
      `closeTimeout.current`, the drawer, and the paths pushed to the router.
      Timers are numbered from 1, so a held id is always truthy. */
  class Navbar {
    var openKey: Option<string>
    var drawerOpen: bool
    /** `closeTimeout.current` */
    var timeoutRef: Option<nat>
    /** The scheduled close that has been neither cleared nor fired. */
    var live: Option<nat>
    var nextTimer: nat
    var pushed: seq<string>

    /** At most one close is pending, and it is the one the ref holds. */
    predicate Valid()
      reads this
    {
      nextTimer >= 1 &&
      (live.Some? ==> timeoutRef == live) &&
      (timeoutRef.Some? ==> 1 <= timeoutRef.value < nextTimer)
    }

    constructor()
      ensures Valid()
      ensures openKey == None && !drawerOpen && live == None && pushed == []
    {
      openKey := None;
      drawerOpen := false;
      timeoutRef := None;
      live := None;
      nextTimer := 1;
      pushed := [];
    }

    /** `openDropdown(key)`: cancel a pending close, then open. */
    method OpenDropdown(key: string)
      requires Valid()
      modifies this
      ensures Valid()
      ensures openKey == Some(key) && live == None && timeoutRef == None
      ensures drawerOpen == old(drawerOpen) && pushed == old(pushed) && nextTimer == old(nextTimer)
    {
      if timeoutRef.Some? {
        live := None;
        timeoutRef := None;
      }
      openKey := Some(key);
    }

    /** `closeDropdownWithDelay()`: replace any pending close by a new one;
        the open key stays as it is until that close fires. */
    method CloseDropdownWithDelay()
      requires Valid()
      modifies this
      ensures Valid()
      ensures live == Some(old(nextTimer)) && timeoutRef == live && nextTimer == old(nextTimer) + 1
      ensures openKey == old(openKey) && drawerOpen == old(drawerOpen) && pushed == old(pushed)
    {
      if timeoutRef.Some? {
        live := None;
      }
      var id := nextTimer;
      nextTimer := nextTimer + 1;
      timeoutRef := Some(id);
      live := Some(id);
    }

    /** The pending close fires: the dropdown closes. The ref keeps the
        spent id. */
    method FireClose()
      requires Valid() && live.Some?
      modifies this
      ensures Valid()
      ensures openKey == None && live == None
      ensures timeoutRef == old(timeoutRef) && nextTimer == old(nextTimer)
      ensures drawerOpen == old(drawerOpen) && pushed == old(pushed)
    {
      openKey := None;
      live := None;
    }

    /** `handleLinkClick(path)`: navigate, close the drawer and the dropdown
        at once. A pending close is left to fire. */
    method HandleLinkClick(path: string)
      requires Valid()
      modifies this
      ensures Valid()
      ensures pushed == old(pushed) + [path] && !drawerOpen && openKey == None
      ensures live == old(live) && timeoutRef == old(timeoutRef) && nextTimer == old(nextTimer)
    {
      pushed := pushed + [path];
      drawerOpen := false;
      openKey := None;
    }

    /** The menu button and the drawer's close controls. */
    method SetDrawer(open: bool)
      requires Valid()
      modifies this
      ensures Valid()
      ensures drawerOpen == open
      ensures openKey == old(openKey) && live == old(live) && timeoutRef == old(timeoutRef)
      ensures nextTimer == old(nextTimer) && pushed == old(pushed)
    {
      drawerOpen := open;
    }
  }

  /** Leaving a submenu and re-entering it before the close fires keeps it
      open: the re-entry cancels the close. */
  method HoverOutAndBack(nav: Navbar, key: string)
    requires nav.Valid() && nav.openKey == Some(key)
    modifies nav
    ensures nav.Valid() && nav.openKey == Some(key) && nav.live == None
  {
    nav.CloseDropdownWithDelay();
    nav.OpenDropdown(key);
  }
}
