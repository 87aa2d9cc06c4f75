/**
 * The site header: seven navigation links, in-page links handled by
 * scrolling on the home page and by a full page load elsewhere, a colour
 * scheme that turns solid once the page is scrolled or off the home page,
 * and a mobile menu.
 */
module Header {
  import opened Backend
  import Text

  datatype NavLink = NavLink(to: string, caption: string)

  const LeftLinks: seq<NavLink> := [
    NavLink("/#story", "Our Story"),
    NavLink("/#services", "Catering Services"),
    NavLink("/#menu", "Our Menu")
  ]

  const RightLinks: seq<NavLink> := [
    NavLink("/gallery", "Gallery"),
    NavLink("/#testimonials", "Testimonials"),
    NavLink("/blog", "Blog"),
    NavLink("/#contact", "Contact Us")
  ]

  /** The mobile menu: the left links, then the right links. */
  function MobileLinks(): (r: seq<NavLink>)
    ensures |r| == |LeftLinks| + |RightLinks| == 7
    ensures r[..|LeftLinks|] == LeftLinks && r[|LeftLinks|..] == RightLinks
  {
    LeftLinks + RightLinks
  }

  /** What a click on a link does beyond the router's own navigation. */
  datatype NavAction = NotIntercepted | Navigate(href: string) | ScrollTo(selector: string)

  lemma SplitHasTwoPieces(s: string, sep: string)
    requires |sep| > 0 && Text.Contains(s, sep)
    ensures |Text.Split(s, sep)| >= 2
  {
    Text.SplitWithoutSeparator(s, sep);
    Text.JoinSplit(s, sep);
    var r := Text.Split(s, sep);
    if |r| == 1 {
      assert Text.Join(r, sep) == r[0];
    }
  }

  /** `to.split('#')[1]`, for a target that has a '#'. */
  function HashOf(to: string): string
    requires Text.Contains(to, "#")
  {
    SplitHasTwoPieces(to, "#");
    Text.Split(to, "#")[1]
  }

  /**
   * The hash is the text between the first '#' and the next one, or the
   * end: the target is a '#'-free head, a '#', the hash, and then either
   * nothing or another '#'.
   */
  lemma HashBetweenMarks(to: string)
    requires Text.Contains(to, "#")
    ensures var r := Text.Split(to, "#");
      && |r| >= 2
      && !Text.Contains(r[0], "#") && !Text.Contains(HashOf(to), "#")
      && var n := |r[0]| + 1 + |HashOf(to)|;
      && n <= |to| && to[..n] == r[0] + "#" + HashOf(to)
      && (n < |to| ==> to[n] == '#')
  {
    var r := Text.Split(to, "#");
    SplitHasTwoPieces(to, "#");
    Text.JoinSplit(to, "#");
    Text.SplitPiecesFree(to, "#");
    var tail := Text.Join(r[1..], "#");
    assert to == r[0] + "#" + tail;
    if |r| == 2 {
      assert r[1..] == [r[1]];
      assert to == r[0] + "#" + r[1];
    } else {
      assert tail == r[1] + "#" + Text.Join(r[2..], "#") by {
        assert r[1..][1..] == r[2..];
      }
      assert to == (r[0] + "#" + r[1]) + "#" + Text.Join(r[2..], "#");
    }
  }

  /** `handleNavClick(to)`, on the page at `pathname`. */
  function NavClick(to: string, pathname: string): (a: NavAction)
    ensures a.NotIntercepted? <==> !Text.Contains(to, "#")
    ensures a.Navigate? <==> Text.Contains(to, "#") && pathname != "/"
    ensures a.Navigate? ==> a.href == "/#" + HashOf(to)
    ensures a.ScrollTo? ==> a.selector == "#" + HashOf(to)
  {
    if !Text.Contains(to, "#") then NotIntercepted
    else if pathname != "/" then Navigate("/#" + HashOf(to))
    else ScrollTo("#" + HashOf(to))
  }

  /** `scrollToSection`'s guard: only a selector starting with '#' is looked up. */
  function ScrollTarget(hash: string): (r: Option<string>)
    ensures r.Some? <==> |hash| > 0 && hash[0] == '#'
    ensures r.Some? ==> r.value == hash
  {
    if |hash| > 0 && hash[0] == '#' then Some(hash) else None
  }

  /** A target of the form "/#name" with no further '#' has hash "name". */
  lemma SinglePathHash(to: string)
    requires |to| >= 2 && to[..2] == "/#" && !Text.Contains(to[2..], "#")
    ensures Text.Contains(to, "#")
    ensures HashOf(to) == to[2..]
  {
    assert Text.OccursAt(to, "#", 1);
    var r := Text.Split(to, "#");
    HashBetweenMarks(to);
    var n := 2 + |HashOf(to)|;
    if n < |to| {
      assert Text.OccursAt(to[2..], "#", n - 2);
    }
  }

  /**
   * Every in-page link of the menus leads back to its own target from
   * another page, and on the home page scrolls to the section it names,
   * past a selector guard it always passes.
   */
  lemma InPageLinks(to: string, pathname: string)
    requires |to| >= 2 && to[..2] == "/#" && !Text.Contains(to[2..], "#")
    ensures pathname != "/" ==> NavClick(to, pathname) == Navigate(to)
    ensures pathname == "/" ==> NavClick(to, pathname) == ScrollTo(to[1..])
    ensures pathname == "/" ==> ScrollTarget(NavClick(to, pathname).selector) == Some(to[1..])
  {
    SinglePathHash(to);
    assert to == "/#" + to[2..];
    assert to[1..] == "#" + to[2..];
  }

  /** The header is solid once scrolled or off the home page. */
  predicate Solid(isScrolled: bool, pathname: string)
  {
    isScrolled || pathname != "/"
  }

  function TextColor(isScrolled: bool, pathname: string): string
  {
    if Solid(isScrolled, pathname) then "text-gray-700" else "text-white"
  }

  function BgColor(isScrolled: bool, pathname: string): string
  {
    if Solid(isScrolled, pathname) then "bg-white shadow-md" else "bg-transparent"
  }

  /** Transparent with white text exactly when on the home page and not scrolled. */
  lemma TransparentIffTop(isScrolled: bool, pathname: string)
    ensures TextColor(isScrolled, pathname) == "text-white" <==> !isScrolled && pathname == "/"
    ensures BgColor(isScrolled, pathname) == "bg-transparent" <==> !isScrolled && pathname == "/"
  {
    assert |"text-gray-700"| != |"text-white"|;
    assert |"bg-white shadow-md"| != |"bg-transparent"|;
  }

  class NavBar {
    var isOpen: bool
    var isScrolled: bool
    var pathname: string

    constructor (pathname: string)
      ensures !isOpen && !isScrolled && this.pathname == pathname
    {
      isOpen := false;
      isScrolled := false;
      this.pathname := pathname;
    }

    /** The scroll listener: solid once the page is more than 20 pixels down. */
    method OnScroll(scrollY: int)
      modifies this`isScrolled
      ensures isScrolled <==> scrollY > 20
    {
      isScrolled := scrollY > 20;
    }

    /** The effect on `[location]`: the mobile menu closes whenever the location changes. */
    method OnLocationChange(pathname: string)
      modifies this`pathname, this`isOpen
      ensures this.pathname == pathname && !isOpen
    {
      this.pathname := pathname;
      isOpen := false;
    }

    /** The menu button. */
    method ToggleMenu()
      modifies this`isOpen
      ensures isOpen == !old(isOpen)
    {
      isOpen := !isOpen;
    }

    function Click(to: string): NavAction
      reads this
    {
      NavClick(to, pathname)
    }
  }
}
