/**
 * The navigation script of the site: marking the nav links of the current
 * page, and opening and closing the mobile navigation menu. The DOM is
 * reduced to plain values: the page path, the links' `href` strings, their
 * `active` flags, and where a click landed.
 */
module Navigation {
  import opened Wrappers
  import opened JsString

  /** The home page link, which is only ever matched by the end of the path. */
  const HomeHref: string := "index.html"

  /** `href.replace('.html', '').replace('/', '')`. */
  function PageName(href: string): string {
    ReplaceFirst(ReplaceFirst(href, ".html", ""), "/", "")
  }

  /** Whether the link with `href` is marked active on the page at `path`. */
  predicate IsActiveLink(path: string, href: string) {
    EndsWith(path, href) || (href != HomeHref && Includes(path, PageName(href)))
  }

  /**
   * The active-link test: a link is active whenever the path ends with its
   * `href`; the home link only then; any other link also when the path
   * contains the `href` with its first `.html` and then its first `/` cut
   * out.
   */
  lemma ActiveLinkIff(path: string, href: string)
    ensures EndsWith(path, href) ==> IsActiveLink(path, href)
    ensures IsActiveLink(path, HomeHref) <==> EndsWith(path, HomeHref)
    ensures href != HomeHref ==>
      (IsActiveLink(path, href) <==> EndsWith(path, href) || exists i :: OccursAt(path, PageName(href), i))
  {
    IncludesIff(path, PageName(href));
  }

  /** A name with no `.` and no `/`, as the site's page names are. */
  predicate IsPlainName(name: string) {
    forall i :: 0 <= i < |name| ==> name[i] != '.' && name[i] != '/'
  }

  /**
   * For a link to `name.html`, the cut-out name is `name`, so the link is
   * active exactly when the path ends with `name.html` or contains `name`
   * anywhere (a pretty URL such as `/results`, but also any longer path
   * that happens to contain the name).
   */
  lemma PageLinkActiveIff(path: string, name: string)
    requires IsPlainName(name) && name + ".html" != HomeHref
    ensures PageName(name + ".html") == name
    ensures IsActiveLink(path, name + ".html")
        <==> EndsWith(path, name + ".html") || exists i :: OccursAt(path, name, i)
  {
    var href := name + ".html";
    forall j | 0 <= j < |name| ensures !OccursAt(href, ".html", j) {
      assert href[j] == name[j] != '.';
    }
    assert OccursAt(href, ".html", |name|) by {
      assert href[|name|..|name| + 5] == ".html";
    }
    assert IndexOf(href, ".html") == Some(|name|);
    assert ReplaceFirst(href, ".html", "") == name by {
      assert href[..|name|] == name;
      assert href[|name| + 5..] == [];
    }
    forall j: nat ensures !OccursAt(name, "/", j) {
      if j < |name| {
        assert name[j] != '/';
      }
    }
    ReplaceFirstWithoutMatch(name, "/", "");
    IncludesIff(path, name);
  }

  /** A page path ending in the link's `href` marks it. */
  lemma ExactPathExample()
    ensures IsActiveLink("/results.html", "results.html")
  {
    assert "/results.html"[1..] == "results.html";
  }

  /** A path without the `.html` suffix, `/name`, still marks the link to `name.html`. */
  lemma PrettyPathMarksLink(name: string)
    requires IsPlainName(name) && name != "index"
    ensures IsActiveLink("/" + name, name + ".html")
  {
    var path := "/" + name;
    assert (name + ".html")[..|name|] == name;
    assert HomeHref[..5] == "index";
    assert OccursAt(path, name, 1) by {
      assert path[1..1 + |name|] == name;
    }
    PageLinkActiveIff(path, name);
  }

  /** The site root `/` does not mark the home link. */
  lemma RootPathExample()
    ensures !IsActiveLink("/", HomeHref)
  {
  }

  /** The `active` flags of the links after the link loop, from those before. */
  function MarkedLinks(path: string, hrefs: seq<string>, before: seq<bool>): (after: seq<bool>)
    requires |before| == |hrefs|
    ensures |after| == |hrefs|
  {
    seq(|hrefs|, i requires 0 <= i < |hrefs| => before[i] || IsActiveLink(path, hrefs[i]))
  }

  /**
   * The link loop marks every link that passes the test and only ever adds
   * `active`: a link that was active stays active, a link the test does not
   * match is left unchanged, and running the loop again changes nothing.
   */
  lemma MarkedLinksOnlyAdd(path: string, hrefs: seq<string>, before: seq<bool>)
    requires |before| == |hrefs|
    ensures forall i :: 0 <= i < |hrefs| && IsActiveLink(path, hrefs[i]) ==> MarkedLinks(path, hrefs, before)[i]
    ensures forall i :: 0 <= i < |hrefs| && before[i] ==> MarkedLinks(path, hrefs, before)[i]
    ensures forall i :: 0 <= i < |hrefs| && !IsActiveLink(path, hrefs[i])
              ==> MarkedLinks(path, hrefs, before)[i] == before[i]
    ensures MarkedLinks(path, hrefs, MarkedLinks(path, hrefs, before)) == MarkedLinks(path, hrefs, before)
  {
  }

  /**
   * A link's result depends only on its own `href` and flag: marking a
   * list of links is marking each link on its own.
   */
  lemma MarkedLinksIndependent(path: string, hrefs: seq<string>, before: seq<bool>, i: nat)
    requires |before| == |hrefs| && i < |hrefs|
    ensures MarkedLinks(path, hrefs, before)[i] == MarkedLinks(path, [hrefs[i]], [before[i]])[0]
  {
  }

  /**
   * The `navLinks.forEach` loop: adds `active` to every link whose `href`
   * passes the test, in place.
   */
  method MarkActiveLinks(path: string, hrefs: seq<string>, active: array<bool>)
    requires active.Length == |hrefs|
    modifies active
    ensures active[..] == MarkedLinks(path, hrefs, old(active[..]))
  {
    var i := 0;
    while i < active.Length
      invariant 0 <= i <= active.Length
      invariant forall k :: 0 <= k < i ==> active[k] == (old(active[k]) || IsActiveLink(path, hrefs[k]))
      invariant forall k :: i <= k < active.Length ==> active[k] == old(active[k])
    {
      if IsActiveLink(path, hrefs[i]) {
        active[i] := true;
      }
      i := i + 1;
    }
  }

  /** Where a click lands, as far as the menu script can tell. */
  datatype Target = InNav | OnToggle | Elsewhere

  /** The toggle button's listener: `nav.classList.toggle('active')`. */
  function AfterToggleClick(open: bool): bool {
    !open
  }

  /**
   * The document's listener: an open menu closes on a click outside both
   * the menu and the toggle. Without a toggle button `navToggle` is null, so
   * `navToggle.contains` throws and the menu stays as it was.
   */
  function AfterDocumentClick(open: bool, hasToggle: bool, target: Target): bool {
    if open && target != InNav && hasToggle && target != OnToggle then false else open
  }

  /**
   * A whole click event: the toggle's listener runs first when the click is
   * on the toggle, then the event bubbles to the document's listener.
   */
  function AfterClick(open: bool, hasToggle: bool, target: Target): bool {
    var afterTarget := if target == OnToggle && hasToggle then AfterToggleClick(open) else open;
    AfterDocumentClick(afterTarget, hasToggle, target)
  }

  /**
   * The menu's behaviour under clicks: a click on the toggle flips it, a
   * click inside the menu leaves it alone, a click elsewhere closes it, and
   * only the toggle ever opens it.
   */
  lemma ClickTransitions(open: bool)
    ensures AfterClick(open, true, OnToggle) == !open
    ensures AfterClick(AfterClick(open, true, OnToggle), true, OnToggle) == open
    ensures forall h :: AfterClick(open, h, InNav) == open
    ensures !AfterClick(open, true, Elsewhere)
    ensures forall h, t :: !open && AfterClick(open, h, t) ==> t == OnToggle
  {
  }

  /** The mobile navigation menu and its `active` (open) state. */
  class NavMenu {
    /** Whether the page has a `.nav-toggle` button. */
    const hasToggle: bool
    /** Whether the menu carries the `active` class. */
    var open: bool

    constructor (hasToggle: bool, open: bool)
      ensures this.hasToggle == hasToggle && this.open == open
    {
      this.hasToggle := hasToggle;
      this.open := open;
    }

    /** The toggle button's click listener (registered only when there is a toggle). */
    method OnToggleClick()
      requires hasToggle
      modifies this
      ensures open == AfterToggleClick(old(open))
    {
      open := !open;
    }

    /** The document's click listener. */
    method OnDocumentClick(target: Target)
      modifies this
      ensures open == AfterDocumentClick(old(open), hasToggle, target)
    {
      if open && target != InNav && hasToggle && target != OnToggle {
        open := false;
      }
    }

    /** A click on `target`: the toggle's listener if it was hit, then the document's. */
    method Click(target: Target)
      requires target == OnToggle ==> hasToggle
      modifies this
      ensures open == AfterClick(old(open), hasToggle, target)
    {
      if target == OnToggle {
        OnToggleClick();
      }
      OnDocumentClick(target);
    }
  }
}
