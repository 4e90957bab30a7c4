/** Navigation scroll sync on the portfolio screen. Each section spans
    `[top, top + height)` with `top = offsetTop - headerHeight - 100`; on a
    scroll the last section in document order whose span contains `scrollY`
    is current, and the nav links whose `href` is `#` followed by its id are
    marked. When no section matches the current id is the empty string, and
    the `#home` link is marked as well. */
module NavSync {
  import opened Options

  /** A `section[id]` element with its layout offsets, in pixels. */
  datatype Section = Section(id: string, offsetTop: int, offsetHeight: int)

  /** A `.nav-link` element. */
  datatype NavLink = NavLink(href: string, active: bool)

  /** How far ahead of a section's top it already counts as reached. */
  const Lookahead: int := 100

  const HomeHref: string := "#home"

  predicate Covers(s: Section, headerHeight: int, scrollY: int) {
    var top := s.offsetTop - headerHeight - Lookahead;
    top <= scrollY < top + s.offsetHeight
  }

  /** The position of the last section covering `scrollY`, if any. */
  function LastCovering(sections: seq<Section>, headerHeight: int, scrollY: int): (r: Option<nat>)
    ensures r.None? <==> forall i :: 0 <= i < |sections| ==> !Covers(sections[i], headerHeight, scrollY)
    ensures r.Some? ==> r.value < |sections| && Covers(sections[r.value], headerHeight, scrollY)
    ensures r.Some? ==> forall j :: r.value < j < |sections| ==> !Covers(sections[j], headerHeight, scrollY)
    decreases |sections|
  {
    if |sections| == 0 then None
    else
      var n := |sections| - 1;
      if Covers(sections[n], headerHeight, scrollY) then Some(n)
      else
        assert forall i :: 0 <= i < n ==> sections[..n][i] == sections[i];
        LastCovering(sections[..n], headerHeight, scrollY)
  }

  /** The id the scroll handler settles on: the last covering section's,
      or "" when none covers the position. */
  function CurrentId(sections: seq<Section>, headerHeight: int, scrollY: int): string {
    match LastCovering(sections, headerHeight, scrollY)
    case Some(k) => sections[k].id
    case None => ""
  }

  /** The `forEach` over the sections in the scroll handler: later matches
      overwrite earlier ones. */
  method CurrentSection(sections: seq<Section>, headerHeight: int, scrollY: int) returns (current: string)
    ensures current == CurrentId(sections, headerHeight, scrollY)
  {
    current := "";
    var i := 0;
    while i < |sections|
      invariant 0 <= i <= |sections|
      invariant current == CurrentId(sections[..i], headerHeight, scrollY)
    {
      if Covers(sections[i], headerHeight, scrollY) {
        current := sections[i].id;
      }
      assert sections[..i + 1][..i] == sections[..i];
      i := i + 1;
    }
    assert sections[..i] == sections;
  }

  /** Marks the links for the current section id: first every link whose
      `href` is `#` + `current`, then, when `current` is empty, also `#home`. */
  function MarkLinks(links: seq<NavLink>, current: string): (r: seq<NavLink>)
    ensures |r| == |links|
    ensures forall i :: 0 <= i < |links| ==> r[i].href == links[i].href
  {
    seq(|links|, i requires 0 <= i < |links| =>
      links[i].(active := links[i].href == "#" + current || (current == "" && links[i].href == HomeHref)))
  }

  /** The links after a scroll to `scrollY`. */
  function SyncOnScroll(links: seq<NavLink>, sections: seq<Section>, headerHeight: int, scrollY: int): (r: seq<NavLink>)
    ensures |r| == |links|
    ensures forall i :: 0 <= i < |links| ==> r[i].href == links[i].href
  {
    MarkLinks(links, CurrentId(sections, headerHeight, scrollY))
  }

  /** With no section covering the position, exactly the `#home` links are
      marked, provided no link points at the bare fragment `#`. */
  lemma NothingCoveredMarksHome(links: seq<NavLink>, sections: seq<Section>, headerHeight: int, scrollY: int)
    requires forall i :: 0 <= i < |sections| ==> !Covers(sections[i], headerHeight, scrollY)
    requires forall i :: 0 <= i < |links| ==> links[i].href != "#"
    ensures var r := SyncOnScroll(links, sections, headerHeight, scrollY);
            forall i :: 0 <= i < |r| ==> (r[i].active <==> links[i].href == HomeHref)
  {
  }

  /** With no section covering the position, the marked links are those to
      `#home` and those to the bare fragment `#`, since `#` is `#` followed
      by the empty id. */
  lemma BareFragmentMarkedWhenNothingCovered(links: seq<NavLink>, sections: seq<Section>, headerHeight: int, scrollY: int)
    requires forall i :: 0 <= i < |sections| ==> !Covers(sections[i], headerHeight, scrollY)
    ensures var r := SyncOnScroll(links, sections, headerHeight, scrollY);
            forall i :: 0 <= i < |r| ==> (r[i].active <==> links[i].href == "#" || links[i].href == HomeHref)
  {
    assert "#" + "" == "#";
  }

  /** With a section covering the position, the marked links are exactly
      those pointing at the last covering section; when that section's id
      is empty, the `#home` links are marked as well. */
  lemma CoveredMarksLastSection(links: seq<NavLink>, sections: seq<Section>, headerHeight: int, scrollY: int, k: nat)
    requires k < |sections| && Covers(sections[k], headerHeight, scrollY)
    requires forall j :: k < j < |sections| ==> !Covers(sections[j], headerHeight, scrollY)
    ensures var r := SyncOnScroll(links, sections, headerHeight, scrollY);
            forall i :: 0 <= i < |r| ==>
              (r[i].active <==> links[i].href == "#" + sections[k].id || (sections[k].id == "" && links[i].href == HomeHref))
  {
  }

  /** A click on a nav link marks that link alone (before the smooth scroll). */
  function ClickLink(links: seq<NavLink>, k: nat): (r: seq<NavLink>)
    requires k < |links|
    ensures |r| == |links|
    ensures forall i :: 0 <= i < |links| ==> r[i].href == links[i].href && (r[i].active <==> i == k)
  {
    seq(|links|, i requires 0 <= i < |links| => links[i].(active := i == k))
  }
}
