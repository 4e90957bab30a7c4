/** The screen selector: a fixed set of `.screen` elements, each with an
    `active` marker, plus the name of the current screen. Switching resets
    the scroll position, clears every marker, and only then looks the
    target up, so an unknown name leaves no screen active. */
module Screens {
  import opened Options

  /** One `.screen` element, identified by its element id. */
  datatype Screen = Screen(id: string, active: bool)

  datatype ScreenState = ScreenState(screens: seq<Screen>, current: string, scrollTop: int)

  /** The element id the screen called `name` carries. */
  function ScreenId(name: string): string {
    name + "-screen"
  }

  predicate Known(screens: seq<Screen>, name: string) {
    exists i :: 0 <= i < |screens| && screens[i].id == ScreenId(name)
  }

  predicate OnlyActive(screens: seq<Screen>, k: nat) {
    forall i :: 0 <= i < |screens| ==> (screens[i].active <==> i == k)
  }

  predicate NoneActive(screens: seq<Screen>) {
    forall i :: 0 <= i < |screens| ==> !screens[i].active
  }

  predicate AtMostOneActive(screens: seq<Screen>) {
    forall i, j :: 0 <= i < |screens| && 0 <= j < |screens| && screens[i].active && screens[j].active ==> i == j
  }

  /** Both lists hold the same elements in the same order, markers aside. */
  predicate SameIds(a: seq<Screen>, b: seq<Screen>) {
    |a| == |b| && forall i :: 0 <= i < |a| ==> a[i].id == b[i].id
  }

  /** `getElementById`: the first element in document order with this id. */
  function Lookup(screens: seq<Screen>, id: string): (r: Option<nat>)
    ensures r.None? <==> forall i :: 0 <= i < |screens| ==> screens[i].id != id
    ensures r.Some? ==> r.value < |screens| && screens[r.value].id == id
    ensures r.Some? ==> forall j :: 0 <= j < r.value ==> screens[j].id != id
    decreases |screens|
  {
    if |screens| == 0 then None
    else if screens[0].id == id then Some(0)
    else
      match Lookup(screens[1..], id)
      case None =>
        assert forall i :: 1 <= i < |screens| ==> screens[i] == screens[1..][i - 1];
        None
      case Some(k) =>
        assert forall j :: 1 <= j < k + 1 ==> screens[j] == screens[1..][j - 1];
        Some(k + 1)
  }

  /** Removes the `active` marker from every screen. */
  function Deactivate(screens: seq<Screen>): (r: seq<Screen>)
    ensures SameIds(r, screens) && NoneActive(r)
  {
    seq(|screens|, i requires 0 <= i < |screens| => screens[i].(active := false))
  }

  /** Lists with the same elements clear to the same list, whatever their markers. */
  lemma DeactivateForgetsMarkers(a: seq<Screen>, b: seq<Screen>)
    requires SameIds(a, b)
    ensures Deactivate(a) == Deactivate(b)
  {
    assert forall i :: 0 <= i < |a| ==> Deactivate(a)[i] == Deactivate(b)[i];
  }

  /** `switchScreen(name)`. */
  function SwitchScreen(st: ScreenState, name: string): (r: ScreenState)
    ensures SameIds(r.screens, st.screens)
    ensures r.scrollTop == 0
    ensures AtMostOneActive(r.screens)
    ensures Known(st.screens, name) ==>
              r.current == name &&
              exists k :: 0 <= k < |r.screens| && OnlyActive(r.screens, k) && r.screens[k].id == ScreenId(name)
                       && forall j :: 0 <= j < k ==> r.screens[j].id != ScreenId(name)
    ensures !Known(st.screens, name) ==> NoneActive(r.screens) && r.current == st.current
  {
    var cleared := Deactivate(st.screens);
    match Lookup(cleared, ScreenId(name))
    case Some(k) => ScreenState(cleared[k := cleared[k].(active := true)], name, 0)
    case None => ScreenState(cleared, st.current, 0)
  }

  /** The markers after a switch depend only on the target, not on which
      screen was active before. */
  lemma SwitchScreenForgetsHistory(st: ScreenState, x: string, y: string)
    ensures SwitchScreen(SwitchScreen(st, x), y).screens == SwitchScreen(st, y).screens
  {
    DeactivateForgetsMarkers(SwitchScreen(st, x).screens, st.screens);
  }

  /** Switching to X and then to an existing Y leaves Y as the one active
      screen and the current one. */
  lemma SwitchScreenTwice(st: ScreenState, x: string, y: string)
    requires Known(st.screens, y)
    ensures var r := SwitchScreen(SwitchScreen(st, x), y);
            r.current == y &&
            exists k :: 0 <= k < |r.screens| && OnlyActive(r.screens, k) && r.screens[k].id == ScreenId(y)
  {
    var mid := SwitchScreen(st, x);
    var i :| 0 <= i < |st.screens| && st.screens[i].id == ScreenId(y);
    assert mid.screens[i].id == ScreenId(y);
  }

  /** Repeating a switch changes nothing. */
  lemma SwitchScreenIdempotent(st: ScreenState, name: string)
    ensures SwitchScreen(SwitchScreen(st, name), name) == SwitchScreen(st, name)
  {
    SwitchScreenForgetsHistory(st, name, name);
  }
}
