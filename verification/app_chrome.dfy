/**
 * The front-end chrome state: whether the chrome is hidden, the section and
 * page navigation, page actions, and the search bar and mega menu toggles.
 * Updates are merged into the current state; the first update after a route
 * is mounted also resets what belongs to the previous route. A new state is
 * published only when it differs from the current one.
 */
module AppChrome {
  import opened Wrappers

  /** A navigation item; `objectId` stands for the identity the state's equality compares. */
  datatype NavModelItem = NavModelItem(objectId: nat, text: string)

  /** Page actions: a rendered element, or a falsy node (null, false, "" or 0). */
  datatype ActionsNode = Element(key: string) | Falsy

  datatype RouteDescriptor = RouteDescriptor(path: string, chromeless: Option<bool>)

  /** The state's optional fields are `None` when undefined; an explicit undefined in an update can clear even the section. */
  datatype AppChromeState = AppChromeState(
    chromeless: Option<bool>,
    sectionNav: Option<NavModelItem>,
    pageNav: Option<NavModelItem>,
    actions: Option<ActionsNode>,
    searchBarHidden: Option<bool>,
    megaMenuOpen: Option<bool>)

  /** A key of a partial object: absent, or present with a value that may be undefined (`None`). */
  datatype Field<T> = Absent | Given(value: Option<T>)

  /** A partial state: each present key overrides the current field, an explicit undefined included. */
  datatype ChromeUpdate = ChromeUpdate(
    chromeless: Field<bool>,
    sectionNav: Field<NavModelItem>,
    pageNav: Field<NavModelItem>,
    actions: Field<ActionsNode>,
    searchBarHidden: Field<bool>,
    megaMenuOpen: Field<bool>)

  const DefaultSection: NavModelItem := NavModelItem(0, "Grafana")

  const SearchBarStorageKey: string := "SearchBar_Hidden"

  const NoChange: ChromeUpdate := ChromeUpdate(Absent, Absent, Absent, Absent, Absent, Absent)

  /** `!value` on an optional boolean: undefined is falsy. */
  function Not(value: Option<bool>): (r: bool)
    ensures r <==> value != Some(true)
  {
    !(value.Some? && value.value)
  }

  /** The browser store's boolean read: the default when the key is absent, otherwise whether it holds "true". */
  function GetBool(storage: map<string, string>, key: string, default: bool): (r: bool)
    ensures key !in storage ==> r == default
    ensures key in storage ==> (r <==> storage[key] == "true")
  {
    if key !in storage then default else storage[key] == "true"
  }

  function BoolString(b: bool): (s: string)
    ensures s == "true" <==> b
  {
    if b then "true" else "false"
  }

  /** One key of the spread: a present key wins, even when its value is undefined. */
  function Override<T>(current: Option<T>, supplied: Field<T>): (r: Option<T>)
    ensures supplied.Given? ==> r == supplied.value
    ensures supplied.Absent? ==> r == current
  {
    if supplied.Given? then supplied.value else current
  }

  /** A later partial object spread over an earlier one. */
  function Later<T>(earlier: Field<T>, later: Field<T>): (r: Field<T>)
    ensures r.Absent? <==> earlier.Absent? && later.Absent?
    ensures later.Given? ==> r == later
  {
    if later.Given? then later else earlier
  }

  /** `{...current, ...update}`. */
  function Merge(current: AppChromeState, u: ChromeUpdate): (r: AppChromeState)
    ensures r.chromeless == Override(current.chromeless, u.chromeless)
    ensures r.sectionNav == Override(current.sectionNav, u.sectionNav)
    ensures r.pageNav == Override(current.pageNav, u.pageNav)
    ensures r.actions == Override(current.actions, u.actions)
    ensures r.searchBarHidden == Override(current.searchBarHidden, u.searchBarHidden)
    ensures r.megaMenuOpen == Override(current.megaMenuOpen, u.megaMenuOpen)
  {
    AppChromeState(
      Override(current.chromeless, u.chromeless),
      Override(current.sectionNav, u.sectionNav),
      Override(current.pageNav, u.pageNav),
      Override(current.actions, u.actions),
      Override(current.searchBarHidden, u.searchBarHidden),
      Override(current.megaMenuOpen, u.megaMenuOpen))
  }

  /** The update supplies actions that are truthy. */
  predicate ActionsSupplied(u: ChromeUpdate) {
    u.actions.Given? && u.actions.value.Some? && u.actions.value.value.Element?
  }

  /** The update supplies a section (a navigation item is truthy whenever it is defined). */
  predicate SectionSupplied(u: ChromeUpdate) {
    u.sectionNav.Given? && u.sectionNav.value.Some?
  }

  /**
   * The state an update produces: the merge, and when the route change is
   * not yet handled, actions cleared and the section reset unless
   * supplied, and chromeless taken from the current route.
   */
  function NextState(current: AppChromeState, u: ChromeUpdate, routeChangeHandled: bool, route: Option<RouteDescriptor>): (r: AppChromeState)
    ensures routeChangeHandled ==> r == Merge(current, u)
    ensures !routeChangeHandled ==>
      && r.chromeless == (if route.Some? then route.value.chromeless else None)
      && r.sectionNav == (if SectionSupplied(u) then u.sectionNav.value else Some(DefaultSection))
      && r.actions == (if ActionsSupplied(u) then u.actions.value else None)
      && r.pageNav == Merge(current, u).pageNav
      && r.searchBarHidden == Merge(current, u).searchBarHidden
      && r.megaMenuOpen == Merge(current, u).megaMenuOpen
  {
    var merged := Merge(current, u);
    if routeChangeHandled then merged
    else merged.(
      actions := if ActionsSupplied(u) then merged.actions else None,
      sectionNav := if SectionSupplied(u) then merged.sectionNav else Some(DefaultSection),
      chromeless := if route.Some? then route.value.chromeless else None)
  }

  /** Once the route change is handled, an update that supplies nothing changes nothing. */
  lemma EmptyUpdateIsIdentity(current: AppChromeState, route: Option<RouteDescriptor>)
    ensures NextState(current, NoChange, true, route) == current
  {
  }

  /**
   * On a route change the reset fields do not depend on the state the
   * previous route left: two different states give the same chromeless,
   * section and actions.
   */
  lemma RouteChangeForgetsPreviousRoute(s1: AppChromeState, s2: AppChromeState, u: ChromeUpdate, route: Option<RouteDescriptor>)
    ensures NextState(s1, u, false, route).chromeless == NextState(s2, u, false, route).chromeless
    ensures NextState(s1, u, false, route).sectionNav == NextState(s2, u, false, route).sectionNav
    ensures NextState(s1, u, false, route).actions == NextState(s2, u, false, route).actions
  {
  }

  /** Two merges in a row are one merge of the later update over the earlier. */
  lemma MergeTwice(s: AppChromeState, u1: ChromeUpdate, u2: ChromeUpdate)
    ensures Merge(Merge(s, u1), u2) == Merge(s, ChromeUpdate(
      Later(u1.chromeless, u2.chromeless),
      Later(u1.sectionNav, u2.sectionNav),
      Later(u1.pageNav, u2.pageNav),
      Later(u1.actions, u2.actions),
      Later(u1.searchBarHidden, u2.searchBarHidden),
      Later(u1.megaMenuOpen, u2.megaMenuOpen)))
  {
  }

  function InitialState(storage: map<string, string>): (s: AppChromeState)
    ensures s.chromeless == Some(true) && s.sectionNav == Some(DefaultSection)
    ensures s.searchBarHidden == Some(GetBool(storage, SearchBarStorageKey, false))
    ensures s.pageNav.None? && s.actions.None? && s.megaMenuOpen.None?
  {
    AppChromeState(Some(true), Some(DefaultSection), None, None, Some(GetBool(storage, SearchBarStorageKey, false)), None)
  }

  /** The merge with the fields of the previous route cleared, as the first update after a route change computes it. */
  method ResetForRoute(current: AppChromeState, u: ChromeUpdate, route: Option<RouteDescriptor>) returns (newState: AppChromeState)
    ensures newState == NextState(current, u, false, route)
  {
    newState := Merge(current, u);
    if !ActionsSupplied(u) {
      newState := newState.(actions := None);
    }
    if !SectionSupplied(u) {
      newState := newState.(sectionNav := Some(DefaultSection));
    }
    newState := newState.(chromeless := if route.Some? then route.value.chromeless else None);
  }

  class AppChromeService {
    var currentRoute: Option<RouteDescriptor>
    var routeChangeHandled: bool
    /** The current value of the state subject. */
    var state: AppChromeState
    /** Every value pushed to the state subject after the initial one, in order. */
    var published: seq<AppChromeState>
    /** The browser's local storage. */
    var storage: map<string, string>

    /** Chrome hidden, the default section, and the search bar as last persisted. */
    constructor (storage: map<string, string>)
      ensures this.storage == storage
      ensures state == InitialState(storage)
      ensures currentRoute.None? && !routeChangeHandled && published == []
    {
      this.storage := storage;
      currentRoute := None;
      routeChangeHandled := false;
      state := InitialState(storage);
      published := [];
    }

    method RouteMounted(route: RouteDescriptor)
      modifies this`currentRoute, this`routeChangeHandled
      ensures currentRoute == Some(route) && !routeChangeHandled
    {
      currentRoute := Some(route);
      routeChangeHandled := false;
    }

    /** update: computes the next state, marks the route change handled, and publishes only a changed state. */
    method Update(u: ChromeUpdate)
      modifies this`routeChangeHandled, this`state, this`published
      ensures routeChangeHandled
      ensures var next := NextState(old(state), u, old(routeChangeHandled), currentRoute);
        && state == next
        && published == if next != old(state) then old(published) + [next] else old(published)
    {
      var current := state;
      var newState := Merge(current, u);
      if !routeChangeHandled {
        newState := ResetForRoute(current, u, currentRoute);
        routeChangeHandled := true;
      }
      if current != newState {
        state := newState;
        published := published + [newState];
      }
    }

    /** toggleMegaMenu: an update whose only field is the negated megaMenuOpen. */
    method ToggleMegaMenu()
      modifies this`routeChangeHandled, this`state, this`published
      ensures var u := NoChange.(megaMenuOpen := Given(Some(Not(old(state).megaMenuOpen))));
        && state == NextState(old(state), u, old(routeChangeHandled), currentRoute)
        && published == if state != old(state) then old(published) + [state] else old(published)
      ensures state.megaMenuOpen == Some(Not(old(state).megaMenuOpen))
    {
      Update(NoChange.(megaMenuOpen := Given(Some(Not(state.megaMenuOpen)))));
    }

    /** toggleSearchBar: persists the negated searchBarHidden, then updates the state with it. */
    method ToggleSearchBar()
      modifies this`routeChangeHandled, this`state, this`published, this`storage
      ensures var hidden := Not(old(state).searchBarHidden);
        && storage == old(storage)[SearchBarStorageKey := BoolString(hidden)]
        && state == NextState(old(state), NoChange.(searchBarHidden := Given(Some(hidden))), old(routeChangeHandled), currentRoute)
        && published == if state != old(state) then old(published) + [state] else old(published)
      ensures state.searchBarHidden == Some(GetBool(storage, SearchBarStorageKey, false))
    {
      var searchBarHidden := Not(state.searchBarHidden);
      storage := storage[SearchBarStorageKey := BoolString(searchBarHidden)];
      Update(NoChange.(searchBarHidden := Given(Some(searchBarHidden))));
    }
  }

  /**
   * A page mounts a route without chrome and sets its page navigation: the
   * first update hides nothing it should not, resets the section and
   * publishes; repeating the same update publishes nothing.
   */
  method RouteThenRepeatedUpdateScenario(pageNav: NavModelItem) returns (first: AppChromeState, publishedCount: nat)
    ensures first.chromeless == Some(false) && first.sectionNav == Some(DefaultSection) && first.pageNav == Some(pageNav)
    ensures first.actions.None?
    ensures publishedCount == 1
  {
    var chrome := new AppChromeService(map[]);
    chrome.RouteMounted(RouteDescriptor("/explore", Some(false)));
    var u := NoChange.(pageNav := Given(Some(pageNav)));
    chrome.Update(u);
    first := chrome.state;
    chrome.Update(u);
    publishedCount := |chrome.published|;
  }
}
