/** The navigation bar: the active tab derived from the current path by
    prefix, and the path a selected tab navigates to. */
module Navigation {

  const Tabs: set<string> := {"home", "admin", "contract", "renter", "calendar"}

  /** `getActiveTab`: the first of the four prefixes the path starts with. */
  function ActiveTab(path: string): (tab: string)
    ensures tab in Tabs
  {
    if "/admin" <= path then "admin"
    else if "/contract" <= path then "contract"
    else if "/renter" <= path then "renter"
    else if "/calendar" <= path then "calendar"
    else "home"
  }

  /** `onValueChange`: the route a tab value navigates to; unknown values
      go to `/`. */
  function Route(tab: string): (path: string)
    ensures tab !in Tabs ==> path == "/"
  {
    match tab
    case "home" => "/"
    case "admin" => "/admin"
    case "contract" => "/contract"
    case "renter" => "/renter"
    case "calendar" => "/calendar"
    case _ => "/"
  }

  /** No path starts with two of the four prefixes, since they differ in
      their second character. */
  lemma PrefixesExclusive(path: string)
    ensures !("/admin" <= path && "/contract" <= path)
    ensures !("/admin" <= path && "/renter" <= path)
    ensures !("/admin" <= path && "/calendar" <= path)
    ensures !("/contract" <= path && "/renter" <= path)
    ensures !("/contract" <= path && "/calendar" <= path)
    ensures !("/renter" <= path && "/calendar" <= path)
  {
    if |path| >= 2 {
      assert "/admin" <= path ==> path[1] == 'a';
      assert "/contract" <= path ==> path[1] == 'c';
      assert "/renter" <= path ==> path[1] == 'r';
      assert "/calendar" <= path ==> path[1] == 'c' && |path| >= 3 && path[2] == 'a';
      assert "/contract" <= path ==> |path| >= 3 && path[2] == 'o';
    }
  }

  /** Each named tab is chosen exactly when the path starts with its
      prefix, whatever the order of the tests; `home` otherwise. */
  lemma ActiveTabIff(path: string)
    ensures ActiveTab(path) == "admin" <==> "/admin" <= path
    ensures ActiveTab(path) == "contract" <==> "/contract" <= path
    ensures ActiveTab(path) == "renter" <==> "/renter" <= path
    ensures ActiveTab(path) == "calendar" <==> "/calendar" <= path
    ensures ActiveTab(path) == "home"
        <==> !("/admin" <= path || "/contract" <= path || "/renter" <= path || "/calendar" <= path)
  {
    PrefixesExclusive(path);
  }

  /** Navigating to a tab's route makes that tab active. */
  lemma RouteRoundTrip(tab: string)
    requires tab in Tabs
    ensures ActiveTab(Route(tab)) == tab
  {
    PrefixesExclusive(Route(tab));
    if tab == "home" {
      assert Route(tab) == "/";
      assert !("/admin" <= "/") && !("/contract" <= "/") && !("/renter" <= "/") && !("/calendar" <= "/");
    }
  }

  /** Matching is by prefix: `/admin/x` and `/administrator` are both the
      admin tab, and `/` is home. */
  lemma PrefixExamples()
    ensures ActiveTab("/admin/x") == "admin"
    ensures ActiveTab("/administrator") == "admin"
    ensures ActiveTab("/") == "home"
  {
  }
}
