/** The navigation menu (frontend/src/components/layout/Sidebar.tsx): the
    items shown for the signed-in user's role, and which of them is
    highlighted for the current path. Labels come from the translation
    lookup, a parameter here. */
module Sidebar {
  import opened Common

  datatype MenuItem = MenuItem(caption: string, path: string, color: string, bgColor: string)

  /** The ten items every user gets, in order. */
  function BaseItems(t: string -> string): (r: seq<MenuItem>)
    ensures |r| == 10
  {
    [ MenuItem(t("nav.home"), "/", "text-indigo-600", "bg-indigo-50"),
      MenuItem(t("nav.dashboard"), "/dashboard", "text-blue-600", "bg-blue-50"),
      MenuItem(t("nav.catalogue"), "/articles", "text-green-600", "bg-green-50"),
      MenuItem(t("nav.newArticle"), "/articles/new", "text-purple-600", "bg-purple-50"),
      MenuItem(t("nav.newSale"), "/ventes/new", "text-green-600", "bg-green-50"),
      MenuItem(t("nav.stockAlerts"), "/alerts", "text-orange-600", "bg-orange-50"),
      MenuItem(t("nav.statistics"), "/statistics", "text-indigo-600", "bg-indigo-50"),
      MenuItem(t("nav.recentSales"), "/sales", "text-emerald-600", "bg-emerald-50"),
      MenuItem(t("nav.stockMovements"), "/stock-movements", "text-cyan-600", "bg-cyan-50"),
      MenuItem("Utilisateurs", "/users", "text-pink-600", "bg-pink-50") ]
  }

  /** `menuItems` for a user whose role is `role` (absent when nobody is
      signed in): the two conditional spreads add the management items for
      a manager. */
  function MenuItems(role: Option<string>, t: string -> string): seq<MenuItem>
  {
    var manager := role == Some("gerant");
    BaseItems(t)
    + (if manager then [MenuItem(t("nav.usersManagement"), "/users-management", "text-purple-600", "bg-purple-50")] else [])
    + (if manager then [MenuItem(t("nav.settings"), "/settings", "text-gray-600", "bg-gray-50")] else [])
  }

  /** Everyone but a manager gets exactly the ten base items; a manager
      gets those ten followed by users management and settings; the paths
      are those of the list below, the first ten for everyone but a
      manager. */
  lemma MenuItemsSpec(role: Option<string>, t: string -> string)
    ensures var items := MenuItems(role, t);
      && (role != Some("gerant") ==> items == BaseItems(t))
      && (role == Some("gerant") ==>
            && |items| == 12 && items[..10] == BaseItems(t)
            && items[10].path == "/users-management" && items[11].path == "/settings")
      && forall i :: 0 <= i < |items| ==> items[i].path == MANAGER_PATHS[i]
  {
    var items := MenuItems(role, t);
    if role == Some("gerant") {
      assert items[..10] == BaseItems(t);
    }
  }

  const MANAGER_PATHS: seq<string> := ["/", "/dashboard", "/articles", "/articles/new", "/ventes/new", "/alerts",
                                       "/statistics", "/sales", "/stock-movements", "/users", "/users-management", "/settings"]

  /** The position of a path in the list above. */
  function PathIndex(path: string): int
  {
    match path
    case "/" => 0
    case "/dashboard" => 1
    case "/articles" => 2
    case "/articles/new" => 3
    case "/ventes/new" => 4
    case "/alerts" => 5
    case "/statistics" => 6
    case "/sales" => 7
    case "/stock-movements" => 8
    case "/users" => 9
    case "/users-management" => 10
    case "/settings" => 11
    case _ => -1
  }

  /** No two items share a path: each path sits at its own position. */
  lemma ManagerPathsDistinct()
    ensures forall i, j :: 0 <= i < j < |MANAGER_PATHS| ==> MANAGER_PATHS[i] != MANAGER_PATHS[j]
  {
    forall i | 0 <= i < |MANAGER_PATHS| ensures PathIndex(MANAGER_PATHS[i]) == i {
    }
  }

  /** `isActive(path)` for the current `pathname`. */
  predicate IsActive(pathname: string, path: string)
  {
    pathname == path || StartsWith(pathname, path + "/")
  }

  /** An active item's path is a prefix of the current path, cut at a "/"
      unless the two are equal. The home item "/" is active only on "/"
      itself (or on a path beginning with "//"). */
  lemma IsActiveSpec(pathname: string, path: string)
    ensures IsActive(pathname, path) ==> StartsWith(pathname, path)
    ensures IsActive(pathname, path) && pathname != path ==> |pathname| > |path| && pathname[|path|] == '/'
    ensures IsActive(pathname, "/") <==> pathname == "/" || StartsWith(pathname, "//")
  {
    if StartsWith(pathname, path + "/") {
      assert pathname[..|path|] == (path + "/")[..|path|];
      assert pathname[|path|] == (path + "/")[|path|];
    }
  }

  /** On the new-article page both the catalogue item and the new-article
      item are highlighted, while "/users-management" does not highlight
      "/users". */
  lemma ActiveItemsExamples()
    ensures IsActive("/articles/new", "/articles") && IsActive("/articles/new", "/articles/new")
    ensures !IsActive("/users-management", "/users")
  {
    assert ("/articles/new")[..|"/articles/"|] == "/articles/";
    assert ("/users-management")[|"/users"|] == '-';
  }
}
