/** The client's top-level routing: which view a location shows, given whether the session
    check is still loading and whether an administrator is signed in. */
module AppRouter {

  /** What the router renders. `RedirectTo` navigates away; `Blank` renders nothing. */
  datatype View =
    | Home
    | CheckoutView
    | AdminLogin
    | LoadingAuth
    | RedirectTo(path: string)
    | Blank
    | AdminDashboard
    | AdminCategories
    | AdminItems
    | AdminBanners
    | AdminSettings
    | NotFound

  const LoginPath: string := "/admin/login"
  const AdminPath: string := "/admin"

  /** `String.prototype.startsWith`. */
  predicate StartsWith(s: string, prefix: string) {
    |prefix| <= |s| && s[..|prefix|] == prefix
  }

  /** The admin page table, behind the sign-in guard. */
  function AdminTable(location: string): (v: View)
    ensures v == AdminDashboard <==> location == "/admin"
    ensures v == AdminCategories <==> location == "/admin/categories"
    ensures v == AdminItems <==> location == "/admin/items"
    ensures v == AdminBanners <==> location == "/admin/banners"
    ensures v == AdminSettings <==> location == "/admin/settings"
    ensures v == NotFound <==>
      location !in {"/admin", "/admin/categories", "/admin/items", "/admin/banners", "/admin/settings"}
  {
    if location == "/admin" then AdminDashboard
    else if location == "/admin/categories" then AdminCategories
    else if location == "/admin/items" then AdminItems
    else if location == "/admin/banners" then AdminBanners
    else if location == "/admin/settings" then AdminSettings
    else NotFound
  }

  /** `AdminRoutes`: loading first, then the two redirects, then nothing for a visitor, then the
      admin page table. */
  function AdminRoutes(location: string, isLoading: bool, isAuthenticated: bool): (v: View)
    ensures isLoading ==> v == LoadingAuth
    ensures !isLoading && !isAuthenticated ==>
      v == (if location == LoginPath then Blank else RedirectTo(LoginPath))
    ensures !isLoading && isAuthenticated ==>
      v == (if location == LoginPath then RedirectTo(AdminPath) else AdminTable(location))
  {
    if isLoading then LoadingAuth
    else if !isAuthenticated && location != LoginPath then RedirectTo(LoginPath)
    else if isAuthenticated && location == LoginPath then RedirectTo(AdminPath)
    else if !isAuthenticated then Blank
    else AdminTable(location)
  }

  /** The public page table. */
  function PublicTable(location: string): (v: View)
    ensures v == NotFound <==> location != "/" && location != "/checkout"
  {
    if location == "/" then Home
    else if location == "/checkout" then CheckoutView
    else NotFound
  }

  /** `Router`: paths starting with "/admin" go to the login page or the guarded admin routes,
      all others to the public page table. */
  function Router(location: string, isLoading: bool, isAuthenticated: bool): (v: View)
    ensures IsAdminView(v) ==> !isLoading && isAuthenticated
  {
    if StartsWith(location, AdminPath) then
      if location == LoginPath then AdminLogin else AdminRoutes(location, isLoading, isAuthenticated)
    else PublicTable(location)
  }

  /** An admin view is one of the pages behind the guard (or the guard's own loading view). */
  predicate IsAdminView(v: View) {
    v.AdminDashboard? || v.AdminCategories? || v.AdminItems? || v.AdminBanners? || v.AdminSettings?
  }

  /** The admin test is a string prefix, not a path segment: "/adminx" is guarded too and
      sends a visitor to the sign-in page. */
  lemma AdminPrefixIsTextual(isLoading: bool)
    ensures StartsWith("/adminx", AdminPath)
    ensures Router("/adminx", isLoading, false) ==
      (if isLoading then LoadingAuth else RedirectTo(LoginPath))
  {
    assert "/adminx"[..6] == "/admin";
  }

  /** The sign-in page is always shown at its path, whatever the session state. */
  lemma LoginPageAlwaysShown(isLoading: bool, isAuthenticated: bool)
    ensures Router(LoginPath, isLoading, isAuthenticated) == AdminLogin
  {
    assert LoginPath[..|AdminPath|] == AdminPath;
  }

  /** Every other admin path shows the loading view while the session is checked. */
  lemma LoadingGuardsAdmin(location: string, isAuthenticated: bool)
    requires StartsWith(location, AdminPath) && location != LoginPath
    ensures Router(location, true, isAuthenticated) == LoadingAuth
  {
  }

  /** A visitor never sees an admin page: any admin path other than the sign-in page redirects
      there once loading is over, and nothing else routes to an admin page for them. */
  lemma VisitorIsRedirected(location: string, isLoading: bool)
    ensures StartsWith(location, AdminPath) && location != LoginPath && !isLoading ==>
      Router(location, isLoading, false) == RedirectTo(LoginPath)
    ensures !IsAdminView(Router(location, isLoading, false))
  {
  }

  /** Two of `AdminRoutes`' branches are dead under `Router`: the redirect of a signed-in
      administrator away from the sign-in page, and the blank view. */
  lemma DeadAdminBranches(location: string, isLoading: bool, isAuthenticated: bool)
    ensures Router(location, isLoading, isAuthenticated) != RedirectTo(AdminPath)
    ensures Router(location, isLoading, isAuthenticated) != Blank
    ensures AdminRoutes(LoginPath, false, true) == RedirectTo(AdminPath)
    ensures AdminRoutes(LoginPath, false, false) == Blank
  {
  }

  /** A signed-in administrator past loading gets the admin page table on every admin path but
      the sign-in page. */
  lemma AdminDispatch(location: string)
    requires StartsWith(location, AdminPath) && location != LoginPath
    ensures Router(location, false, true) == AdminTable(location)
    ensures IsAdminView(Router(location, false, true)) <==>
      location in {"/admin", "/admin/categories", "/admin/items", "/admin/banners", "/admin/settings"}
  {
  }

  /** Paths outside "/admin" ignore the session and use the public table. */
  lemma PublicDispatch(location: string, isLoading: bool, isAuthenticated: bool)
    requires !StartsWith(location, AdminPath)
    ensures Router(location, isLoading, isAuthenticated) == PublicTable(location)
    ensures Router(location, isLoading, isAuthenticated) == Home <==> location == "/"
    ensures Router(location, isLoading, isAuthenticated) == CheckoutView <==> location == "/checkout"
  {
  }

  /** Neither public path starts with "/admin", so both public pages are shown at their paths
      whatever the session state. */
  lemma PublicPathsAreNotAdmin(isLoading: bool, isAuthenticated: bool)
    ensures !StartsWith("/", AdminPath) && !StartsWith("/checkout", AdminPath)
    ensures Router("/", isLoading, isAuthenticated) == Home
    ensures Router("/checkout", isLoading, isAuthenticated) == CheckoutView
  {
    assert "/checkout"[..6] != AdminPath by {
      assert "/checkout"[1] == 'c';
    }
  }
}
