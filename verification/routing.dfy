/**
 The browser client's access control: the redirect decision of
 `ProtectedRoute.jsx` and the route table of `App.jsx` that feeds it, and
 what a visit to a location shows once every redirect has been followed.
 */
module Routing {
  import opened Text
  import opened Results

  /** The stored session as `getAuth()` returns it. A missing or empty token
      is the same falsy `auth?.token`, so the token is the empty string when
      absent; a session without a role has `role == None`. */
  datatype Auth = Auth(token: string, role: Option<string>)

  /** A location, as its non-empty path segments: `/` is `[]`,
      `/receipts/R-1` is `["receipts", "R-1"]`. */
  type Path = seq<string>

  const LoginPath: Path := ["login"]
  const HomePath: Path := []
  const PosPath: Path := ["pos"]

  /** What `ProtectedRoute` returns: its children, or a `<Navigate replace>`. */
  datatype Guard = Render | Redirect(to: Path)

  predicate HasToken(auth: Option<Auth>) {
    auth.Some? && auth.value.token != ""
  }

  /** `roles.includes(auth.role)`; an absent role is never listed. */
  predicate Listed(roles: seq<string>, role: Option<string>) {
    role.Some? && role.value in roles
  }

  /** `ProtectedRoute({children, roles})`: no token goes to the login page;
      a role outside a non-empty list goes to `/pos` when it is "Cashier"
      and to `/` otherwise; everything else renders the children. */
  function ProtectedRoute(auth: Option<Auth>, roles: Option<seq<string>>): (g: Guard)
    ensures !HasToken(auth) ==> g == Redirect(LoginPath)
    ensures HasToken(auth) && (roles.None? || roles.value == []) ==> g == Render
    ensures g == Render <==>
              HasToken(auth) && (roles.None? || roles.value == [] || Listed(roles.value, auth.value.role))
    ensures g == Redirect(PosPath) <==>
              && HasToken(auth) && roles.Some? && roles.value != []
              && !Listed(roles.value, auth.value.role) && auth.value.role == Some("Cashier")
    ensures g == Redirect(HomePath) <==>
              && HasToken(auth) && roles.Some? && roles.value != []
              && !Listed(roles.value, auth.value.role) && auth.value.role != Some("Cashier")
  {
    if !HasToken(auth) then Redirect(LoginPath)
    else if roles.Some? && |roles.value| > 0 && !Listed(roles.value, auth.value.role) then
      if auth.value.role == Some("Cashier") then Redirect(PosPath) else Redirect(HomePath)
    else Render
  }

  // ---------------------------------------------------------------------
  // The route table

  /** The pages `App` can show. */
  datatype Page = Login | Dashboard | Pos | Products | Receipts | ReceiptDetails(receiptNo: string)

  /** React Router's default matching: segments compare ignoring case, and
      `:receiptNo` takes any one segment. `None` is the `*` fallback. */
  function Match(path: Path): (r: Option<Page>)
    ensures r == Some(Login) <==> |path| == 1 && EqualsIgnoreCase(path[0], "login")
    ensures r == Some(Dashboard) <==> path == []
    ensures r == Some(Pos) <==> |path| == 1 && EqualsIgnoreCase(path[0], "pos")
    ensures r == Some(Products) <==> |path| == 1 && EqualsIgnoreCase(path[0], "products")
    ensures r == Some(Receipts) <==> |path| == 1 && EqualsIgnoreCase(path[0], "receipts")
    ensures r.None? <==>
              || (|path| == 1 && !EqualsIgnoreCase(path[0], "login") && !EqualsIgnoreCase(path[0], "pos")
                  && !EqualsIgnoreCase(path[0], "products") && !EqualsIgnoreCase(path[0], "receipts"))
              || (|path| == 2 && !EqualsIgnoreCase(path[0], "receipts"))
              || |path| > 2
    ensures r.Some? && r.value.ReceiptDetails? <==>
              |path| == 2 && EqualsIgnoreCase(path[0], "receipts")
    ensures r.Some? && r.value.ReceiptDetails? ==> r.value.receiptNo == path[1]
    ensures |path| > 2 ==> r.None?
  {
    if path == [] then Some(Dashboard)
    else if |path| == 1 then
      // "products" and "receipts" have the same length but differ at the first letter.
      assert EqualsIgnoreCase(path[0], "receipts") ==> UpperChar(path[0][0]) == 'R';
      if EqualsIgnoreCase(path[0], "login") then Some(Login)
      else if EqualsIgnoreCase(path[0], "pos") then Some(Pos)
      else if EqualsIgnoreCase(path[0], "products") then Some(Products)
      else if EqualsIgnoreCase(path[0], "receipts") then Some(Receipts)
      else None
    else if |path| == 2 && EqualsIgnoreCase(path[0], "receipts") then Some(ReceiptDetails(path[1]))
    else None
  }

  /** The `roles` each page's `ProtectedRoute` is given; the login page is
      public and has no guard. */
  function RouteRoles(page: Page): Option<seq<string>> {
    match page
    case Login => None
    case Dashboard => Some(["Admin", "Manager"])
    case Pos => Some(["Admin", "Manager", "Cashier"])
    case Products => Some(["Admin", "Manager"])
    case Receipts => Some(["Admin", "Manager", "Cashier"])
    case ReceiptDetails(_) => Some(["Admin", "Manager", "Cashier"])
  }

  /** The result of rendering a location once. */
  datatype Visit = Show(page: Page) | Go(to: Path)

  /** One render of `App` at `path`: the public login page, a guarded page
      or its guard's redirect, or the fallback's redirect to `/login`. */
  function Navigate(auth: Option<Auth>, path: Path): (v: Visit)
    ensures Match(path).None? ==> v == Go(LoginPath)
    ensures Match(path) == Some(Login) ==> v == Show(Login)
    ensures v.Show? ==> Match(path) == Some(v.page)
    ensures Match(path).Some? && Match(path) != Some(Login) ==>
              var page := Match(path).value;
              && (v == Show(page) <==> ProtectedRoute(auth, RouteRoles(page)) == Render)
              && (v.Go? ==> ProtectedRoute(auth, RouteRoles(page)) == Redirect(v.to))
    ensures v.Go? ==> v.to in {LoginPath, HomePath, PosPath}
  {
    match Match(path)
    case None => Go(LoginPath)
    case Some(Login) => Show(Login)
    case Some(page) =>
      match ProtectedRoute(auth, RouteRoles(page))
      case Render => Show(page)
      case Redirect(to) => Go(to)
  }

  /** Follows up to `hops` redirects from `path`; `None` when more are
      still pending. */
  function Settle(auth: Option<Auth>, path: Path, hops: nat): Option<Page>
    decreases hops
  {
    match Navigate(auth, path)
    case Show(page) => Some(page)
    case Go(to) => if hops == 0 then None else Settle(auth, to, hops - 1)
  }

  /** A signed-in user with one of the three known roles. */
  predicate KnownStaff(auth: Option<Auth>) {
    HasToken(auth) && auth.value.role in {Some("Admin"), Some("Manager"), Some("Cashier")}
  }

  /** Whether the guard of `page` lets a signed-in `role` through. */
  predicate Admits(page: Page, role: string) {
    ProtectedRoute(Some(Auth("token", Some(role))), RouteRoles(page)) == Render
  }

  // ---------------------------------------------------------------------
  // Properties

  /** Without a token every location ends on the login page, after at most
      one redirect. */
  lemma NoTokenEndsAtLogin(auth: Option<Auth>, path: Path)
    requires !HasToken(auth)
    ensures Navigate(auth, path) == Show(Login) || Navigate(auth, path) == Go(LoginPath)
    ensures Settle(auth, path, 1) == Some(Login)
  {
    assert Match(LoginPath) == Some(Login);
  }

  /** A location no route matches goes to `/login`. */
  lemma UnmatchedGoesToLogin(auth: Option<Auth>, path: Path)
    requires Match(path).None?
    ensures Navigate(auth, path) == Go(LoginPath)
    ensures Settle(auth, path, 1) == Some(Login)
  {
    assert Match(LoginPath) == Some(Login);
  }

  /** The dashboard and the products page admit exactly Admin and Manager;
      the till and both receipt pages admit exactly Admin, Manager and
      Cashier. */
  lemma RouteRolesExact(role: string, receiptNo: string)
    ensures Admits(Dashboard, role) <==> role == "Admin" || role == "Manager"
    ensures Admits(Products, role) <==> role == "Admin" || role == "Manager"
    ensures Admits(Pos, role) <==> role == "Admin" || role == "Manager" || role == "Cashier"
    ensures Admits(Receipts, role) <==> role == "Admin" || role == "Manager" || role == "Cashier"
    ensures Admits(ReceiptDetails(receiptNo), role) <==>
              role == "Admin" || role == "Manager" || role == "Cashier"
  {
  }

  /** A signed-in Admin, Manager or Cashier reaches a rendered page from any
      location after at most one redirect, and a guarded page it reaches is
      one whose roles list it. */
  lemma {:induction false} KnownStaffSettleInOneHop(auth: Option<Auth>, path: Path)
    requires KnownStaff(auth)
    ensures Settle(auth, path, 1).Some?
    ensures var page := Settle(auth, path, 1).value;
            page == Login || Listed(RouteRoles(page).value, auth.value.role)
  {
    assert Match(LoginPath) == Some(Login);
    assert Match(HomePath) == Some(Dashboard);
    assert Match(PosPath) == Some(Pos);
  }

  /** A signed-in user whose role is none of the three known ones is sent
      from `/` back to `/`: no number of redirects settles it. */
  lemma {:induction false} UnknownRoleNeverSettles(auth: Option<Auth>, hops: nat)
    requires HasToken(auth) && !KnownStaff(auth)
    ensures Navigate(auth, HomePath) == Go(HomePath)
    ensures Settle(auth, HomePath, hops).None?
    decreases hops
  {
    assert Match(HomePath) == Some(Dashboard);
    if hops > 0 {
      UnknownRoleNeverSettles(auth, hops - 1);
    }
  }
}
