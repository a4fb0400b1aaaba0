/** The application's routes: the login page at "/", the admin and coach
    areas behind a role guard, and a catch-all that sends every other path
    back to "/". */
module Routes {
  import opened Wrappers

  /** What the auth store says: whether someone is signed in, and their
      role if any. */
  datatype Session = Session(isAuthenticated: bool, role: Option<string>)

  /** The two guarded areas. */
  datatype Area = AdminArea | CoachArea

  /** What a path shows: the login page, a page of an area (`page` is ""
      for the area's index), or a redirect. */
  datatype Outcome = Login | Render(area: Area, page: string) | Redirect(to: Path)

  /** A path as its segments: "/" is `[]`, "/admin/players" is
      `["admin", "players"]`. */
  type Path = seq<string>

  const Home: Path := []

  /** The child pages of the admin area, after its index (the dashboard). */
  const AdminPages: seq<string> := ["players", "staff", "batches", "media", "yoyo-test", "attendance", "fees", "salary", "sms-messages"]

  /** The child pages of the coach area, after its index (the dashboard). */
  const CoachPages: seq<string> := ["players", "batches", "media", "yoyo-test", "attendance"]

  /** The area a first segment opens, if any. */
  function AreaAt(segment: string): (r: Option<Area>)
    ensures r == Some(AdminArea) <==> segment == "admin"
    ensures r == Some(CoachArea) <==> segment == "coach"
  {
    if segment == "admin" then Some(AdminArea)
    else if segment == "coach" then Some(CoachArea)
    else None
  }

  function Pages(area: Area): seq<string> {
    match area
    case AdminArea => AdminPages
    case CoachArea => CoachPages
  }

  /** The roles each area admits. */
  function AllowedRoles(area: Area): seq<string> {
    match area
    case AdminArea => ["admin"]
    case CoachArea => ["coach"]
  }

  /** The path of an area's index. */
  function Index(area: Area): Path {
    match area
    case AdminArea => ["admin"]
    case CoachArea => ["coach"]
  }

  /** The role the guard checks: `user?.role || ''`. */
  function RoleOrEmpty(s: Session): string {
    s.role.GetOr("")
  }

  /** `ProtectedRoute`: `None` when the children render, otherwise where it
      redirects. */
  function Guard(s: Session, allowedRoles: seq<string>): (r: Option<Path>)
    ensures r.None? <==> s.isAuthenticated && RoleOrEmpty(s) in allowedRoles
    ensures r.Some? ==> r.value == Home
  {
    if !s.isAuthenticated then Some(Home)
    else if RoleOrEmpty(s) !in allowedRoles then Some(Home)
    else None
  }

  /** The page of an area that a path names: "" for the area's index. */
  function PageAt(path: Path): (r: Option<(Area, string)>)
    ensures r.Some? ==> |path| >= 1 && AreaAt(path[0]) == Some(r.value.0)
    ensures r.Some? && |path| == 1 ==> r.value.1 == ""
    ensures r.Some? && |path| > 1 ==> r.value.1 == path[1] && path[1] in Pages(r.value.0)
    ensures r.None? <==> |path| == 0 || AreaAt(path[0]).None? || |path| > 2 || (|path| == 2 && path[1] !in Pages(AreaAt(path[0]).value))
  {
    if |path| == 0 || |path| > 2 then None
    else match AreaAt(path[0])
      case None => None
      case Some(area) =>
        if |path| == 1 then Some((area, ""))
        else if path[1] in Pages(area) then Some((area, path[1]))
        else None
  }

  /** The route `path` takes for session `s`. "/" shows the login page to a
      visitor and sends a signed-in user to their area (admins to /admin,
      every other role to /coach); an area's pages render behind its guard;
      any other path redirects to "/". */
  function Resolve(path: Path, s: Session): (r: Outcome)
    ensures r.Render? ==> s.isAuthenticated && RoleOrEmpty(s) in AllowedRoles(r.area)
    ensures r.Login? <==> path == Home && !s.isAuthenticated
    ensures r.Redirect? ==> r.to == Home || r.to == Index(AdminArea) || r.to == Index(CoachArea)
    ensures path == Home && s.isAuthenticated ==>
              r == Redirect(if s.role == Some("admin") then Index(AdminArea) else Index(CoachArea))
  {
    if path == Home then
      if !s.isAuthenticated then Login
      else Redirect(if s.role == Some("admin") then Index(AdminArea) else Index(CoachArea))
    else
      match PageAt(path)
      case None => Redirect(Home)
      case Some((area, page)) =>
        match Guard(s, AllowedRoles(area))
        case Some(to) => Redirect(to)
        case None => Render(area, page)
  }

  /** Where following redirects from `path` leads after at most `steps`
      redirects. */
  function Follow(path: Path, s: Session, steps: nat): Outcome
    decreases steps
  {
    var o := Resolve(path, s);
    if steps == 0 || !o.Redirect? then o else Follow(o.to, s, steps - 1)
  }

  /** A signed-in admin at "/" reaches the admin dashboard and a signed-in
      coach the coach dashboard, after one redirect. */
  lemma SignedInReachDashboard(s: Session)
    requires s.isAuthenticated
    ensures s.role == Some("admin") ==> Follow(Home, s, 1) == Render(AdminArea, "")
    ensures s.role == Some("coach") ==> Follow(Home, s, 1) == Render(CoachArea, "")
  {
  }

  /** A visitor who is not signed in is sent from every path to "/", which
      shows the login page. */
  lemma VisitorsLandOnLogin(path: Path, s: Session)
    requires !s.isAuthenticated
    ensures Follow(path, s, 1) == Login
  {
  }

  /** Each area's pages render only for a signed-in user with the area's
      role; everyone else is sent to "/". */
  lemma AreasAreGuarded(area: Area, page: string, s: Session)
    requires page in Pages(area)
    ensures Resolve(Index(area), s).Render? <==> s.isAuthenticated && RoleOrEmpty(s) in AllowedRoles(area)
    ensures Resolve(Index(area) + [page], s).Render? <==> s.isAuthenticated && RoleOrEmpty(s) in AllowedRoles(area)
    ensures !Resolve(Index(area) + [page], s).Render? ==> Resolve(Index(area) + [page], s) == Redirect(Home)
  {
    var p := Index(area) + [page];
    assert p[0] == Index(area)[0] && p[1] == page && |p| == 2;
  }

  /** A signed-in user whose role is neither 'admin' nor 'coach' (a student
      or support member, or a user without a role) bounces between "/" and
      "/coach" and never reaches a page, however many redirects are
      followed. */
  lemma {:induction false} OtherRolesNeverSettle(s: Session, path: Path, steps: nat)
    requires s.isAuthenticated && s.role != Some("admin") && RoleOrEmpty(s) != "coach"
    requires path == Home || path == Index(CoachArea)
    ensures Follow(path, s, steps).Redirect?
    decreases steps
  {
    var o := Resolve(path, s);
    assert o == Redirect(if path == Home then Index(CoachArea) else Home);
    if steps > 0 {
      OtherRolesNeverSettle(s, o.to, steps - 1);
    }
  }

  /** Every path that names no page of either area, other than "/",
      redirects to "/". */
  lemma UnknownPathsGoHome(path: Path, s: Session)
    requires path != Home
    requires |path| > 2 || AreaAt(path[0]).None? || (|path| == 2 && path[1] !in Pages(AreaAt(path[0]).value))
    ensures Resolve(path, s) == Redirect(Home)
  {
  }
}
