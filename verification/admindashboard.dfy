/** The admin page gate (src/pages/AdminDashboard.tsx): only a profile
    with role `admin` sees the dashboard; everyone else is sent home. */
module AdminDashboard {
  import opened Common
  import Auth

  const AdminRole := "admin"
  const InitialTab := "overview"
  const HomePath := "/"

  const Tabs: seq<string> := ["overview", "content", "services", "projects", "team", "events",
                              "blog", "testimonials", "users", "website-requests", "website-info"]

  datatype View = Redirect(to: string) | Dashboard(activeTab: string)

  /** The page for a given profile on first render. */
  function Render(userData: Option<Auth.UserData>): (v: View)
    ensures v.Dashboard? <==> userData.Some? && userData.value.role == AdminRole
    ensures v.Redirect? ==> v.to == HomePath
    ensures v.Dashboard? ==> v.activeTab == InitialTab && v.activeTab in Tabs
  {
    if userData.None? || userData.value.role != AdminRole then Redirect(HomePath)
    else Dashboard(InitialTab)
  }

  /** After an auth event, the dashboard is shown only to the signed-in
      user, whose profile document exists, is active and names the role
      `admin`. */
  lemma DashboardNeedsActiveAdmin(user: Option<Auth.AuthUser>, read: Auth.DocRead)
    requires Render(Auth.Listener(user, read).userData).Dashboard?
    ensures user.Some? && read.Found? && read.doc.isActive
    ensures read.doc.role == Some(AdminRole)
  {
  }
}
