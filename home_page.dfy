/** The landing page's decision: send a signed-in user with a role to their dashboard. */
module HomePage {
  import opened Wrappers

  /** `'admin' | 'student'`; `None` is the `null` role. */
  datatype Role = Admin | Student

  /** The effect's `router.push` target, if it pushes at all. */
  function Redirect(loading: bool, hasUser: bool, role: Option<Role>): (r: Option<string>)
    ensures r.Some? <==> !loading && hasUser && role.Some?
    ensures r == Some("/admin") <==> !loading && hasUser && role == Some(Admin)
    ensures r == Some("/student") <==> !loading && hasUser && role == Some(Student)
  {
    if !loading && hasUser && role.Some? then
      Some(if role.value == Admin then "/admin" else "/student")
    else None
  }

  datatype View = LoadingScreen | Landing

  /** The render: the loading screen while auth loads or while a redirect is pending. */
  function Render(loading: bool, hasUser: bool, role: Option<Role>): (v: View)
    ensures v == LoadingScreen <==> loading || (hasUser && role.Some?)
  {
    if loading || (hasUser && role.Some?) then LoadingScreen else Landing
  }

  /**
   * The render and the effect agree: the landing page shows exactly when no redirect is pending
   * and auth has settled, and a pushed redirect always happens behind the loading screen.
   */
  lemma RenderMatchesRedirect(loading: bool, hasUser: bool, role: Option<Role>)
    ensures Render(loading, hasUser, role) == Landing <==> !loading && Redirect(loading, hasUser, role).None?
    ensures Redirect(loading, hasUser, role).Some? ==> Render(loading, hasUser, role) == LoadingScreen
  {
  }
}
