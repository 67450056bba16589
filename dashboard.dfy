/**
 * The dashboard chooser (`src/components/dashboard/DashboardWrapper.tsx`).
 */
module Dashboard {
  import opened Wrappers
  import Auth

  datatype Screen = Spinner | AdminDashboard | UserDashboard(user: Auth.SessionData)

  /** While the session loads a spinner shows; afterwards anyone who is not a signed-in user
      with a role other than `ADMIN` (including nobody signed in) gets the administrator's dashboard. */
  function Choose(loading: bool, user: Option<Auth.SessionData>): (s: Screen)
    ensures loading <==> s == Spinner
    ensures s == AdminDashboard <==> !loading && (user.None? || user.value.role == "ADMIN")
    ensures s.UserDashboard? <==> !loading && user.Some? && user.value.role != "ADMIN"
    ensures s.UserDashboard? ==> s.user == user.value
  {
    if loading then Spinner
    else if user.None? || user.value.role == "ADMIN" then AdminDashboard
    else UserDashboard(user.value)
  }
}
