/** The route guard wrapped around every protected screen. */
module PrivateRoute {
  import opened Storage
  import Js

  /** The location the guard was reached at (react-router's `useLocation()`), kept opaque. */
  datatype Location = Location(pathname: string, search: string)

  /** What the guard renders: a `<Navigate>` to a path with state, or the protected `<Outlet/>`. */
  datatype Rendered = Navigate(to: string, from: Location, replace: bool) | Outlet

  /** The login screen's route. */
  const LoginScreen := "/"

  /** Renders the outlet iff a truthy token is stored; otherwise replaces the entry with a redirect to login carrying `{from: location}`. */
  function Guard(items: map<string, string>, location: Location): (r: Rendered)
    ensures r.Outlet? <==> Js.TruthyString(Get(items, TokenKey))
    ensures r.Navigate? ==> r.to == LoginScreen && r.replace && r.from == location
  {
    if !Js.TruthyString(Get(items, TokenKey)) then Navigate(LoginScreen, location, true) else Outlet
  }
}
