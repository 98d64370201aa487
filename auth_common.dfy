/** The edge-safe part of the sign-in configuration: its providers, its
    pages and the `authorized` check run for every request. */
module AuthCommon {
  import Json
  import Text

  datatype Provider = Google | Apple | Email

  const CommonProviders: seq<Provider> := [Google, Apple]

  const SignInPage: string := "/dashboard/login"
  const ErrorPage: string := "/dashboard/error"

  /** The request URL, split into the origin and the path. */
  datatype NextUrl = NextUrl(origin: string, pathname: string)

  datatype Decision = Allow | RedirectTo(url: string)

  const PublicRoutes: seq<string> := [SignInPage, ErrorPage, "/"]

  predicate IsPublicRoute(pathname: string) {
    pathname in PublicRoutes
  }

  predicate IsAdminRoute(pathname: string) {
    Text.StartsWith(pathname, "/dashboard/admin")
  }

  /** The `authorized` callback: `auth` is the session or null. */
  function Authorized(auth: Json.Value, nextUrl: NextUrl): (d: Decision)
    ensures d.RedirectTo? <==> IsAdminRoute(nextUrl.pathname) && !Json.Truthy(auth)
    ensures d.RedirectTo? ==> d.url == nextUrl.origin + SignInPage
  {
    var isLoggedIn := Json.Truthy(auth);
    var isPublicRoute := IsPublicRoute(nextUrl.pathname);
    var isAdminRoute := IsAdminRoute(nextUrl.pathname);
    if isAdminRoute && isLoggedIn then Allow
    else if !isLoggedIn && isAdminRoute then RedirectTo(nextUrl.origin + SignInPage)
    else Allow
  }

  /** The public routes are never admin routes, so listing them changes
      nothing: they are allowed like every other non-admin route. */
  lemma PublicRoutesAreAllowed(auth: Json.Value, nextUrl: NextUrl)
    requires IsPublicRoute(nextUrl.pathname)
    ensures Authorized(auth, nextUrl) == Allow
  {
    var p := nextUrl.pathname;
    assert p == SignInPage || p == ErrorPage || p == "/";
    assert !IsAdminRoute(p) by {
      if |p| >= 16 {
        assert p[..16] != "/dashboard/admin" by {
          assert p[11] != "/dashboard/admin"[11];
        }
      }
    }
  }

  /** Signed-in users reach every route, admin or not. */
  lemma SignedInIsAlwaysAllowed(auth: Json.Value, nextUrl: NextUrl)
    requires Json.Truthy(auth)
    ensures Authorized(auth, nextUrl) == Allow
  {
  }
}
