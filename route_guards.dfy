/** The route guards: pure decisions over the session status and user. Every
    redirect they render replaces the history entry. The query-string parsing
    (`URLSearchParams`) and `encodeURIComponent` stay outside: the guards take
    the already extracted `next` value and an encoding function. */
module RouteGuards {
  import opened Text
  import opened AuthContext

  /** What a guard renders. */
  datatype Element = Loader | Navigate(to: string) | Outlet

  const DefaultLanding: string := "/dashboard"

  /** The anti-open-redirect rule: non-empty, starts with '/', no '//' anywhere. */
  predicate SafeNext(next: string) {
    next != "" && next[0] == '/' && !Includes(next, "//")
  }

  /** `getValidNextPath`, given `params.get('next')`. */
  function GetValidNextPath(next: Option<string>): (r: string)
    ensures SafeNext(r)
    ensures r == DefaultLanding || (next.Some? && r == next.value)
  {
    DefaultLandingSafe();
    if next.Some? && next.value != "" && next.value[0] == '/' && !Includes(next.value, "//") then next.value
    else DefaultLanding
  }

  lemma DefaultLandingSafe()
    ensures SafeNext(DefaultLanding)
  {
    NoAdjacentPair(DefaultLanding, '/', '/');
  }

  /** The candidate comes back unchanged exactly when it is safe. */
  lemma {:induction false} NextKeptIffSafe(next: string)
    ensures GetValidNextPath(Some(next)) == next <==> SafeNext(next)
  {
  }

  /** The rejected and accepted examples the guard exists for. */
  lemma NextExamples()
    ensures GetValidNextPath(None) == "/dashboard"
    ensures GetValidNextPath(Some("")) == "/dashboard"
    ensures GetValidNextPath(Some("//evil.com")) == "/dashboard"
    ensures GetValidNextPath(Some("http://evil.com")) == "/dashboard"
    ensures GetValidNextPath(Some("/a/b?x=1")) == "/a/b?x=1"
  {
    assert "//" <= "//evil.com";
    NoAdjacentPair("/a/b?x=1", '/', '/');
  }

  /** `ProtectedRoute`. */
  function ProtectedRoute(status: AuthStatus, user: Option<UserInfo>, requireAdmin: bool,
                          pathname: string, encode: string -> string): (r: Element)
    ensures r.Loader? <==> status.Unknown?
    ensures r.Navigate? ==> !status.Unknown?
    ensures status.Unauthenticated? ==> r == Navigate("/login?next=" + encode(pathname))
    ensures r.Outlet? <==>
      status.Authenticated? && (!requireAdmin || (user.Some? && user.value.isSuperuser))
    ensures status.Authenticated? && !r.Outlet? ==> r == Navigate(DefaultLanding)
  {
    if status.Unknown? then Loader
    else if status.Unauthenticated? then Navigate("/login?next=" + encode(pathname))
    else if requireAdmin && !(user.Some? && user.value.isSuperuser) then Navigate("/dashboard")
    else Outlet
  }

  /** `PublicOnlyRoute`: a redirect it renders always goes to a safe path. */
  function PublicOnlyRoute(status: AuthStatus, next: Option<string>): (r: Element)
    ensures r.Loader? <==> status.Unknown?
    ensures r.Outlet? <==> status.Unauthenticated?
    ensures r.Navigate? <==> status.Authenticated?
    ensures r.Navigate? ==> SafeNext(r.to) && r.to == GetValidNextPath(next)
  {
    if status.Unknown? then Loader
    else if status.Authenticated? then Navigate(GetValidNextPath(next))
    else Outlet
  }

  /** While a session is still being verified, no guard redirects, whatever
      the user record, the route and the query say. */
  lemma NoRedirectWhileUnknown(user: Option<UserInfo>, requireAdmin: bool, pathname: string,
                               encode: string -> string, next: Option<string>)
    ensures ProtectedRoute(Unknown, user, requireAdmin, pathname, encode) == Loader
    ensures PublicOnlyRoute(Unknown, next) == Loader
  {
  }

  /** For a provider in a consistent state, an AUTHENTICATED session on an
      admin route reaches the page exactly for a superuser. */
  lemma AdminRouteOnProvider(p: AuthProvider, pathname: string, encode: string -> string)
    requires p.Valid() && p.status.Authenticated?
    ensures ProtectedRoute(p.status, p.user, true, pathname, encode) == Outlet <==> p.user.value.isSuperuser
  {
  }
}
