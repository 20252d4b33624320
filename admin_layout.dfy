/** The admin layout's render-or-redirect decision. It reads `loading` from
    the auth context, but the provider's context value has no such key, so the
    value it sees is always `undefined`. */
module AdminLayout {
  import opened Text
  import opened AuthContext

  datatype Screen = LoadingScreen | RedirectHome | AdminShell

  /** The `loading` entry of the context value the provider supplies: absent. */
  const ProvidedLoading: Option<bool> := None

  /** The layout for a context `loading` value (None = undefined) and user. */
  function AdminLayoutView(loading: Option<bool>, user: Option<UserInfo>): (r: Screen)
    ensures r.LoadingScreen? <==> loading == Some(true)
    ensures r.AdminShell? <==> loading != Some(true) && user.Some? && user.value.isSuperuser
    ensures r.RedirectHome? <==> loading != Some(true) && !(user.Some? && user.value.isSuperuser)
  {
    if loading == Some(true) then LoadingScreen
    else if user.None? || !user.value.isSuperuser then RedirectHome
    else AdminShell
  }

  /** Under the real provider the loader branch is unreachable, and the shell
      is shown exactly to a superuser. */
  lemma LoaderUnreachable(user: Option<UserInfo>)
    ensures AdminLayoutView(ProvidedLoading, user) != LoadingScreen
    ensures AdminLayoutView(ProvidedLoading, user) == AdminShell <==> user.Some? && user.value.isSuperuser
  {
  }

  /** While the session is still UNKNOWN the provider holds no user, so the
      layout redirects to '/' instead of waiting for the verification. */
  lemma RedirectsWhileUnknown(p: AuthProvider)
    requires p.Valid() && p.status.Unknown?
    ensures AdminLayoutView(ProvidedLoading, p.user) == RedirectHome
  {
  }
}
