/** The route gate (src/ProtectedRoute.tsx). */
module ProtectedRoute {
  import opened Common

  datatype GateResult = RenderChildren | RedirectToLogin

  /** `localStorage.getItem("token") !== null`. */
  predicate IsAuthenticated(storage: map<string, string>)
  {
    "token" in storage
  }

  /** `allowedPath && currentPath === allowedPath`. */
  predicate Bypasses(allowedPath: Option<string>, currentPath: string)
  {
    allowedPath.Some? && allowedPath.value != "" && currentPath == allowedPath.value
  }

  /** The public path passes, then a token passes, and everyone else is sent
      to /login. */
  function Gate(storage: map<string, string>, allowedPath: Option<string>, currentPath: string): (r: GateResult)
    ensures r == RedirectToLogin <==> !IsAuthenticated(storage) && !Bypasses(allowedPath, currentPath)
  {
    if Bypasses(allowedPath, currentPath) then RenderChildren
    else if !IsAuthenticated(storage) then RedirectToLogin
    else RenderChildren
  }

  /** An empty or absent public path never lets a visitor without a token
      through, whatever the current path. */
  lemma NoPublicPathNoBypass(storage: map<string, string>, allowedPath: Option<string>, currentPath: string)
    requires allowedPath.None? || allowedPath.value == ""
    ensures Gate(storage, allowedPath, currentPath) == RedirectToLogin <==> "token" !in storage
  {
  }

  /** Any stored token counts, the empty string included. */
  lemma EmptyTokenAuthenticates(storage: map<string, string>, allowedPath: Option<string>, currentPath: string)
    ensures Gate(storage["token" := ""], allowedPath, currentPath) == RenderChildren
  {
  }

  /** The public path renders even without a token, and only that path. */
  lemma PublicPathRenders(path: string, currentPath: string)
    requires path != ""
    ensures Gate(map[], Some(path), currentPath) == RenderChildren <==> currentPath == path
  {
  }
}
