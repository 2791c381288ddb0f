/** `ProfileRequiredMiddleware` (market/middleware.py): on every request,
    an authenticated user whose profile is incomplete is sent to the
    profile-set page, unless the path is one of four exempt routes or a
    static or media asset; every other request goes on to the next handler,
    `get_response`, unchanged. */
module Middleware {
  import opened Users

  const StaticPrefix: string := "/static/"
  const MediaPrefix: string := "/media/"

  /** What the middleware returns: a redirect, or the response the next
      handler produced. */
  datatype Response<R> = Redirect(location: string) | Downstream(response: R)

  /** The routes an incomplete profile may still reach. */
  function ExemptPaths(routes: Routes): set<string> {
    {routes.profileSet, routes.accountLogout, routes.accountLogin, routes.accountSignup}
  }

  /** Python's `str.startswith`. */
  predicate StartsWith(s: string, prefix: string) {
    prefix <= s
  }

  /** The request is a static file or an uploaded media file. */
  predicate IsAssetPath(path: string) {
    StartsWith(path, StaticPrefix) || StartsWith(path, MediaPrefix)
  }

  /** `__call__`: the decision made for one request. The redirect always
      goes to the profile-set page, and it happens exactly when the user is
      authenticated, the profile is incomplete, the path is not exempt and
      not an asset; otherwise `getResponse` is applied to the very request
      that came in. */
  function Handle<R>(request: Request, routes: Routes, getResponse: Request -> R): (r: Response<R>)
    ensures r.Redirect? ==> r.location == routes.profileSet
    ensures r.Downstream? ==> r.response == getResponse(request)
    ensures r.Redirect? <==>
      && request.user.Authenticated?
      && !IsComplete(request.user.profile)
      && request.path !in ExemptPaths(routes)
      && !IsAssetPath(request.path)
  {
    if request.user.Authenticated? then
      var user := request.user.profile;
      var incomplete := !Present(user.nickname) || !Present(user.address) || !Present(user.city);
      if incomplete && request.path !in ExemptPaths(routes)
         && !StartsWith(request.path, StaticPrefix) && !StartsWith(request.path, MediaPrefix)
      then Redirect(routes.profileSet)
      else Downstream(getResponse(request))
    else
      Downstream(getResponse(request))
  }

  /** Anonymous requests always reach the next handler. */
  lemma AnonymousNeverRedirected<R>(path: string, routes: Routes, getResponse: Request -> R)
    ensures Handle(Request(Anonymous, path), routes, getResponse)
         == Downstream(getResponse(Request(Anonymous, path)))
  {
  }

  /** An authenticated user with a complete profile is never redirected. */
  lemma CompleteProfileNeverRedirected<R>(request: Request, routes: Routes, getResponse: Request -> R)
    requires request.user.Authenticated? && IsComplete(request.user.profile)
    ensures Handle(request, routes, getResponse) == Downstream(getResponse(request))
  {
  }

  /** Static and media paths pass through whatever the profile state. */
  lemma AssetPathsPassThrough<R>(request: Request, routes: Routes, getResponse: Request -> R)
    requires IsAssetPath(request.path)
    ensures Handle(request, routes, getResponse) == Downstream(getResponse(request))
  {
  }

  /** Following the redirect never redirects again: the profile-set page
      is exempt, so the user can reach the form that completes the
      profile. */
  lemma NoRedirectLoop<R>(request: Request, routes: Routes, getResponse: Request -> R)
    requires Handle(request, routes, getResponse).Redirect?
    ensures Handle(Request(request.user, Handle(request, routes, getResponse).location), routes, getResponse).Downstream?
  {
  }

  /** A user with a nickname but no address or city is held at the gate on
      an ordinary page; once all three are set, the same page goes
      through. */
  lemma CompletingProfileOpensGate<R>(nickname: string, address: string, city: string,
                                       path: string, routes: Routes, getResponse: Request -> R)
    requires nickname != "" && address != "" && city != ""
    requires path !in ExemptPaths(routes) && !IsAssetPath(path)
    ensures Handle(Request(Authenticated(Profile(Some(nickname), None, None)), path), routes, getResponse)
         == Redirect(routes.profileSet)
    ensures Handle(Request(Authenticated(Profile(Some(nickname), Some(address), Some(city))), path), routes, getResponse).Downstream?
  {
  }
}
