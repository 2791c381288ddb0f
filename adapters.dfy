/** `CustomAccountAdapter` (market/adapters.py): where the account library
    sends a user after logging in or signing up. */
module Adapters {
  import opened Users
  import Middleware

  /** `_get_profile_or_home`: the home page for anonymous users and for
      complete profiles, the profile-set page for incomplete ones. */
  function ProfileOrHome(request: Request, routes: Routes): (url: string)
    ensures url == routes.home || url == routes.profileSet
    ensures request.user.Anonymous? ==> url == routes.home
    ensures request.user.Authenticated? && !IsComplete(request.user.profile) ==> url == routes.profileSet
    ensures request.user.Authenticated? && IsComplete(request.user.profile) ==> url == routes.home
  {
    if !request.user.Authenticated? then routes.home
    else
      var user := request.user.profile;
      if !Present(user.nickname) || !Present(user.address) || !Present(user.city) then routes.profileSet
      else routes.home
  }

  /** `get_login_redirect_url`: profile-set for an authenticated user with an
      incomplete profile, home for everyone else. */
  function LoginRedirectUrl(request: Request, routes: Routes): (url: string)
    ensures request.user.Authenticated? && !IsComplete(request.user.profile) ==> url == routes.profileSet
    ensures !(request.user.Authenticated? && !IsComplete(request.user.profile)) ==> url == routes.home
  {
    ProfileOrHome(request, routes)
  }

  /** `get_signup_redirect_url`: the same choice as after login, so a new
      account is sent to complete its profile first. */
  function SignupRedirectUrl(request: Request, routes: Routes): (url: string)
    ensures request.user.Authenticated? && !IsComplete(request.user.profile) ==> url == routes.profileSet
    ensures !(request.user.Authenticated? && !IsComplete(request.user.profile)) ==> url == routes.home
  {
    ProfileOrHome(request, routes)
  }

  /** Login and signup send every request to the same place. */
  lemma LoginAndSignupAgree(request: Request, routes: Routes)
    ensures LoginRedirectUrl(request, routes) == SignupRedirectUrl(request, routes)
  {
  }

  /** The adapter and the gate agree on what an incomplete profile is: for
      an authenticated user on an ordinary page, the adapter picks the
      profile-set page exactly when the gate would redirect there. */
  lemma AdapterAgreesWithGate<R>(request: Request, routes: Routes, getResponse: Request -> R)
    requires request.user.Authenticated?
    requires routes.home != routes.profileSet
    requires request.path !in Middleware.ExemptPaths(routes) && !Middleware.IsAssetPath(request.path)
    ensures ProfileOrHome(request, routes) == routes.profileSet
        <==> Middleware.Handle(request, routes, getResponse).Redirect?
  {
  }

  /** Whenever the gate redirects, it sends the user where the adapter would. */
  lemma GateRedirectsWhereAdapterPoints<R>(request: Request, routes: Routes, getResponse: Request -> R)
    requires Middleware.Handle(request, routes, getResponse).Redirect?
    ensures Middleware.Handle(request, routes, getResponse).location == ProfileOrHome(request, routes)
  {
  }

  /** The page the adapter chooses after login is never itself redirected
      by the gate, for anonymous, incomplete and complete users alike: no
      redirect loop. */
  lemma LoginTargetPassesGate<R>(request: Request, routes: Routes, getResponse: Request -> R)
    ensures Middleware.Handle(Request(request.user, LoginRedirectUrl(request, routes)), routes, getResponse).Downstream?
  {
  }
}
